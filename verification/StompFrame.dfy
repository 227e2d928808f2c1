/** Frames as text: StompMessage, and the printing and parsing halves of StompMessageEncoderDecoder. */
module StompFrame {
  import opened Text

  datatype StompMessage = StompMessage(command: string, headers: map<string, string>, body: string)

  type Header = (string, string)

  // ------------------------------------------------------------------ printing

  function HeaderLine(h: Header): string { h.0 + ":" + h.1 }

  function HeaderLines(entries: seq<Header>): (ls: seq<string>)
    ensures |ls| == |entries|
    ensures forall i | 0 <= i < |ls| :: ls[i] == HeaderLine(entries[i])
  {
    seq(|entries|, i requires 0 <= i < |entries| => HeaderLine(entries[i]))
  }

  /** The text of a frame without its final NUL, with the headers in the order of `entries`. */
  function FrameText(command: string, entries: seq<Header>, body: string): string
  {
    command + "\n" + Lines(HeaderLines(entries)) + "\n" + body
  }

  /** The map a list of headers builds when each is put in turn: the last repeated header wins. */
  function MapOf(entries: seq<Header>): map<string, string>
  {
    if entries == [] then map[] else
    var n := |entries| - 1;
    MapOf(entries[..n])[entries[n].0 := entries[n].1]
  }

  /** `entries` lists the map `m` in some iteration order. */
  ghost predicate Enumerates(entries: seq<Header>, m: map<string, string>)
  {
    && (forall i | 0 <= i < |entries| :: entries[i].0 in m && m[entries[i].0] == entries[i].1)
    && (forall i, j | 0 <= i < j < |entries| :: entries[i].0 != entries[j].0)
    && (forall k <- m :: exists i :: 0 <= i < |entries| && entries[i].0 == k)
  }

  lemma EnumeratesFront(entries: seq<Header>, m: map<string, string>)
    requires Enumerates(entries, m) && entries != []
    ensures Enumerates(entries[..|entries| - 1], m - {entries[|entries| - 1].0})
  {
    var front := entries[..|entries| - 1];
    forall k | k in m && k != entries[|entries| - 1].0 ensures exists i :: 0 <= i < |front| && front[i].0 == k {
      var i :| 0 <= i < |entries| && entries[i].0 == k;
      assert front[i].0 == k;
    }
  }

  lemma {:induction false} MapOfEnumeration(entries: seq<Header>, m: map<string, string>)
    requires Enumerates(entries, m)
    ensures MapOf(entries) == m
  {
    if entries == [] {
      assert m.Keys == {};
    } else {
      var n := |entries| - 1;
      var key := entries[n].0;
      var rest := m - {key};
      EnumeratesFront(entries, m);
      MapOfEnumeration(entries[..n], rest);
      assert m == rest[key := m[key]];
    }
  }

  // ------------------------------------------------------------------ parsing

  datatype Parsed = Ok(message: StompMessage) | Throws

  datatype HeaderBlock = HeaderBlock(headers: map<string, string>, next: nat) | BadHeader

  /** The header loop, from line `i` on with the headers collected so far. */
  function ParseHeaders(lines: seq<string>, i: nat, headers: map<string, string>): HeaderBlock
    decreases |lines| - i
  {
    if i < |lines| && lines[i] != "" then
      var colon := IndexOf(lines[i], ':');
      if colon == |lines[i]| then BadHeader
      else ParseHeaders(lines, i + 1, headers[lines[i][..colon] := lines[i][colon + 1..]])
    else HeaderBlock(headers, i)
  }

  function BodyFrom(lines: seq<string>, i: nat): string
  {
    if i <= |lines| then Trim(Lines(lines[i..])) else ""
  }

  /** What `parseFrame` returns; `Throws` where an array index is out of bounds. */
  function ParseFrame(frame: string): Parsed { ParseLines(JavaSplit(frame, '\n')) }

  function ParseLines(lines: seq<string>): Parsed
  {
    if lines == [] then Throws else
    match ParseHeaders(lines, 1, map[])
    case BadHeader => Throws
    case HeaderBlock(headers, i) => Ok(StompMessage(lines[0], headers, BodyFrom(lines, i + 1)))
  }

  // ------------------------------------------------------------------ which messages survive

  ghost predicate OneLine(s: string) { '\n' !in s }

  ghost predicate AllOneLine(ls: seq<string>) { forall i | 0 <= i < |ls| :: OneLine(ls[i]) }

  /** Exactly the messages a printed frame is parsed back to. */
  ghost predicate Canonical(m: StompMessage)
  {
    && OneLine(m.command)
    && (forall k <- m.headers :: OneLine(k) && ':' !in k && OneLine(m.headers[k]))
    && Trimmed(m.body)
    && (m.command == "" && m.headers == map[] ==> m.body != "")
  }

  /** The header loop over printed header lines, which start at line 1, once `done` of them are read. */
  lemma {:induction false} ParseHeaderLines(lines: seq<string>, entries: seq<Header>, done: nat)
    requires forall e <- entries :: ':' !in e.0
    requires |lines| >= 1 + |entries| && lines[1..1 + |entries|] == HeaderLines(entries)
    requires |lines| == 1 + |entries| || lines[1 + |entries|] == ""
    requires done <= |entries|
    ensures ParseHeaders(lines, 1 + done, MapOf(entries[..done])) == HeaderBlock(MapOf(entries), 1 + |entries|)
    decreases |entries| - done
  {
    if done == |entries| {
      assert entries[..done] == entries;
    } else {
      var e := entries[done];
      var line := lines[1 + done];
      assert line == lines[1..1 + |entries|][done] == e.0 + (":" + e.1);
      IndexOfSkips(e.0, ':', ":" + e.1);
      assert line[..|e.0|] == e.0 && line[|e.0| + 1..] == e.1;
      assert entries[..done + 1][..done] == entries[..done];
      ParseHeaderLines(lines, entries, done + 1);
    }
  }

  lemma {:induction false} DropTrailingAfter(front: seq<string>, back: seq<string>)
    requires front != [] ==> front[|front| - 1] != ""
    requires forall i | 0 <= i < |back| :: back[i] == ""
    ensures DropTrailingEmpty(front + back) == front
  {
    if back == [] {
      assert front + back == front;
    } else {
      var all := front + back;
      assert all[|all| - 1] == back[|back| - 1];
      assert all[..|all| - 1] == front + back[..|back| - 1];
      DropTrailingAfter(front, back[..|back| - 1]);
    }
  }

  lemma {:induction false} LastPieceNotEmpty(s: string)
    requires s != "" && s[|s| - 1] != '\n'
    ensures var p := SplitAll(s, '\n'); p[|p| - 1] != ""
    decreases |s|
  {
    hide SplitAll;
    var i := IndexOf(s, '\n');
    if i == |s| {
      SplitAllStep(s, '\n', "");
    } else {
      assert s == s[..i] + ['\n'] + s[i + 1..];
      SplitAllStep(s[..i], '\n', s[i + 1..]);
      LastPieceNotEmpty(s[i + 1..]);
    }
  }

  lemma HeaderLinesAreLines(entries: seq<Header>)
    requires forall e <- entries :: OneLine(e.0) && OneLine(e.1)
    ensures forall i | 0 <= i < |entries| :: OneLine(HeaderLines(entries)[i])
  {
    var hs := HeaderLines(entries);
    forall i | 0 <= i < |hs| ensures OneLine(hs[i]) {
      assert entries[i] in entries;
    }
  }

  /** The lines `parseFrame` sees when it reads a printed frame. */
  lemma FrameLines(command: string, entries: seq<Header>, body: string)
    requires OneLine(command)
    requires forall e <- entries :: OneLine(e.0) && OneLine(e.1)
    ensures JavaSplit(FrameText(command, entries, body), '\n')
         == DropTrailingEmpty([command] + HeaderLines(entries) + [""] + SplitAll(body, '\n'))
  {
    var hs := HeaderLines(entries);
    var head := [command] + hs + [""];
    HeaderLinesAreLines(entries);
    SplitLines(head, body);
    LinesAppend([command] + hs, [""]);
    LinesCons(command, hs);
    LinesOne("");
    assert "" + "\n" == "\n";
    assert FrameText(command, entries, body)[|command|] == '\n';
  }

  lemma BodyOfPieces(front: seq<string>, body: string)
    requires Trimmed(body)
    ensures BodyFrom(front + SplitAll(body, '\n'), |front|) == body
  {
    var pieces := SplitAll(body, '\n');
    assert (front + pieces)[|front|..] == pieces;
    LinesOfSplit(body);
    TrimPadded("", body, "\n");
    assert "" + body + "\n" == body + "\n";
  }

  lemma MiddleOf(first: string, middle: seq<string>, rest: seq<string>)
    ensures ([first] + middle + rest)[1..1 + |middle|] == middle
  {
  }

  lemma EmptyMap(entries: seq<Header>)
    ensures MapOf(entries[..0]) == map[]
  {
  }

  /** The lines of a printed frame: the command, the headers and, unless the body is empty, the rest. */
  lemma PrintedLinesParse(command: string, entries: seq<Header>, body: string, lines: seq<string>)
    requires Trimmed(body)
    requires forall e <- entries :: ':' !in e.0
    requires var head := [command] + HeaderLines(entries);
             lines == if body == "" then head else head + [""] + SplitAll(body, '\n')
    ensures ParseLines(lines) == Ok(StompMessage(command, MapOf(entries), body))
  {
    hide SplitAll, ParseHeaders, MapOf, HeaderLines, Trim, Lines;
    var head := [command] + HeaderLines(entries);
    if body == "" {
      MiddleOf(command, HeaderLines(entries), []);
      assert head + [] == head;
    } else {
      MiddleOf(command, HeaderLines(entries), [""] + SplitAll(body, '\n'));
      Assoc(head, [""], SplitAll(body, '\n'));
      BodyOfPieces(head + [""], body);
    }
    EmptyMap(entries);
    ParseHeaderLines(lines, entries, 0);
  }

  lemma NothingToDrop(front: seq<string>, back: seq<string>)
    requires back != [] && back[|back| - 1] != ""
    ensures DropTrailingEmpty(front + back) == front + back
  {
  }

  lemma NonEmptyBodyLines(command: string, entries: seq<Header>, body: string)
    requires OneLine(command) && Trimmed(body) && body != ""
    requires forall e <- entries :: OneLine(e.0) && OneLine(e.1)
    ensures JavaSplit(FrameText(command, entries, body), '\n')
         == [command] + HeaderLines(entries) + [""] + SplitAll(body, '\n')
  {
    FrameLines(command, entries, body);
    LastPieceNotEmpty(body);
    NothingToDrop([command] + HeaderLines(entries) + [""], SplitAll(body, '\n'));
  }

  lemma EmptyBodyLines(command: string, entries: seq<Header>)
    requires OneLine(command) && (command != "" || entries != [])
    requires forall e <- entries :: OneLine(e.0) && OneLine(e.1)
    ensures JavaSplit(FrameText(command, entries, ""), '\n') == [command] + HeaderLines(entries)
  {
    hide SplitAll, DropTrailingEmpty, OneLine;
    var lines := [command] + HeaderLines(entries);
    LastLineNotEmpty(command, entries);
    FrameLines(command, entries, "");
    assert SplitAll("", '\n') == [""] by { EmptySplits(); }
    assert lines + [""] + [""] == lines + ["", ""];
    DropTrailingAfter(lines, ["", ""]);
  }

  lemma LastLineNotEmpty(command: string, entries: seq<Header>)
    requires command != "" || entries != []
    ensures var lines := [command] + HeaderLines(entries); lines[|lines| - 1] != ""
  {
    var lines := [command] + HeaderLines(entries);
    if entries != [] { assert lines[|lines| - 1] == HeaderLine(entries[|entries| - 1]); }
  }

  lemma EmptySplits()
    ensures SplitAll("", '\n') == [""]
  {
    SplitAllStep("", '\n', "");
  }

  lemma PrintedFrameParses(command: string, entries: seq<Header>, body: string)
    requires OneLine(command) && Trimmed(body)
    requires forall e <- entries :: OneLine(e.0) && ':' !in e.0 && OneLine(e.1)
    requires command == "" && entries == [] ==> body != ""
    ensures ParseFrame(FrameText(command, entries, body)) == Ok(StompMessage(command, MapOf(entries), body))
  {
    if body == "" {
      EmptyBodyLines(command, entries);
    } else {
      NonEmptyBodyLines(command, entries, body);
    }
    PrintedLinesParse(command, entries, body, JavaSplit(FrameText(command, entries, body), '\n'));
  }

  lemma {:induction false} ParsedHeadersAreCanonical(lines: seq<string>, i: nat, headers: map<string, string>)
    requires forall j | 0 <= j < |lines| :: OneLine(lines[j])
    requires forall k <- headers :: OneLine(k) && ':' !in k && OneLine(headers[k])
    ensures var r := ParseHeaders(lines, i, headers); r.HeaderBlock? ==>
              forall k <- r.headers :: OneLine(k) && ':' !in k && OneLine(r.headers[k])
    decreases |lines| - i
  {
    if i < |lines| && lines[i] != "" {
      var colon := IndexOf(lines[i], ':');
      if colon < |lines[i]| {
        ParsedHeadersAreCanonical(lines, i + 1, headers[lines[i][..colon] := lines[i][colon + 1..]]);
      }
    }
  }

  /** The text "\n\n" has no lines at all, so indexing the command throws. */
  lemma EmptyFrameThrows(body: string)
    requires body == ""
    ensures ParseFrame(FrameText("", [], body)) == Throws
  {
    FrameLines("", [], body);
    SplitAllStep("", '\n', "");
    assert [""] + HeaderLines([]) + [""] + [""] == [] + ["", "", ""];
    DropTrailingAfter([], ["", "", ""]);
  }

  /**
   * The round trip for one frame, as an equivalence: whatever order the headers are printed in, a
   * message is parsed back from its own frame if and only if it is canonical.
   */
  lemma FrameRoundTrip(m: StompMessage, entries: seq<Header>)
    requires Enumerates(entries, m.headers)
    ensures ParseFrame(FrameText(m.command, entries, m.body)) == Ok(m) <==> Canonical(m)
  {
    var text := FrameText(m.command, entries, m.body);
    MapOfEnumeration(entries, m.headers);
    if Canonical(m) {
      PrintedFrameParses(m.command, entries, m.body);
    } else if ParseFrame(text) == Ok(m) {
      var lines := JavaSplit(text, '\n');
      PiecesHaveNoSeparator(text, '\n');
      ParsedHeadersAreCanonical(lines, 1, map[]);
      if m.command == "" && m.headers == map[] && m.body == "" {
        assert entries == [];
        EmptyFrameThrows(m.body);
      }
      assert false;
    }
  }
}
