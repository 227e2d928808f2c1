/**
 * The headers of any SEND frame of the client, for whatever body: the user header swallows the rest of the
 * body, so that lines of the body can turn up among the headers and replace the ones before them.
 */
module SendHeaders {
  import opened Text
  import opened StompFrame
  import opened CreateFrames
  import opened EventPipeline

  /** The value that the header lines from line `i` on give to `key`: that of the last one that names it. */
  function LastValue(lines: seq<string>, i: nat, key: string): Option<string>
    decreases |lines| - i
  {
    if i < |lines| && lines[i] != "" then
      match LastValue(lines, i + 1, key)
      case Some(v) => Some(v)
      case None => if CutLine(lines[i]).0 == key then Some(CutLine(lines[i]).1) else None
    else None
  }

  function ValueIn(headers: map<string, string>, key: string): Option<string>
  {
    if key in headers then Some(headers[key]) else None
  }

  function OrElse(a: Option<string>, b: Option<string>): Option<string> { if a.Some? then a else b }

  lemma {:induction false} ParsedValue(lines: seq<string>, i: nat, headers: map<string, string>, key: string)
    requires ParseHeaders(lines, i, headers).HeaderBlock?
    ensures ValueIn(ParseHeaders(lines, i, headers).headers, key)
         == OrElse(LastValue(lines, i, key), ValueIn(headers, key))
    decreases |lines| - i
  {
    if i < |lines| && lines[i] != "" {
      var colon := IndexOf(lines[i], ':');
      ParsedValue(lines, i + 1, headers[lines[i][..colon] := lines[i][colon + 1..]], key);
    }
  }

  lemma {:induction false} LastValueShift(a: seq<string>, b: seq<string>, i: nat, key: string)
    ensures LastValue(a + b, |a| + i, key) == LastValue(b, i, key)
    decreases |b| - i
  {
    hide CutLine;
    if i < |b| && b[i] != "" {
      LastValueShift(a, b, i + 1, key);
    }
  }

  /** An empty line ends the headers, whatever is behind it. */
  lemma {:induction false} LastValueStops(a: seq<string>, b: seq<string>, i: nat, key: string)
    requires i <= |a| && (b == [] || b[0] == "")
    ensures LastValue(a + b, i, key) == LastValue(a, i, key)
    decreases |a| - i
  {
    hide CutLine;
    if i < |a| && a[i] != "" {
      LastValueStops(a, b, i + 1, key);
    }
  }

  lemma DroppedEmpty(pieces: seq<string>) returns (n: nat)
    ensures n <= |pieces| && DropTrailingEmpty(pieces) == pieces[..n] && (n < |pieces| ==> pieces[n] == "")
    decreases |pieces|
  {
    if pieces != [] && pieces[|pieces| - 1] == "" {
      n := DroppedEmpty(pieces[..|pieces| - 1]);
      assert pieces[..|pieces| - 1][..n] == pieces[..n];
    } else {
      n := |pieces|;
      assert pieces[..n] == pieces;
    }
  }

  lemma SplitConcat(a: string, b: string)
    ensures SplitAll(a + "\n" + b, '\n') == SplitAll(a, '\n') + SplitAll(b, '\n')
  {
    hide SplitAll;
    LinesOfSplit(a);
    PiecesHaveNoSeparator(a, '\n');
    SplitLines(SplitAll(a, '\n'), b);
  }

  // ------------------------------------------------------------------ the SEND frame

  /** What the lines of the user's text after the first give to `key`. */
  function UserHeader(body: string, key: string): Option<string>
  {
    if UserOf(body) == "" then None else LastValue(SplitAll(UserOf(body), '\n'), 1, key)
  }

  /** The user header as far as it goes: the first line of the user's text. */
  function UserLine(body: string): Option<string>
  {
    if UserOf(body) == "" then None else Some(SplitAll(UserOf(body), '\n')[0])
  }

  /** The pieces of a frame after its two fixed headers. */
  lemma UserPieces(body: string, key: string)
    ensures var user := if UserOf(body) != "" then Line("user", UserOf(body)) else "";
            LastValue(SplitAll(user + "\n" + body + "\n", '\n'), 0, key)
            == OrElse(UserHeader(body, key), if key == "user" then UserLine(body) else None)
  {
    hide SplitAll, UserOf;
    var u, tail := UserOf(body), body + "\n";
    EmptyPiece();
    if u == "" {
      assert "" + "\n" + body + "\n" == "" + "\n" + tail;
      SplitConcat("", tail);
    } else {
      var s := SplitAll(u, '\n');
      assert Line("user", u) + "\n" + body + "\n" == "user:" + u + "\n" + ("" + "\n" + tail);
      SplitConcat("user:" + u, "" + "\n" + tail);
      SplitConcat("", tail);
      FirstPiece(u);
      var p := ["user:" + s[0]] + s[1..];
      LastValueStops(p, [""] + SplitAll(tail, '\n'), 0, key);
      CutOfUser(s[0]);
      LastValueShift(["user:" + s[0]], s[1..], 0, key);
      LastValueShift([s[0]], s[1..], 0, key);
      assert [s[0]] + s[1..] == s;
    }
  }

  lemma EmptyPiece()
    ensures SplitAll("", '\n') == [""]
  {
    EmptySplits();
  }

  lemma FirstPiece(u: string)
    ensures var s := SplitAll(u, '\n'); SplitAll("user:" + u, '\n') == ["user:" + s[0]] + s[1..]
  {
    hide SplitAll;
    var i := IndexOf(u, '\n');
    var first, rest := u[..i], if i < |u| then u[i + 1..] else "";
    SplitAllStep(first, '\n', rest);
    SplitAllStep("user:" + first, '\n', rest);
    if i < |u| {
      assert u == first + ['\n'] + rest;
      assert "user:" + u == "user:" + first + ['\n'] + rest;
    } else {
      assert u == first;
    }
  }

  lemma CutOfUser(value: string)
    ensures "user:" + value != "" && CutLine("user:" + value) == ("user", value)
  {
    CutOfHeader("user", value);
    assert HeaderLine(("user", value)) == "user:" + value;
  }

  lemma FixedPieces(destination: string, r: string, rest: string)
    requires OneLine(destination) && OneLine(r)
    ensures SplitAll("SEND" + "\n" + Line("destination", destination) + Line("receipt", r) + rest, '\n')
         == ["SEND", HeaderLine(("destination", destination)), HeaderLine(("receipt", r))] + SplitAll(rest, '\n')
  {
    hide SplitAll, Lines;
    var ls := ["SEND", HeaderLine(("destination", destination)), HeaderLine(("receipt", r))];
    assert ls == ["SEND"] + ([ls[1]] + [ls[2]]);
    LinesCons("SEND", [ls[1]] + [ls[2]]);
    LinesCons(ls[1], [ls[2]]);
    LinesOne(ls[2]);
    assert Lines(ls) + rest == "SEND" + "\n" + Line("destination", destination) + Line("receipt", r) + rest;
    SplitLines(ls, rest);
  }

  lemma FixedValues(pieces: seq<string>, destination: string, r: string, more: seq<string>, key: string)
    requires pieces == ["SEND", HeaderLine(("destination", destination)), HeaderLine(("receipt", r))] + more
    ensures LastValue(pieces, 1, key)
         == OrElse(LastValue(more, 0, key),
                   if key == "destination" then Some(destination) else if key == "receipt" then Some(r) else None)
  {
    hide CutLine;
    CutOfHeader("destination", destination);
    CutOfHeader("receipt", r);
    LastValueShift(pieces[..3], more, 0, key);
    assert pieces == pieces[..3] + more;
  }

  /**
   * Every header of every SEND frame that parses: what the user's text gives to it after its first line, and
   * only if it gives nothing, the destination, receipt and user that the client meant.
   */
  lemma SendFrameHeaders(destination: string, body: string, r: string, key: string)
    requires OneLine(destination) && OneLine(r) && ParseFrame(CreateSendFrame(destination, body, r)).Ok?
    ensures ValueIn(ParseFrame(CreateSendFrame(destination, body, r)).message.headers, key)
         == OrElse(UserHeader(body, key),
                   if key == "destination" then Some(destination) else if key == "receipt" then Some(r)
                   else if key == "user" then UserLine(body) else None)
  {
    hide SplitAll, DropTrailingEmpty, UserOf, Line, CutLine, LastValue, UserHeader, UserLine, ParseHeaders, BodyFrom;
    var user := if UserOf(body) != "" then Line("user", UserOf(body)) else "";
    var rest := user + "\n" + body + "\n";
    var text := CreateSendFrame(destination, body, r);
    assert text == "SEND" + "\n" + Line("destination", destination) + Line("receipt", r) + rest;
    FixedPieces(destination, r, rest);
    var pieces := SplitAll(text, '\n');
    assert text[4] == '\n';
    var n := DroppedEmpty(pieces);
    var lines := JavaSplit(text, '\n');
    assert pieces == lines + pieces[n..];
    ParsedValue(lines, 1, map[], key);
    if n > 0 { LastValueStops(lines, pieces[n..], 1, key); }
    FixedValues(pieces, destination, r, SplitAll(rest, '\n'), key);
    UserPieces(body, key);
  }
}
