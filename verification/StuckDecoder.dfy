/**
 * A decoder whose caller goes on after an exception. The text that threw stays in it, and from some texts
 * there is no way on: whatever bytes come next, it never returns a message again.
 */
module StuckDecoder {
  import opened Text
  import opened StompFrame
  import opened StompCodec

  // ------------------------------------------------------------------ a line without a colon

  /** A header line without colon, before the first empty line after the command. */
  predicate BadLine(ls: seq<string>, bad: nat)
  {
    && 1 <= bad < |ls| && ls[bad] != "" && ':' !in ls[bad]
    && forall i | 1 <= i < bad :: ls[i] != ""
  }

  lemma {:induction false} KeepsFront(front: seq<string>, back: seq<string>)
    requires front != [] && front[|front| - 1] != ""
    ensures front <= DropTrailingEmpty(front + back)
  {
    if back == [] {
      assert front + back == front;
    } else {
      var all := front + back;
      if all[|all| - 1] == "" {
        assert all[..|all| - 1] == front + back[..|back| - 1];
        KeepsFront(front, back[..|back| - 1]);
      }
    }
  }

  lemma {:induction false} BadLineStops(lines: seq<string>, i: nat, bad: nat, headers: map<string, string>)
    requires 1 <= i <= bad && BadLine(lines, bad)
    ensures ParseHeaders(lines, i, headers) == BadHeader
    decreases bad - i
  {
    var colon := IndexOf(lines[i], ':');
    if i < bad && colon < |lines[i]| {
      BadLineStops(lines, i + 1, bad, headers[lines[i][..colon] := lines[i][colon + 1..]]);
    }
    assert lines[bad][..|lines[bad]|] == lines[bad];
  }

  lemma {:induction false} StoppingLine(lines: seq<string>, i: nat, headers: map<string, string>) returns (bad: nat)
    requires 1 <= i && ParseHeaders(lines, i, headers) == BadHeader
    requires forall j | 1 <= j < i && j < |lines| :: lines[j] != ""
    ensures BadLine(lines, bad)
    decreases |lines| - i
  {
    var colon := IndexOf(lines[i], ':');
    if colon == |lines[i]| {
      assert lines[i][..colon] == lines[i];
      bad := i;
    } else {
      bad := StoppingLine(lines, i + 1, headers[lines[i][..colon] := lines[i][colon + 1..]]);
    }
  }

  lemma EndsInNewline(ls: seq<string>)
    requires ls != []
    ensures '\n' in Lines(ls)
  {
    assert Lines(ls)[|ls[0]|] == '\n';
  }

  /** A frame with such a line throws, whatever follows. */
  lemma LineWithoutColonThrows(ls: seq<string>, bad: nat, rest: string)
    requires AllOneLine(ls) && BadLine(ls, bad)
    ensures ParseFrame(Lines(ls) + rest) == Throws
  {
    hide SplitAll, ParseHeaders, Lines;
    SplitLines(ls, rest);
    var pieces := ls + SplitAll(rest, '\n');
    var front := ls[..bad + 1];
    KeepsFront(front, pieces[bad + 1..]);
    assert pieces == front + pieces[bad + 1..];
    var lines := DropTrailingEmpty(pieces);
    assert forall i | 0 <= i <= bad :: lines[i] == front[i];
    BadLineStops(lines, 1, bad, map[]);
    EndsInNewline(ls);
    assert '\n' in Lines(ls) + rest;
  }

  /** And a frame that throws has one, if its last line is not what makes it throw. */
  lemma ThrowsForLine(ls: seq<string>, tail: string) returns (bad: nat)
    requires AllOneLine(ls) && OneLine(tail) && ParseFrame(Lines(ls) + tail) == Throws
    requires ':' in tail || (tail == "" && ls != [] && ls[0] != "")
    ensures BadLine(ls, bad)
  {
    hide SplitAll, ParseHeaders, Lines;
    var pieces := ls + [tail];
    SplitLines(ls, tail);
    SplitAllStep(tail, '\n', "");
    if ls == [] {
      assert Lines(ls) + tail == tail by { NoLines(); }
      CommandOnly(tail);
      assert false;
    } else {
      EndsInNewline(ls);
      assert '\n' in Lines(ls) + tail;
      var lines := DropTrailingEmpty(pieces);
      assert lines != [] by {
        if tail == "" { KeepsFront([ls[0]], pieces[1..]); assert pieces == [ls[0]] + pieces[1..]; }
      }
      bad := StoppingLine(lines, 1, map[]);
      assert lines[bad] == pieces[bad];
      assert forall i | 0 <= i <= bad :: lines[i] == pieces[i];
    }
  }

  lemma NoLines()
    ensures Lines([]) == ""
  {
  }

  lemma CommandOnly(command: string)
    requires OneLine(command)
    ensures ParseFrame(command).Ok?
  {
    assert JavaSplit(command, '\n') == [command];
  }

  lemma TextOfPieces(text: string) returns (ls: seq<string>, tail: string)
    ensures text == Lines(ls) + tail && AllOneLine(ls) && OneLine(tail)
  {
    hide Lines;
    var pieces := SplitAll(text, '\n');
    ls, tail := pieces[..|pieces| - 1], pieces[|pieces| - 1];
    LinesOfSplit(text);
    PiecesHaveNoSeparator(text, '\n');
    assert pieces == ls + [tail];
    LinesAppend(ls, [tail]);
    LinesOne(tail);
    Assoc(Lines(ls), tail, "\n");
    assert (text + "\n")[..|text|] == text;
    assert (Lines(ls) + tail + "\n")[..|Lines(ls) + tail|] == Lines(ls) + tail;
  }

  // ------------------------------------------------------------------ texts from which there is no way on

  /** Whatever is put behind the text, it throws. */
  ghost predicate Stuck(text: string) { forall more: string :: ParseFrame(text + more) == Throws }

  /** A text is stuck if and only if it throws with a colon put behind it. */
  lemma StuckIff(text: string)
    ensures Stuck(text) <==> ParseFrame(text + ":") == Throws
  {
    hide ParseFrame, Lines;
    if ParseFrame(text + ":") == Throws {
      var ls, tail := TextOfPieces(text);
      Assoc(Lines(ls), tail, ":");
      assert (tail + ":")[|tail|] == ':';
      var bad := ThrowsForLine(ls, tail + ":");
      BadLineIsStuck(ls, bad, tail);
    }
  }

  lemma BadLineIsStuck(ls: seq<string>, bad: nat, tail: string)
    requires AllOneLine(ls) && BadLine(ls, bad)
    ensures Stuck(Lines(ls) + tail)
  {
    hide ParseFrame, Lines;
    forall more: string ensures ParseFrame(Lines(ls) + tail + more) == Throws {
      Assoc(Lines(ls), tail, more);
      LineWithoutColonThrows(ls, bad, tail + more);
    }
  }

  lemma EndsWithTail(a: string, tail: string)
    ensures tail != "" ==> (a + tail)[|a + tail| - 1] in tail
  {
    if tail != "" { assert (a + tail)[|a + tail| - 1] == tail[|tail| - 1]; }
  }

  /** A text of whole lines that throws is stuck, unless its first line is empty. */
  lemma WholeLinesStuck(text: string)
    requires text != "" && text[0] != '\n' && text[|text| - 1] == '\n' && ParseFrame(text) == Throws
    ensures Stuck(text)
  {
    hide ParseFrame;
    var ls, tail := TextOfPieces(text);
    EndsWithTail(Lines(ls), tail);
    assert ls != [] && ls[0] != "";
    var bad := ThrowsForLine(ls, tail);
    BadLineIsStuck(ls, bad, tail);
  }

  // ------------------------------------------------------------------ going on

  /** Decoding byte by byte, exceptions or not: the text held at the end, and all messages returned. */
  function GoOn(text: string, bytes: seq<Byte>): (string, seq<StompMessage>)
    decreases |bytes|
  {
    if bytes == [] then (text, []) else
    match DecodeByte(text, bytes[0])
    case (t, Message(m)) => var (t', ms) := GoOn(t, bytes[1..]); (t', [m] + ms)
    case (t, _) => GoOn(t, bytes[1..])
  }

  lemma StuckByte(text: string, b: Byte)
    requires Stuck(text)
    ensures var (t, r) := DecodeByte(text, b); Stuck(t) && !r.Message?
  {
    hide ParseFrame;
    assert text + "" == text;
    forall more: string ensures ParseFrame(text + [Widen(b)] + more) == Throws {
      Assoc(text, [Widen(b)], more);
    }
  }

  /** Once it holds a text that is stuck, a decoder returns no message any more, whatever arrives. */
  lemma {:induction false} StuckForGood(text: string, bytes: seq<Byte>)
    requires Stuck(text)
    ensures GoOn(text, bytes).1 == [] && Stuck(GoOn(text, bytes).0)
    decreases |bytes|
  {
    hide ParseFrame, Stuck, DecodeByte;
    if bytes != [] {
      StuckByte(text, bytes[0]);
      StuckForGood(DecodeByte(text, bytes[0]).0, bytes[1..]);
    }
  }

  /** As long as nothing throws, it does what the decoder does that stops at an exception. */
  lemma {:induction false} GoesOn(d: Decoding, bytes: seq<Byte>)
    requires DecodeFrom(d, bytes).ok
    ensures d.ok
    ensures var (t, ms) := GoOn(d.buffer, bytes);
            DecodeFrom(d, bytes) == Decoding(t, d.messages + ms, true)
    decreases |bytes|
  {
    hide ParseFrame;
    DecodeExtends(d, bytes);
    if bytes != [] {
      GoesOn(Advance(d, bytes[0]), bytes[1..]);
      var (t, ms) := GoOn(Advance(d, bytes[0]).buffer, bytes[1..]);
      match DecodeByte(d.buffer, bytes[0])
      case (_, Message(m)) => Assoc(d.messages, [m], ms);
      case (_, NoMessage) =>
      case (_, Threw) =>
    }
  }

  lemma {:induction false} GoOnConcat(text: string, a: seq<Byte>, b: seq<Byte>)
    ensures var (t, ms) := GoOn(text, a);
            GoOn(text, a + b) == (GoOn(t, b).0, ms + GoOn(t, b).1)
    decreases |a|
  {
    hide DecodeByte;
    if a == [] {
      assert a + b == b;
      assert [] + GoOn(text, b).1 == GoOn(text, b).1;
    } else {
      assert (a + b)[1..] == a[1..] + b;
      var (t, r) := DecodeByte(text, a[0]);
      GoOnConcat(t, a[1..], b);
      if r.Message? { Assoc([r.message], GoOn(t, a[1..]).1, GoOn(GoOn(t, a[1..]).0, b).1); }
    }
  }

  /** A text that is stuck, with its terminator, and anything behind it: no message ever comes out. */
  lemma NothingBehind(text: string, more: seq<Byte>)
    requires Ascii(text) && '\0' !in text && Stuck(text)
    ensures GoOn("", Utf8(text + "\0") + more).1 == []
  {
    hide GoOn, Utf8, Stuck;
    WireBytes(text);
    var w := Utf8(text + "\0");
    var front, rest := w[..|text|], [0] + more;
    assert w + more == front + rest;
    assert "" + text == text;
    DecodeText(FRESH, front, text);
    GoesOn(FRESH, front);
    assert [] + GoOn("", front).1 == GoOn("", front).1;
    GoOnConcat("", front, rest);
    StuckForGood(text, rest);
  }
}
