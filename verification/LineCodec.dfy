/** The line decoder with its doubling buffer. Lines are given as their bytes. */
module LineCodec {
  import opened Text
  import StompCodec

  type Byte = StompCodec.Byte

  const NEWLINE: Byte := 10
  const INITIAL := 0x400

  /** The largest capacity: doubled, it is negative as a 32-bit integer. */
  const LARGEST := 0x4000_0000

  /** `longest` is the longest line or part of a line so far, `copied` counts the bytes copied by growth. */
  datatype LineBuffer = LineBuffer(line: seq<Byte>, capacity: nat, copied: nat, longest: nat)

  const EMPTY := LineBuffer([], INITIAL, 0, 0)

  function Max(a: nat, b: nat): nat { if a < b then b else a }

  /** `None` is the exception of `Arrays.copyOf` on a negative size. */
  function Push(s: LineBuffer, b: Byte): Option<LineBuffer>
  {
    var n := |s.line|;
    var longest := Max(s.longest, n + 1);
    if n < s.capacity then Some(s.(line := s.line + [b], longest := longest))
    else if n >= LARGEST then None
    else Some(LineBuffer(s.line + [b], n * 2, s.copied + n, longest))
  }

  datatype Result = Nothing | Line(line: seq<Byte>) | Throws

  function DecodeByte(s: LineBuffer, b: Byte): (LineBuffer, Result)
  {
    if b == NEWLINE then (s.(line := []), Line(s.line)) else
    match Push(s, b)
    case None => (s, Throws)
    case Some(pushed) => (pushed, Nothing)
  }

  datatype Decoding = Decoding(buffer: LineBuffer, lines: seq<seq<Byte>>, ok: bool)

  function Advance(d: Decoding, b: Byte): Decoding
  {
    if !d.ok then d else
    match DecodeByte(d.buffer, b)
    case (buffer, Nothing) => d.(buffer := buffer)
    case (buffer, Line(line)) => d.(buffer := buffer, lines := d.lines + [line])
    case (buffer, Throws) => d.(buffer := buffer, ok := false)
  }

  function DecodeAll(bytes: seq<Byte>): Decoding
  {
    if bytes == [] then Decoding(EMPTY, [], true) else Advance(DecodeAll(bytes[..|bytes| - 1]), bytes[|bytes| - 1])
  }

  /** Each line followed by a newline. */
  function Terminated(lines: seq<seq<Byte>>): seq<Byte>
  {
    if lines == [] then [] else Terminated(lines[..|lines| - 1]) + lines[|lines| - 1] + [NEWLINE]
  }

  ghost predicate NoNewline(line: seq<Byte>) { NEWLINE !in line }

  lemma TerminatedMore(lines: seq<seq<Byte>>, line: seq<Byte>)
    ensures Terminated(lines + [line]) == Terminated(lines) + line + [NEWLINE]
  {
    assert (lines + [line])[..|lines|] == lines;
  }

  /**
   * Over any byte stream that does not throw, the lines popped and the line being collected are the
   * newline-split of the stream: put together again they are the stream, and none has a newline in it.
   */
  lemma {:induction false} PoppedLinesAreTheSplit(bytes: seq<Byte>)
    requires DecodeAll(bytes).ok
    ensures var d := DecodeAll(bytes);
            && bytes == Terminated(d.lines) + d.buffer.line
            && NoNewline(d.buffer.line) && (forall i | 0 <= i < |d.lines| :: NoNewline(d.lines[i]))
    decreases |bytes|
  {
    hide Terminated, Advance;
    if bytes == [] {
      assert Terminated([]) == [] by { NothingTerminated(); }
    } else {
      var front, b := bytes[..|bytes| - 1], bytes[|bytes| - 1];
      var before := DecodeAll(front);
      AdvanceLine(before, b);
      PoppedLinesAreTheSplit(front);
      assert bytes == front + [b];
      if b == NEWLINE {
        TerminatedMore(before.lines, before.buffer.line);
        assert Terminated(before.lines + [before.buffer.line]) + [] == bytes;
      } else {
        Assoc(Terminated(before.lines), before.buffer.line, [b]);
      }
    }
  }

  lemma AdvanceLine(d: Decoding, b: Byte)
    requires Advance(d, b).ok
    ensures d.ok
    ensures var d' := Advance(d, b);
            if b == NEWLINE then d'.lines == d.lines + [d.buffer.line] && d'.buffer.line == []
            else d'.lines == d.lines && d'.buffer.line == d.buffer.line + [b]
  {
  }

  lemma NothingTerminated()
    ensures Terminated([]) == []
  {
  }

  /**
   * All growth together has copied exactly the capacity minus the initial kilobyte, and the capacity is
   * the initial one or less than twice the longest line, by doublings only and never above `LARGEST`.
   */
  lemma {:induction false} DoublingBuffer(bytes: seq<Byte>)
    ensures var s := DecodeAll(bytes).buffer;
            && s.copied == s.capacity - 1024
            && (s.capacity == 1024 || s.capacity < 2 * s.longest)
            && |s.line| <= s.capacity && 1024 <= s.capacity
            && Doubled(s.capacity) && s.capacity <= 0x4000_0000
    decreases |bytes|
  {
    hide Advance, Doubled;
    if bytes == [] {
      InitialIsDoubled();
    } else {
      DoublingBuffer(bytes[..|bytes| - 1]);
      DoublingByte(DecodeAll(bytes[..|bytes| - 1]), bytes[|bytes| - 1]);
    }
  }

  lemma InitialIsDoubled()
    ensures Doubled(INITIAL)
  {
  }

  lemma DoublingByte(d: Decoding, b: Byte)
    requires var s := d.buffer;
             && s.copied == s.capacity - INITIAL
             && (s.capacity == INITIAL || s.capacity < 2 * s.longest)
             && |s.line| <= s.capacity && INITIAL <= s.capacity
             && Doubled(s.capacity) && s.capacity <= LARGEST
    ensures var s := Advance(d, b).buffer;
            && s.copied == s.capacity - INITIAL
            && (s.capacity == INITIAL || s.capacity < 2 * s.longest)
            && |s.line| <= s.capacity && INITIAL <= s.capacity
            && Doubled(s.capacity) && s.capacity <= LARGEST
  {
    hide Doubled;
    var c := d.buffer.capacity;
    if c < LARGEST {
      LargestIsDoubled();
      DoublingFits(c, LARGEST);
    }
  }

  /** The initial capacity, doubled any number of times. */
  ghost predicate Doubled(c: nat)
  {
    c == INITIAL || (c > INITIAL && c % 2 == 0 && Doubled(c / 2))
  }

  lemma LargestIsDoubled()
    ensures Doubled(LARGEST)
  {
    assert Doubled(0x8000);
    assert Doubled(0x10_0000);
    assert Doubled(0x200_0000);
  }

  lemma {:induction false} DoublingFits(c: nat, d: nat)
    requires Doubled(c) && Doubled(d) && c < d
    ensures 2 * c <= d && Doubled(2 * c)
  {
    if c != INITIAL {
      DoublingFits(c / 2, d / 2);
    }
    assert 2 * c / 2 == c;
  }

  ghost predicate TailFits(bytes: seq<Byte>)
  {
    forall i | 0 <= i <= |bytes| :: NoNewline(bytes[i..]) ==> |bytes| - i <= 0x4000_0000
  }

  /** No stretch of more than 2^30 bytes without a newline. */
  ghost predicate LinesFit(bytes: seq<Byte>)
  {
    forall j | 0 <= j <= |bytes| :: TailFits(bytes[..j])
  }

  lemma LinesFitMore(front: seq<Byte>, b: Byte)
    ensures LinesFit(front + [b]) <==> LinesFit(front) && TailFits(front + [b])
  {
    hide TailFits;
    var bytes := front + [b];
    assert forall j | 0 <= j <= |front| :: bytes[..j] == front[..j];
    assert bytes[..|bytes|] == bytes;
  }

  /** The last line of a split is what its last stretch without a newline is. */
  lemma TailFitsIff(lines: seq<seq<Byte>>, line: seq<Byte>)
    requires NoNewline(line)
    ensures TailFits(Terminated(lines) + line) <==> |line| <= LARGEST
  {
    var n := |Terminated(lines)|;
    var bytes := Terminated(lines) + line;
    assert bytes[n..] == line;
    forall i | 0 <= i < n ensures !NoNewline(bytes[i..]) {
      TerminatedEnds(lines);
      assert bytes[i..][n - 1 - i] == NEWLINE;
    }
  }

  lemma TerminatedEnds(lines: seq<seq<Byte>>)
    ensures var t := Terminated(lines); t != [] ==> t[|t| - 1] == NEWLINE
  {
  }

  /** A stream decodes without an exception if and only if its lines and its last part of a line fit. */
  lemma {:induction false} OkIffLinesFit(bytes: seq<Byte>)
    ensures DecodeAll(bytes).ok <==> LinesFit(bytes)
    decreases |bytes|
  {
    hide LinesFit, TailFits, Terminated;
    if bytes == [] {
      NothingFits();
    } else {
      var front, b := bytes[..|bytes| - 1], bytes[|bytes| - 1];
      assert bytes == front + [b];
      OkIffLinesFit(front);
      LinesFitMore(front, b);
      if DecodeAll(front).ok {
        OkIffTailFits(front, b);
      }
    }
  }

  lemma NothingFits()
    ensures LinesFit([])
  {
  }

  lemma OkIffTailFits(front: seq<Byte>, b: Byte)
    requires DecodeAll(front).ok
    ensures DecodeAll(front + [b]).ok <==> TailFits(front + [b])
  {
    hide TailFits, Terminated, Doubled;
    var before := DecodeAll(front);
    var lines, line := before.lines, before.buffer.line;
    assert (front + [b])[..|front|] == front;
    PoppedLinesAreTheSplit(front);
    DoublingBuffer(front);
    if b == NEWLINE {
      TerminatedMore(lines, line);
      TailFitsIff(lines + [line], []);
      assert Terminated(lines + [line]) + [] == front + [b];
    } else {
      if |line| == before.buffer.capacity && |line| < LARGEST {
        LargestIsDoubled();
        DoublingFits(|line|, LARGEST);
      }
      Assoc(Terminated(lines), line, [b]);
      TailFitsIff(lines, line + [b]);
    }
  }

  /** `longest` is what its name says: the length of the longest of the lines and of the parts of lines seen. */
  lemma {:induction false} LongestIsLongest(bytes: seq<Byte>)
    ensures var d := DecodeAll(bytes);
            && |d.buffer.line| <= d.buffer.longest
            && (forall i | 0 <= i < |d.lines| :: |d.lines[i]| <= d.buffer.longest)
            && (d.buffer.longest == |d.buffer.line|
                || exists i :: 0 <= i < |d.lines| && |d.lines[i]| == d.buffer.longest)
    decreases |bytes|
  {
    if bytes != [] {
      var front, b := bytes[..|bytes| - 1], bytes[|bytes| - 1];
      var before, after := DecodeAll(front), DecodeAll(bytes);
      LongestIsLongest(front);
      if b == NEWLINE && before.ok {
        assert after.lines[|before.lines|] == before.buffer.line;
        if i :| 0 <= i < |before.lines| && |before.lines[i]| == before.buffer.longest {
          assert after.lines[i] == before.lines[i];
        }
      }
    }
  }

  /** Splitting is unique, so decoding encoded lines that fit gives them back. */
  lemma {:induction false} LinesRoundTrip(lines: seq<seq<Byte>>)
    requires forall i | 0 <= i < |lines| :: NoNewline(lines[i]) && |lines[i]| <= LARGEST
    ensures var d := DecodeAll(Terminated(lines));
            d.lines == lines && d.buffer.line == [] && d.ok
  {
    hide Terminated, Push;
    if lines == [] {
      NothingTerminated();
    } else {
      var front, last := lines[..|lines| - 1], lines[|lines| - 1];
      LinesRoundTrip(front);
      assert [] + last == last;
      DecodePart(Terminated(front), last);
      var bytes := Terminated(front) + last;
      assert lines == front + [last];
      TerminatedMore(front, last);
      assert (bytes + [NEWLINE])[..|bytes|] == bytes;
    }
  }

  lemma {:induction false} DecodePart(bytes: seq<Byte>, part: seq<Byte>)
    requires NoNewline(part) && DecodeAll(bytes).ok && |DecodeAll(bytes).buffer.line + part| <= LARGEST
    ensures var before, after := DecodeAll(bytes), DecodeAll(bytes + part);
            after.lines == before.lines && after.buffer.line == before.buffer.line + part && after.ok
    decreases |part|
  {
    hide DecodeAll;
    if part == [] {
      assert bytes + part == bytes;
      assert DecodeAll(bytes).buffer.line + part == DecodeAll(bytes).buffer.line;
    } else {
      var n := |part| - 1;
      assert part == part[..n] + [part[n]];
      DecodePart(bytes, part[..n]);
      DecodeMore(bytes + part[..n], part[n]);
      Assoc(bytes, part[..n], [part[n]]);
      Assoc(DecodeAll(bytes).buffer.line, part[..n], [part[n]]);
    }
  }

  lemma DecodeMore(bytes: seq<Byte>, b: Byte)
    requires b != NEWLINE && DecodeAll(bytes).ok && |DecodeAll(bytes).buffer.line| < LARGEST
    ensures var before, after := DecodeAll(bytes), DecodeAll(bytes + [b]);
            after.lines == before.lines && after.buffer.line == before.buffer.line + [b] && after.ok
  {
    assert (bytes + [b])[..|bytes|] == bytes;
  }

  // ------------------------------------------------------------------ the object

  class LineMessageEncoderDecoder {
    var bytes: array<Byte>
    var len: nat
    ghost var copied: nat
    ghost var longest: nat

    constructor ()
      ensures Valid() && View() == EMPTY && fresh(bytes)
    {
      bytes := new Byte[INITIAL];
      len, copied, longest := 0, 0, 0;
    }

    ghost predicate Valid()
      reads this
    {
      len <= bytes.Length && INITIAL <= bytes.Length
    }

    ghost function View(): LineBuffer
      requires Valid()
      reads this, bytes
    {
      LineBuffer(bytes[..len], bytes.Length, copied, longest)
    }

    method DecodeNextByte(nextByte: Byte) returns (r: Result)
      requires Valid()
      modifies this, bytes
      ensures Valid() && (bytes == old(bytes) || fresh(bytes))
      ensures (View(), r) == DecodeByte(old(View()), nextByte)
    {
      if nextByte == NEWLINE {
        var popped := PopString();
        return Line(popped);
      }
      var pushed := PushByte(nextByte);
      return if pushed then Nothing else Throws;
    }

    /** Throws, leaving the buffer as it was, exactly when `Push` does. */
    method PushByte(nextByte: Byte) returns (ok: bool)
      requires Valid()
      modifies this, bytes
      ensures Valid() && (bytes == old(bytes) || fresh(bytes))
      ensures ok <==> Push(old(View()), nextByte).Some?
      ensures View() == if ok then Push(old(View()), nextByte).value else old(View())
    {
      ghost var before := bytes[..len];
      if len >= bytes.Length {
        if len >= LARGEST {
          return false;
        }
        bytes := CopyOf(bytes, len * 2);
        copied := copied + len;
        assert bytes[..len] == before;
      }
      bytes[len] := nextByte;
      len := len + 1;
      longest := Max(longest, len);
      assert bytes[..len] == before + [nextByte];
      return true;
    }

    /** `Arrays.copyOf` to a larger size. */
    static method CopyOf(original: array<Byte>, newLength: nat) returns (copy: array<Byte>)
      requires original.Length <= newLength
      ensures fresh(copy) && copy.Length == newLength && copy[..original.Length] == original[..]
    {
      copy := new Byte[newLength];
      var i := 0;
      while i < original.Length
        invariant 0 <= i <= original.Length && copy[..i] == original[..i]
      {
        copy[i] := original[i];
        i := i + 1;
        assert copy[..i] == original[..i - 1] + [original[i - 1]] == original[..i];
      }
      assert original[..i] == original[..];
    }

    method PopString() returns (result: seq<Byte>)
      requires Valid()
      modifies `len
      ensures Valid() && result == old(bytes[..len]) && len == 0
    {
      result := bytes[..len];
      len := 0;
    }
  }
}
