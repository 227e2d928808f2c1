/** Frames as bytes: UTF-8, the NUL-terminated decoder, and the class StompMessageEncoderDecoder. */
module StompCodec {
  import opened Text
  import opened StompFrame

  /** A signed Java byte. */
  type Byte = b: int | -128 <= b < 128

  // ------------------------------------------------------------------ bytes

  /** The cast `(char) nextByte`, which sign-extends. */
  function Widen(b: Byte): char
  {
    if b >= 0 then b as char else (b + 0x1_0000) as char
  }

  function ToByte(v: int): Byte
    requires 0 <= v < 256
  {
    if v < 128 then v else v - 256
  }

  function Unsigned(b: Byte): nat { if b < 0 then b + 256 else b }

  lemma UnsignedToByte(v: int)
    requires 0 <= v < 256
    ensures Unsigned(ToByte(v)) == v
  {
  }

  /** UTF-8, one character. */
  function Utf8Char(c: char): seq<Byte>
  {
    var v := c as int;
    if v < 0x80 then [v]
    else if v < 0x800 then [ToByte(0xC0 + v / 0x40), ToByte(0x80 + v % 0x40)]
    else if v < 0x1_0000 then
      [ToByte(0xE0 + v / 0x1000), ToByte(0x80 + v / 0x40 % 0x40), ToByte(0x80 + v % 0x40)]
    else
      [ToByte(0xF0 + v / 0x4_0000), ToByte(0x80 + v / 0x1000 % 0x40),
       ToByte(0x80 + v / 0x40 % 0x40), ToByte(0x80 + v % 0x40)]
  }

  function Utf8(s: string): (bytes: seq<Byte>)
  {
    if s == "" then [] else Utf8Char(s[0]) + Utf8(s[1..])
  }

  lemma {:induction false} Utf8Append(a: string, b: string)
    ensures Utf8(a + b) == Utf8(a) + Utf8(b)
  {
    if a == "" {
      assert a + b == b;
    } else {
      assert (a + b)[1..] == a[1..] + b;
      Utf8Append(a[1..], b);
    }
  }

  /** The bytes on the wire for a message whose headers are iterated in the order of `entries`. */
  function Wire(m: StompMessage, entries: seq<Header>): seq<Byte>
  {
    Utf8(FrameText(m.command, entries, m.body) + "\0")
  }

  ghost predicate Ascii(s: string) { forall c <- s :: c < 128 as char }

  ghost predicate AsciiMessage(m: StompMessage)
  {
    && Ascii(m.command) && Ascii(m.body)
    && forall k <- m.headers :: Ascii(k) && Ascii(m.headers[k])
  }

  ghost predicate NulFree(m: StompMessage)
  {
    && '\0' !in m.command && '\0' !in m.body
    && forall k <- m.headers :: '\0' !in k && '\0' !in m.headers[k]
  }

  // ------------------------------------------------------------------ the decoder as a state machine

  /** What one call of `decodeNextByte` gives its caller. */
  datatype Decoded = NoMessage | Message(message: StompMessage) | Threw

  /**
   * Decoding a byte sequence until it ends or a malformed frame makes `parseFrame` throw:
   * the text still buffered, the messages returned so far, and whether nothing was thrown.
   */
  datatype Decoding = Decoding(buffer: string, messages: seq<StompMessage>, ok: bool)

  /** One byte; a frame that throws leaves the buffer as it was. */
  function DecodeByte(buffer: string, b: Byte): (string, Decoded)
  {
    if b != 0 then (buffer + [Widen(b)], NoMessage) else
    match ParseFrame(buffer)
    case Ok(m) => ("", Message(m))
    case Throws => (buffer, Threw)
  }

  function Advance(d: Decoding, b: Byte): Decoding
  {
    if !d.ok then d else
    match DecodeByte(d.buffer, b)
    case (buffer, NoMessage) => d.(buffer := buffer)
    case (buffer, Message(m)) => d.(buffer := buffer, messages := d.messages + [m])
    case (buffer, Threw) => d.(buffer := buffer, ok := false)
  }

  function DecodeFrom(d: Decoding, bytes: seq<Byte>): Decoding
    decreases |bytes|
  {
    if bytes == [] then d else DecodeFrom(Advance(d, bytes[0]), bytes[1..])
  }

  const FRESH := Decoding("", [], true)

  function DecodeAll(bytes: seq<Byte>): Decoding { DecodeFrom(FRESH, bytes) }

  /** Chunking is irrelevant: decoding in two pieces is decoding the whole. */
  lemma {:induction false} DecodeConcat(d: Decoding, a: seq<Byte>, b: seq<Byte>)
    ensures DecodeFrom(d, a + b) == DecodeFrom(DecodeFrom(d, a), b)
    decreases |a|
  {
    if a == [] {
      assert a + b == b;
    } else {
      assert (a + b)[1..] == a[1..] + b;
      DecodeConcat(Advance(d, a[0]), a[1..], b);
    }
  }

  lemma DecodeSnoc(d: Decoding, a: seq<Byte>, b: Byte)
    ensures DecodeFrom(d, a + [b]) == Advance(DecodeFrom(d, a), b)
  {
    DecodeConcat(d, a, [b]);
    assert [b][1..] == [];
    assert DecodeFrom(Advance(DecodeFrom(d, a), b), []) == Advance(DecodeFrom(d, a), b);
  }

  /** Messages are only ever appended. */
  lemma {:induction false} DecodeExtends(d: Decoding, bytes: seq<Byte>)
    ensures d.messages <= DecodeFrom(d, bytes).messages
    ensures !d.ok ==> DecodeFrom(d, bytes) == d
    decreases |bytes|
  {
    if bytes != [] {
      DecodeExtends(Advance(d, bytes[0]), bytes[1..]);
    }
  }

  lemma {:induction false} AsciiIsOneByteEach(s: string)
    requires Ascii(s)
    ensures |Utf8(s)| == |s|
    ensures forall i | 0 <= i < |s| :: Utf8(s)[i] == s[i] as int
  {
    if s != "" {
      assert s[0] in s && Ascii(s[1..]) by { forall c | c in s[1..] ensures c in s {} }
      AsciiIsOneByteEach(s[1..]);
    }
  }

  lemma {:induction false} DecodeText(d: Decoding, bytes: seq<Byte>, s: string)
    requires d.ok
    requires |bytes| == |s|
    requires forall i | 0 <= i < |s| :: bytes[i] != 0 && Widen(bytes[i]) == s[i]
    ensures DecodeFrom(d, bytes) == d.(buffer := d.buffer + s)
    decreases |s|
  {
    if s == "" {
      assert d.buffer + s == d.buffer;
    } else {
      var d' := d.(buffer := d.buffer + [s[0]]);
      assert Advance(d, bytes[0]) == d';
      DecodeText(d', bytes[1..], s[1..]);
      assert d'.buffer + s[1..] == d.buffer + s;
    }
  }

  // ------------------------------------------------------------------ the frames of a byte stream

  /** A byte stream cut at its NULs: the pieces that end in one, and what follows the last. */
  datatype NulSplit = NulSplit(pieces: seq<seq<Byte>>, rest: seq<Byte>)

  function SplitNul(bytes: seq<Byte>): NulSplit
  {
    if bytes == [] then NulSplit([], []) else
    var n := |bytes| - 1;
    var c := SplitNul(bytes[..n]);
    if bytes[n] == 0 then NulSplit(c.pieces + [c.rest], []) else c.(rest := c.rest + [bytes[n]])
  }

  /** Pieces with their terminators. */
  function Joined(pieces: seq<seq<Byte>>): seq<Byte>
  {
    if pieces == [] then [] else Joined(pieces[..|pieces| - 1]) + pieces[|pieces| - 1] + [0]
  }

  lemma JoinedMore(pieces: seq<seq<Byte>>, piece: seq<Byte>)
    ensures Joined(pieces + [piece]) == Joined(pieces) + piece + [0]
  {
    assert (pieces + [piece])[..|pieces|] == pieces;
  }

  /** The cut is the split at the NULs: put together again it is the stream, and no part has a NUL in it. */
  lemma {:induction false} SplitNulSplits(bytes: seq<Byte>)
    ensures var c := SplitNul(bytes);
            && bytes == Joined(c.pieces) + c.rest
            && 0 !in c.rest && (forall i | 0 <= i < |c.pieces| :: 0 !in c.pieces[i])
    decreases |bytes|
  {
    hide Joined;
    if bytes == [] {
      assert Joined([]) == [] by { NothingJoined(); }
    } else {
      var n := |bytes| - 1;
      var c := SplitNul(bytes[..n]);
      SplitNulSplits(bytes[..n]);
      assert bytes == bytes[..n] + [bytes[n]];
      if bytes[n] == 0 {
        JoinedMore(c.pieces, c.rest);
        assert Joined(c.pieces + [c.rest]) + [] == bytes;
      } else {
        Assoc(Joined(c.pieces), c.rest, [bytes[n]]);
      }
    }
  }

  lemma NothingJoined()
    ensures Joined([]) == []
  {
  }

  /** The text the decoder buffers for some bytes. */
  function TextOf(bytes: seq<Byte>): (s: string)
    ensures |s| == |bytes|
  {
    seq(|bytes|, i requires 0 <= i < |bytes| => Widen(bytes[i]))
  }

  /** The messages of `d` are the first pieces, parsed; it has thrown exactly at the first that does not parse. */
  ghost predicate Parses(d: Decoding, c: NulSplit)
  {
    && |d.messages| <= |c.pieces|
    && (forall i | 0 <= i < |d.messages| :: ParseFrame(TextOf(c.pieces[i])) == Ok(d.messages[i]))
    && (d.ok ==> |d.messages| == |c.pieces| && d.buffer == TextOf(c.rest))
    && (!d.ok ==> |d.messages| < |c.pieces| && ParseFrame(TextOf(c.pieces[|d.messages|])) == Throws)
  }

  lemma ParsesOneMore(d: Decoding, c: NulSplit, b: Byte)
    requires Parses(d, c)
    ensures Parses(Advance(d, b), if b == 0 then NulSplit(c.pieces + [c.rest], []) else c.(rest := c.rest + [b]))
  {
    hide ParseFrame;
    if d.ok && b != 0 { assert TextOf(c.rest + [b]) == TextOf(c.rest) + [Widen(b)]; }
    assert TextOf([]) == "";
  }

  /**
   * For every byte stream at all: the messages a decoder returns are its NUL-terminated pieces, parsed
   * one by one; the text it still holds is what follows the last NUL; and it throws exactly at the
   * first piece that does not parse.
   */
  lemma {:induction false} MessagesAreThePieces(bytes: seq<Byte>)
    ensures Parses(DecodeAll(bytes), SplitNul(bytes))
    ensures DecodeAll(bytes).ok <==> forall piece <- SplitNul(bytes).pieces :: ParseFrame(TextOf(piece)).Ok?
    decreases |bytes|
  {
    hide ParseFrame;
    if bytes == [] {
      assert TextOf([]) == "";
    } else {
      var n := |bytes| - 1;
      MessagesAreThePieces(bytes[..n]);
      assert bytes == bytes[..n] + [bytes[n]];
      DecodeSnoc(FRESH, bytes[..n], bytes[n]);
      ParsesOneMore(DecodeAll(bytes[..n]), SplitNul(bytes[..n]), bytes[n]);
    }
    AllParseIff(DecodeAll(bytes), SplitNul(bytes));
  }

  lemma AllParseIff(d: Decoding, c: NulSplit)
    requires Parses(d, c)
    ensures d.ok <==> forall piece <- c.pieces :: ParseFrame(TextOf(piece)).Ok?
  {
    hide ParseFrame, TextOf;
    if !d.ok { assert c.pieces[|d.messages|] in c.pieces; }
  }

  /** Number of frame terminators. */
  function Nuls(bytes: seq<Byte>): nat
  {
    if bytes == [] then 0 else (if bytes[0] == 0 then 1 else 0) + Nuls(bytes[1..])
  }

  lemma {:induction false} NulsConcat(a: seq<Byte>, b: seq<Byte>)
    ensures Nuls(a + b) == Nuls(a) + Nuls(b)
  {
    if a == [] {
      assert a + b == b;
    } else {
      assert (a + b)[1..] == a[1..] + b;
      NulsConcat(a[1..], b);
    }
  }

  lemma {:induction false} NulsAt(a: seq<Byte>, i: nat)
    requires i < |a| && a[i] == 0
    ensures Nuls(a) >= 1
  {
    if i > 0 {
      NulsAt(a[1..], i - 1);
    }
  }

  /** Every terminator gives one message, unless something threw. */
  lemma {:induction false} OneMessagePerNul(d: Decoding, bytes: seq<Byte>)
    requires d.ok
    ensures var r := DecodeFrom(d, bytes); r.ok ==> |r.messages| == |d.messages| + Nuls(bytes)
    decreases |bytes|
  {
    if bytes != [] {
      if Advance(d, bytes[0]).ok {
        OneMessagePerNul(Advance(d, bytes[0]), bytes[1..]);
      } else {
        DecodeExtends(Advance(d, bytes[0]), bytes[1..]);
      }
    }
  }

  lemma FrameTextCharacters(m: StompMessage, entries: seq<Header>, c: char)
    requires Enumerates(entries, m.headers)
    requires c in FrameText(m.command, entries, m.body)
    ensures c == '\n' || c == ':' || c in m.command || c in m.body
         || exists k :: k in m.headers && (c in k || c in m.headers[k])
  {
    if c in Lines(HeaderLines(entries)) {
      var e := HeaderCharacters(entries, c);
      if e.Some? { assert e.value.0 in m.headers; }
    }
  }

  lemma {:induction false} HeaderCharacters(entries: seq<Header>, c: char) returns (e: Option<Header>)
    requires c in Lines(HeaderLines(entries))
    ensures e == None ==> c == '\n' || c == ':'
    ensures e.Some? ==> e.value in entries && (c in e.value.0 || c in e.value.1)
  {
    var ls := HeaderLines(entries);
    assert entries != [];
    if c in ls[0] + "\n" {
      e := if c in entries[0].0 || c in entries[0].1 then Some(entries[0]) else None;
    } else {
      assert ls[1..] == HeaderLines(entries[1..]);
      e := HeaderCharacters(entries[1..], c);
    }
  }

  lemma WireBytes(text: string)
    requires Ascii(text)
    ensures var w := Utf8(text + "\0");
            |w| == |text| + 1 && w[|text|] == 0 && forall i | 0 <= i < |text| :: w[i] == text[i] as int
  {
    assert forall i | 0 <= i < |text| :: (text + "\0")[i] == text[i];
    AsciiIsOneByteEach(text + "\0");
  }

  lemma DecodeOneText(d: Decoding, text: string)
    requires d.ok && d.buffer == ""
    requires Ascii(text) && '\0' !in text
    ensures DecodeFrom(d, Utf8(text + "\0")) ==
            match ParseFrame(text)
            case Ok(m) => d.(messages := d.messages + [m])
            case Throws => d.(buffer := text, ok := false)
  {
    WireBytes(text);
    var w := Utf8(text + "\0");
    var front := w[..|text|];
    forall i | 0 <= i < |text| ensures front[i] != 0 && Widen(front[i]) == text[i] {
      assert text[i] in text;
    }
    assert w == front + [0];
    DecodeText(d, front, text);
    assert d.buffer + text == text;
    DecodeSnoc(d, front, 0);
  }

  /** Decoding the wire bytes of one ASCII message without NUL is parsing its text. */
  lemma DecodeOneFrame(d: Decoding, m: StompMessage, entries: seq<Header>)
    requires d.ok && d.buffer == ""
    requires Enumerates(entries, m.headers) && AsciiMessage(m) && NulFree(m)
    ensures DecodeFrom(d, Wire(m, entries)) ==
            match ParseFrame(FrameText(m.command, entries, m.body))
            case Ok(m') => d.(messages := d.messages + [m'])
            case Throws => d.(buffer := FrameText(m.command, entries, m.body), ok := false)
  {
    var text := FrameText(m.command, entries, m.body);
    forall c | c in text ensures c < 128 as char && c != '\0' { FrameTextCharacters(m, entries, c); }
    DecodeOneText(d, text);
  }

  lemma NulTextOnTheWire(text: string)
    requires Ascii(text) && '\0' in text
    ensures Nuls(Utf8(text + "\0")) >= 2
  {
    WireBytes(text);
    var w := Utf8(text + "\0");
    var i :| 0 <= i < |text| && text[i] == '\0';
    NulsAt(w[..|text|], i);
    assert w == w[..|text|] + [0];
    NulsConcat(w[..|text|], [0]);
  }

  lemma NulOnTheWire(m: StompMessage, entries: seq<Header>)
    requires Enumerates(entries, m.headers) && AsciiMessage(m) && !NulFree(m)
    ensures Nuls(Wire(m, entries)) >= 2
  {
    var text := FrameText(m.command, entries, m.body);
    NulInText(m, entries);
    forall c | c in text ensures c < 128 as char { FrameTextCharacters(m, entries, c); }
    NulTextOnTheWire(text);
  }

  lemma NulInText(m: StompMessage, entries: seq<Header>)
    requires Enumerates(entries, m.headers) && !NulFree(m)
    ensures '\0' in FrameText(m.command, entries, m.body)
  {
    if '\0' !in m.command && '\0' !in m.body {
      var k :| k in m.headers && ('\0' in k || '\0' in m.headers[k]);
      var i :| 0 <= i < |entries| && entries[i].0 == k;
      HeaderInLines(entries, i, '\0');
    }
  }

  lemma {:induction false} HeaderInLines(entries: seq<Header>, i: nat, c: char)
    requires i < |entries| && (c in entries[i].0 || c in entries[i].1)
    ensures c in Lines(HeaderLines(entries))
  {
    var ls := HeaderLines(entries);
    assert ls[1..] == HeaderLines(entries[1..]);
    if i > 0 {
      HeaderInLines(entries[1..], i - 1, c);
    } else {
      assert c in ls[0];
    }
  }

  /**
   * The round trip on the wire, as an equivalence over all ASCII messages: a decoder fed the bytes
   * of one encoded message returns exactly that message and is empty again, if and only if the
   * message is canonical and has no NUL.
   */
  lemma WireRoundTrip(m: StompMessage, entries: seq<Header>)
    requires Enumerates(entries, m.headers) && AsciiMessage(m)
    ensures DecodeAll(Wire(m, entries)) == Decoding("", [m], true) <==> Canonical(m) && NulFree(m)
  {
    if NulFree(m) {
      FrameRoundTrip(m, entries);
      DecodeOneFrame(FRESH, m, entries);
      match ParseFrame(FrameText(m.command, entries, m.body))
      case Ok(m') => assert DecodeAll(Wire(m, entries)).messages == [] + [m'] == [m'];
      case Throws =>
    } else {
      NulOnTheWire(m, entries);
      OneMessagePerNul(FRESH, Wire(m, entries));
    }
  }

  /** A message together with the order its headers are iterated in. */
  datatype Encoded = Encoded(message: StompMessage, entries: seq<Header>)

  ghost predicate Sendable(e: Encoded)
  {
    && Enumerates(e.entries, e.message.headers) && AsciiMessage(e.message)
    && Canonical(e.message) && NulFree(e.message)
  }

  function WireAll(es: seq<Encoded>): seq<Byte>
  {
    if es == [] then [] else Wire(es[0].message, es[0].entries) + WireAll(es[1..])
  }

  function Messages(es: seq<Encoded>): (ms: seq<StompMessage>)
    ensures |ms| == |es|
  {
    seq(|es|, i requires 0 <= i < |es| => es[i].message)
  }

  lemma DecodeSendable(d: Decoding, e: Encoded)
    requires d.ok && d.buffer == "" && Sendable(e)
    ensures DecodeFrom(d, Wire(e.message, e.entries)) == d.(messages := d.messages + [e.message])
  {
    FrameRoundTrip(e.message, e.entries);
    DecodeOneFrame(d, e.message, e.entries);
  }

  /** Any number of frames back to back: the decoder returns exactly those messages, in order. */
  lemma {:induction false} StreamRoundTrip(d: Decoding, es: seq<Encoded>)
    requires d.ok && d.buffer == ""
    requires forall e <- es :: Sendable(e)
    ensures DecodeFrom(d, WireAll(es)) == d.(messages := d.messages + Messages(es))
    decreases |es|
  {
    hide Wire, Sendable, Canonical, Enumerates;
    if es == [] {
      assert d.messages + Messages(es) == d.messages;
    } else {
      var d' := d.(messages := d.messages + [es[0].message]);
      assert es[0] in es;
      DecodeConcat(d, Wire(es[0].message, es[0].entries), WireAll(es[1..]));
      DecodeSendable(d, es[0]);
      StreamRoundTrip(d', es[1..]);
      assert d'.messages + Messages(es[1..]) == d.messages + Messages(es);
    }
  }

  /** A frame text that a decoder takes for one frame: ASCII, without NUL, and well formed. */
  ghost predicate Arriving(text: string) { Ascii(text) && '\0' !in text && ParseFrame(text).Ok? }

  /** Frame texts back to back, each with its terminator. */
  function WireOf(texts: seq<string>): seq<Byte>
  {
    if texts == [] then [] else Utf8(texts[0] + "\0") + WireOf(texts[1..])
  }

  ghost predicate ParsedFrom(ms: seq<StompMessage>, texts: seq<string>)
  {
    |ms| == |texts| && forall i | 0 <= i < |ms| :: ParseFrame(texts[i]) == Ok(ms[i])
  }

  /** Any well-formed frame texts back to back, printed by whomever: one message each, in order. */
  lemma {:induction false} TextsArrive(d: Decoding, texts: seq<string>) returns (ms: seq<StompMessage>)
    requires d.ok && d.buffer == "" && forall t <- texts :: Arriving(t)
    ensures ParsedFrom(ms, texts) && DecodeFrom(d, WireOf(texts)) == d.(messages := d.messages + ms)
    decreases |texts|
  {
    hide ParseFrame, Ascii, Utf8;
    if texts == [] {
      ms := [];
      assert d.messages + ms == d.messages;
    } else {
      assert Arriving(texts[0]);
      var m := ParseFrame(texts[0]).message;
      var d' := d.(messages := d.messages + [m]);
      DecodeConcat(d, Utf8(texts[0] + "\0"), WireOf(texts[1..]));
      DecodeOneText(d, texts[0]);
      var rest := TextsArrive(d', texts[1..]);
      ms := [m] + rest;
      assert d'.messages + rest == d.messages + ms;
    }
  }

  // ------------------------------------------------------------------ the object

  class StompMessageEncoderDecoder {
    var buffer: string

    constructor ()
      ensures buffer == ""
    {
      buffer := "";
    }

    method DecodeNextByte(nextByte: Byte) returns (r: Decoded)
      modifies this
      ensures (buffer, r) == DecodeByte(old(buffer), nextByte)
    {
      if nextByte == 0 {
        var parsed := ParseFrameText(buffer);
        match parsed
        case Throws =>
          return Threw;
        case Ok(message) =>
          buffer := "";
          return Message(message);
      } else {
        buffer := buffer + [Widen(nextByte)];
        return NoMessage;
      }
    }

    static method ParseFrameText(frame: string) returns (r: Parsed)
      ensures r == ParseFrame(frame)
    {
      var lines := JavaSplit(frame, '\n');
      if |lines| == 0 {
        return Throws;
      }
      var command := lines[0];
      var headers: map<string, string> := map[];
      var i := 1;
      while i < |lines| && lines[i] != ""
        invariant 1 <= i <= |lines|
        invariant ParseHeaders(lines, 1, map[]) == ParseHeaders(lines, i, headers)
      {
        var colon := IndexOf(lines[i], ':');
        if colon == |lines[i]| {
          return Throws;
        }
        headers := headers[lines[i][..colon] := lines[i][colon + 1..]];
        i := i + 1;
      }
      i := i + 1;
      var body := "";
      ghost var start := i;
      while i < |lines|
        invariant start <= |lines| ==> start <= i <= |lines| && body == Lines(lines[start..i])
        invariant start > |lines| ==> i == start && body == ""
      {
        LinesOneMore(lines, start, i);
        body := body + lines[i] + "\n";
        i := i + 1;
      }
      if start <= |lines| { assert lines[start..i] == lines[start..]; }
      r := Ok(StompMessage(command, headers, Trim(body)));
    }

    /** The hash map is iterated in an order of its own. */
    static method EncodeFrame(message: StompMessage) returns (frame: string)
      ensures exists entries :: Enumerates(entries, message.headers)
                && frame == FrameText(message.command, entries, message.body) + "\0"
    {
      frame := message.command + "\n";
      var keys := message.headers.Keys;
      ghost var entries: seq<Header> := [];
      while keys != {}
        invariant keys <= message.headers.Keys
        invariant Enumerates(entries, message.headers - keys)
        invariant frame == message.command + "\n" + Lines(HeaderLines(entries))
        decreases keys
      {
        var key :| key in keys;
        ghost var entry := (key, message.headers[key]);
        EnumerateOneMore(entries, message.headers, keys, key);
        LineOneMore(entries, entry);
        Assoc(message.command + "\n", Lines(HeaderLines(entries)), key);
        Assoc(message.command + "\n", Lines(HeaderLines(entries)) + key, ":");
        Assoc(message.command + "\n", Lines(HeaderLines(entries)) + key + ":", message.headers[key]);
        Assoc(message.command + "\n", Lines(HeaderLines(entries)) + key + ":" + message.headers[key], "\n");
        frame := frame + key + ":" + message.headers[key] + "\n";
        entries := entries + [entry];
        keys := keys - {key};
      }
      assert message.headers - keys == message.headers;
      frame := frame + "\n" + message.body + "\0";
      assert frame == FrameText(message.command, entries, message.body) + "\0";
    }
  }

  lemma LinesOneMore(lines: seq<string>, start: nat, i: nat)
    requires start <= i < |lines|
    ensures Lines(lines[start..i + 1]) == Lines(lines[start..i]) + lines[i] + "\n"
  {
    LinesAppend(lines[start..i], [lines[i]]);
    LinesOne(lines[i]);
    assert lines[start..i + 1] == lines[start..i] + [lines[i]];
  }

  lemma LineOneMore(entries: seq<Header>, e: Header)
    ensures Lines(HeaderLines(entries + [e])) == Lines(HeaderLines(entries)) + e.0 + ":" + e.1 + "\n"
  {
    LinesAppend(HeaderLines(entries), [HeaderLine(e)]);
    assert HeaderLines(entries + [e]) == HeaderLines(entries) + [HeaderLine(e)];
    LinesOne(HeaderLine(e));
  }

  lemma EnumerateOneMore(entries: seq<Header>, all: map<string, string>, keys: set<string>, key: string)
    requires keys <= all.Keys && key in keys
    requires Enumerates(entries, all - keys)
    ensures Enumerates(entries + [(key, all[key])], all - (keys - {key}))
  {
    var more := entries + [(key, all[key])];
    forall k | k in all - (keys - {key}) ensures exists i :: 0 <= i < |more| && more[i].0 == k {
      if k == key {
        assert more[|entries|].0 == k;
      } else {
        assert k in all - keys;
        var i :| 0 <= i < |entries| && entries[i].0 == k;
        assert more[i].0 == k;
      }
    }
  }
}
