/** The client's frames as bytes: what the server's decoder makes of them. */
module SessionWire {
  import opened Text
  import opened Decimal
  import opened Search
  import opened StompFrame
  import opened StompCodec
  import opened CreateFrames

  /** `sendFrameAscii(frame, '\0')`. */
  function FrameBytes(text: string): seq<Byte> { Utf8(text + "\0") }

  lemma {:induction false} DecodeShift(d: Decoding, ms: seq<StompMessage>, bytes: seq<Byte>)
    ensures DecodeFrom(d.(messages := ms + d.messages), bytes)
         == DecodeFrom(d, bytes).(messages := ms + DecodeFrom(d, bytes).messages)
    decreases |bytes|
  {
    if bytes != [] {
      var d' := Advance(d, bytes[0]);
      AdvanceShift(d, ms, bytes[0]);
      DecodeShift(d', ms, bytes[1..]);
    }
  }

  lemma AdvanceShift(d: Decoding, ms: seq<StompMessage>, b: Byte)
    ensures Advance(d.(messages := ms + d.messages), b) == Advance(d, b).(messages := ms + Advance(d, b).messages)
  {
    hide ParseFrame;
    match DecodeByte(d.buffer, b)
    case (_, Message(m)) => Assoc(ms, d.messages, [m]);
    case (_, NoMessage) =>
    case (_, Threw) =>
  }

  /**
   * To a decoder that is ready for a frame, an ASCII text arrives as itself, one message and the decoder
   * ready again, if and only if it parses and has no NUL in it.
   */
  lemma ArrivesIff(d: Decoding, text: string)
    requires d.ok && d.buffer == "" && Ascii(text)
    ensures var r := DecodeFrom(d, FrameBytes(text));
            && (r.ok && r.buffer == "" && |r.messages| == |d.messages| + 1 <==> ParseFrame(text).Ok? && '\0' !in text)
            && (ParseFrame(text).Ok? && '\0' !in text ==>
                  r == d.(messages := d.messages + [ParseFrame(text).message]))
  {
    hide ParseFrame, Ascii, Utf8, DecodeFrom;
    if '\0' in text {
      NulTextOnTheWire(text);
      OneMessagePerNul(d, FrameBytes(text));
    } else {
      DecodeOneText(d, text);
    }
  }

  // ------------------------------------------------------------------ characters of the client's frames

  lemma Characters(a: string, b: string)
    ensures Ascii(a + b) <==> Ascii(a) && Ascii(b)
    ensures '\0' in a + b <==> '\0' in a || '\0' in b
  {
    if Ascii(a + b) {
      forall c | c in a ensures c < 128 as char { assert c in a + b; }
      forall c | c in b ensures c < 128 as char { assert c in a + b; }
    }
  }

  /** ASCII, and with a NUL exactly when told so. */
  ghost predicate Sane(s: string, nul: bool) { Ascii(s) && ('\0' in s <==> nul) }

  lemma SanePlus(a: string, b: string, m: bool, n: bool)
    requires Sane(a, m) && Sane(b, n)
    ensures Sane(a + b, m || n)
  {
    Characters(a, b);
  }

  lemma SaneNumber(n: int)
    ensures Sane(ToDecimal(n), false)
  {
    hide ToDecimal;
    PrintedCharacters(n);
  }

  lemma SaneLine(key: string, value: string, nul: bool)
    requires Sane(key, false) && Sane(value, nul)
    ensures Sane(Line(key, value), nul)
  {
    hide Ascii;
    SaneMarks();
    SanePlus(key, ":", false, false);
    SanePlus(key + ":", value, false, nul);
    SanePlus(key + ":" + value, "\n", nul, false);
  }

  lemma SaneMarks()
    ensures Sane(":", false) && Sane("\n", false) && Sane("/", false)
  {
  }

  lemma SaneNames()
    ensures Sane("SUBSCRIBE", false) && Sane("UNSUBSCRIBE", false) && Sane("DISCONNECT", false) && Sane("SEND", false)
    ensures Sane("destination", false) && Sane("id", false) && Sane("receipt", false) && Sane("user", false)
  {
    SaneKeys();
  }

  lemma SaneKeys()
    ensures Sane("destination", false) && Sane("id", false) && Sane("receipt", false) && Sane("user", false)
  {
  }

  lemma SubscribeText(d: string, n: int, r: int)
    requires Ascii(d)
    ensures Sane(CreateSubscribeFrame(d, ToDecimal(n), ToDecimal(r)), '\0' in d)
  {
    hide Sane, ToDecimal, Line;
    var nul := '\0' in d;
    SaneNames();
    SaneMarks();
    SaneNumber(n);
    SaneNumber(r);
    assert Sane(d, nul) by { SaneText(d); }
    SaneLine("destination", d, nul);
    SaneLine("id", ToDecimal(n), false);
    SaneLine("receipt", ToDecimal(r), false);
    var a := "SUBSCRIBE" + "\n" + Line("destination", d);
    SanePlus("SUBSCRIBE", "\n", false, false);
    SanePlus("SUBSCRIBE" + "\n", Line("destination", d), false, nul);
    SanePlus(a, Line("id", ToDecimal(n)), nul, false);
    SanePlus(a + Line("id", ToDecimal(n)), Line("receipt", ToDecimal(r)), nul, false);
    SanePlus(a + Line("id", ToDecimal(n)) + Line("receipt", ToDecimal(r)), "\n", nul, false);
  }

  lemma SaneText(s: string)
    requires Ascii(s)
    ensures Sane(s, '\0' in s)
  {
  }

  lemma UnsubscribeText(n: int, r: int)
    ensures Sane(CreateUnsubscribeFrame(ToDecimal(n), ToDecimal(r)), false)
  {
    hide Sane, ToDecimal, Line;
    SaneNames();
    SaneMarks();
    SaneNumber(n);
    SaneNumber(r);
    SaneLine("id", ToDecimal(n), false);
    SaneLine("receipt", ToDecimal(r), false);
    var a := "UNSUBSCRIBE" + "\n" + Line("id", ToDecimal(n));
    SanePlus("UNSUBSCRIBE", "\n", false, false);
    SanePlus("UNSUBSCRIBE" + "\n", Line("id", ToDecimal(n)), false, false);
    SanePlus(a, Line("receipt", ToDecimal(r)), false, false);
    SanePlus(a + Line("receipt", ToDecimal(r)), "\n", false, false);
  }

  lemma DisconnectText(r: int)
    ensures Sane(CreateDisconnectFrame(ToDecimal(r)), false)
  {
    hide Sane, ToDecimal, Line;
    SaneNames();
    SaneMarks();
    SaneNumber(r);
    SaneLine("receipt", ToDecimal(r), false);
    SanePlus("DISCONNECT", "\n", false, false);
    SanePlus("DISCONNECT" + "\n", Line("receipt", ToDecimal(r)), false, false);
    SanePlus("DISCONNECT" + "\n" + Line("receipt", ToDecimal(r)), "\n", false, false);
  }

  lemma AsciiUser(body: string)
    requires Ascii(body)
    ensures Ascii(UserOf(body))
  {
    hide Find, IndexOf;
    match Find(body, "user:")
    case None =>
    case Some(i) =>
      forall c | c in UserOf(body) ensures c in body {}
  }

  /** The SEND frame is ASCII when what goes into it is. */
  lemma SendText(destination: string, body: string, r: int)
    requires Ascii(destination) && Ascii(body)
    ensures Ascii(CreateSendFrame(destination, body, ToDecimal(r)))
  {
    hide Sane, ToDecimal, Line, UserOf, Ascii;
    var user := if UserOf(body) != "" then Line("user", UserOf(body)) else "";
    SaneNames();
    SaneMarks();
    SaneNumber(r);
    AsciiUser(body);
    AsciiLine("destination", destination);
    AsciiLine("receipt", ToDecimal(r)) by { SaneIsAscii(ToDecimal(r), false); }
    AsciiLine("user", UserOf(body));
    var a := "SEND" + "\n" + Line("destination", destination);
    SaneIsAscii("SEND", false);
    SaneIsAscii("\n", false);
    Characters("SEND", "\n");
    Characters("SEND" + "\n", Line("destination", destination));
    Characters(a, Line("receipt", ToDecimal(r)));
    EmptyIsAscii();
    Characters(a + Line("receipt", ToDecimal(r)), user);
    Characters(a + Line("receipt", ToDecimal(r)) + user, "\n");
    Characters(a + Line("receipt", ToDecimal(r)) + user + "\n", body);
    Characters(a + Line("receipt", ToDecimal(r)) + user + "\n" + body, "\n");
  }

  lemma SaneIsAscii(s: string, nul: bool)
    requires Sane(s, nul)
    ensures Ascii(s)
  {
  }

  lemma EmptyIsAscii()
    ensures Ascii("")
  {
  }

  lemma AsciiLine(key: string, value: string)
    requires Sane(key, false) && Ascii(value)
    ensures Ascii(Line(key, value))
  {
    hide Sane;
    SaneLine(key, value, '\0' in value) by { SaneText(value); }
    SaneIsAscii(Line(key, value), '\0' in value);
  }
}
