/** Two bodies that the client sends as they are, and that end the agreement of its session. */
module SessionExamples {
  import opened Text
  import opened Decimal
  import opened Search
  import opened StompFrame
  import opened StompCodec
  import opened StuckDecoder
  import opened CreateFrames
  import opened Broker
  import opened ClientSession
  import opened SessionWire
  import opened SessionAgreement

  // ------------------------------------------------------------------ a newline in the body

  /** A body in which the user's name is followed by a line without colon, as a description with a newline gives. */
  const NEWLINE_BODY := "user:bob\nhello"

  lemma NewlineBodyThrows(r: int)
    ensures ParseFrame(CreateSendFrame("/d", NEWLINE_BODY, ToDecimal(r))) == Throws
  {
    hide ParseFrame, ToDecimal, UserOf;
    var head := "SEND";
    var a, b := HeaderLine(("destination", "/d")), HeaderLine(("receipt", ToDecimal(r)));
    var c := "user:bob";
    NewlineUser();
    DecimalIsOneLine(r);
    FiveLines(head, a, b, c, "hello");
    var rest := "\n" + NEWLINE_BODY + "\n";
    var lines := [head, a, b, c] + ["hello"];
    assert CreateSendFrame("/d", NEWLINE_BODY, ToDecimal(r)) == Lines(lines) + rest by {
      assert Line("user", "bob\nhello") == c + "\n" + ("hello" + "\n");
    }
    LineWithoutColonThrows(lines, 4, rest);
  }

  lemma NewlineUser()
    ensures UserOf(NEWLINE_BODY) == "bob\nhello"
  {
    assert NEWLINE_BODY[..5] == "user:" && NEWLINE_BODY[5..] == "bob\nhello";
    assert ';' !in "bob\nhello";
    var rest := "bob\nhello";
    assert rest[..|rest|] == rest;
  }

  lemma FiveLines(a: string, b: string, c: string, d: string, e: string)
    ensures Lines([a, b, c, d] + [e]) == a + "\n" + (b + "\n") + (c + "\n") + (d + "\n" + (e + "\n"))
  {
    hide Lines;
    assert [a, b, c, d] + [e] == [a] + ([b] + ([c] + ([d] + [e])));
    LinesCons(a, [b] + ([c] + ([d] + [e])));
    LinesCons(b, [c] + ([d] + [e]));
    LinesCons(c, [d] + [e]);
    LinesCons(d, [e]);
    LinesOne(e);
    assert a + "\n" + (b + "\n" + (c + "\n" + (d + "\n" + (e + "\n"))))
        == a + "\n" + (b + "\n") + (c + "\n") + (d + "\n" + (e + "\n"));
  }

  lemma NewlineBodyIsAscii()
    ensures Ascii("d") && Ascii(NEWLINE_BODY)
  {
  }

  lemma NewlineBodyHasNoNul(r: int)
    ensures Ascii(CreateSendFrame("/d", NEWLINE_BODY, ToDecimal(r)))
    ensures '\0' !in CreateSendFrame("/d", NEWLINE_BODY, ToDecimal(r))
  {
    hide ToDecimal, UserOf, Sane, Ascii;
    NewlineUser();
    NewlineParts();
    SaneNumber(r);
    SaneNames();
    SaneMarks();
    SaneLine("destination", "/d", false);
    SaneLine("receipt", ToDecimal(r), false);
    SaneLine("user", "bob\nhello", false);
    var a := "SEND" + "\n" + Line("destination", "/d");
    var b := a + Line("receipt", ToDecimal(r));
    SanePlus("SEND", "\n", false, false);
    SanePlus("SEND" + "\n", Line("destination", "/d"), false, false);
    SanePlus(a, Line("receipt", ToDecimal(r)), false, false);
    SanePlus(b, Line("user", "bob\nhello"), false, false);
    SanePlus(b + Line("user", "bob\nhello"), "\n", false, false);
    SanePlus(b + Line("user", "bob\nhello") + "\n", NEWLINE_BODY, false, false);
    SanePlus(b + Line("user", "bob\nhello") + "\n" + NEWLINE_BODY, "\n", false, false);
    SaneIs(CreateSendFrame("/d", NEWLINE_BODY, ToDecimal(r)));
  }

  lemma NewlineParts()
    ensures Sane("/d", false) && Sane("bob\nhello", false) && Sane(NEWLINE_BODY, false)
  {
  }

  lemma SaneIs(s: string)
    requires Sane(s, false)
    ensures Ascii(s) && '\0' !in s
  {
  }

  /** The decoder that is given such a frame never returns a message again, though it goes on after the exception. */
  lemma NothingLandsBehind(r: int, more: seq<Byte>)
    ensures GoOn("", FrameBytes(CreateSendFrame("/d", NEWLINE_BODY, ToDecimal(r))) + more).1 == []
  {
    hide ParseFrame, ToDecimal, Ascii, GoOn, Utf8, UserOf, Stuck;
    var text := CreateSendFrame("/d", NEWLINE_BODY, ToDecimal(r));
    NewlineBodyThrows(r);
    NewlineBodyHasNoNul(r);
    WholeLinesStuck(text);
    NothingBehind(text, more);
  }

  /** So a client that has subscribed to `d` loses the agreement by sending that body. */
  lemma NewlineBodyEndsAgreement(k: Link)
    requires LinkInv(k) && k.client.isConnected && "d" in k.client.subscriptions
    ensures CanLink(k, Sends("d", NEWLINE_BODY, true)) && !InSync(DoLink(k, Sends("d", NEWLINE_BODY, true)))
  {
    hide LinkInv, InSync, DoLink, CreateSendFrame, ToDecimal, Ascii, ParseFrame;
    NewlineBodyIsAscii();
    NewlineBodyThrows(k.client.receiptID + 1);
    assert "/" + "d" == "/d";
    AgreementSurvivesIff(k, Sends("d", NEWLINE_BODY, true));
  }

  // ------------------------------------------------------------------ a NUL in the body

  /** A body with a frame of its own behind a NUL. */
  const NUL_BODY := "x\0UNSUBSCRIBE\nid:1\n"

  lemma NoUserInNulBody()
    ensures UserOf(NUL_BODY) == ""
  {
    hide Find;
    assert 'u' !in NUL_BODY;
    match Find(NUL_BODY, "user:")
    case None =>
    case Some(i) => Meets(NUL_BODY, "user:", i, 0);
  }

  function FirstPiece(r: int): string
  {
    "SEND" + "\n" + Line("destination", "/d") + Line("receipt", ToDecimal(r)) + "\n" + "x"
  }

  const SECOND_PIECE := "UNSUBSCRIBE" + "\n" + Line("id", "1") + "\n"

  lemma NulFrameIs(r: int)
    ensures CreateSendFrame("/d", NUL_BODY, ToDecimal(r)) + "\0" == FirstPiece(r) + "\0" + (SECOND_PIECE + "\0")
  {
    hide ToDecimal, UserOf;
    NoUserInNulBody();
    var a := "SEND" + "\n" + Line("destination", "/d") + Line("receipt", ToDecimal(r));
    assert CreateSendFrame("/d", NUL_BODY, ToDecimal(r)) == a + "" + "\n" + NUL_BODY + "\n";
    assert NUL_BODY + "\n" == "x" + "\0" + SECOND_PIECE;
    assert a + "" + "\n" + NUL_BODY + "\n" == a + "\n" + (NUL_BODY + "\n");
  }

  lemma FirstPieceParses(r: int)
    ensures ParseFrame(FirstPiece(r)) == Ok(
              StompMessage("SEND", map["destination" := "/d", "receipt" := ToDecimal(r)], "x"))
  {
    hide ParseFrame, ToDecimal, MapOf, HeaderLines, Lines, Line;
    var x, y := ("destination", "/d"), ("receipt", ToDecimal(r));
    DecimalIsOneLine(r);
    LinesOfOne(x);
    LinesOfMore([x], y);
    PrintedFrameParses("SEND", [x] + [y], "x");
    assert FrameText("SEND", [x] + [y], "x") == "SEND" + "\n" + (Line(x.0, x.1) + Line(y.0, y.1)) + "\n" + "x";
    assert FrameText("SEND", [x] + [y], "x") == FirstPiece(r);
  }

  lemma SecondPieceParses()
    ensures ParseFrame(SECOND_PIECE) == Ok(StompMessage("UNSUBSCRIBE", map["id" := "1"], ""))
  {
    hide ParseFrame, Line;
    OneHeaderFrame("UNSUBSCRIBE", ("id", "1"));
  }

  lemma PiecesArrive(r: int)
    ensures Arriving(FirstPiece(r)) && Arriving(SECOND_PIECE)
  {
    hide ParseFrame, ToDecimal, Sane, Ascii;
    FirstPieceParses(r);
    SecondPieceParses();
    SaneNumber(r);
    SaneNames();
    SaneMarks();
    NulParts();
    SaneLine("destination", "/d", false);
    SaneLine("receipt", ToDecimal(r), false);
    SaneLine("id", "1", false);
    var a := "SEND" + "\n" + Line("destination", "/d");
    SanePlus("SEND", "\n", false, false);
    SanePlus("SEND" + "\n", Line("destination", "/d"), false, false);
    SanePlus(a, Line("receipt", ToDecimal(r)), false, false);
    SanePlus(a + Line("receipt", ToDecimal(r)), "\n", false, false);
    SanePlus(a + Line("receipt", ToDecimal(r)) + "\n", "x", false, false);
    SanePlus("UNSUBSCRIBE", "\n", false, false);
    SanePlus("UNSUBSCRIBE" + "\n", Line("id", "1"), false, false);
    SanePlus("UNSUBSCRIBE" + "\n" + Line("id", "1"), "\n", false, false);
    SaneIs(FirstPiece(r));
    SaneIs(SECOND_PIECE);
  }

  lemma NulParts()
    ensures Sane("/d", false) && Sane("x", false) && Sane("1", false)
  {
  }

  /** The decoder cuts that SEND frame in two: a SEND, and an UNSUBSCRIBE the client never meant. */
  lemma NulBodyIsTwoFrames(r: int)
    ensures DecodeAll(FrameBytes(CreateSendFrame("/d", NUL_BODY, ToDecimal(r)))) == Decoding("", [
              StompMessage("SEND", map["destination" := "/d", "receipt" := ToDecimal(r)], "x"),
              StompMessage("UNSUBSCRIBE", map["id" := "1"], "")], true)
  {
    hide ParseFrame, CreateSendFrame, ToDecimal, Ascii, DecodeFrom, FirstPiece, Utf8;
    PiecesArrive(r);
    NulFrameIs(r);
    FirstPieceParses(r);
    SecondPieceParses();
    Utf8Append(FirstPiece(r) + "\0", SECOND_PIECE + "\0");
    DecodeConcat(FRESH, FrameBytes(FirstPiece(r)), FrameBytes(SECOND_PIECE));
    DecodeOneText(FRESH, FirstPiece(r));
    DecodeOneText(FRESH.(messages := [] + [ParseFrame(FirstPiece(r)).message]), SECOND_PIECE);
  }

  /** It takes the subscription with number 1 away, though the client keeps it. */
  lemma NulBodyUnsubscribes(p: Proto, r: int)
    requires p.subscriptions == map["/d" := 1]
    ensures var d := DecodeAll(FrameBytes(CreateSendFrame("/d", NUL_BODY, ToDecimal(r))));
            LandAll(p, d.messages).subscriptions == map[]
  {
    hide CreateSendFrame, ToDecimal, Picked, Unsubscribe, SendTo, ParseInt, Process;
    NulBodyIsTwoFrames(r);
    var send := StompMessage("SEND", map["destination" := "/d", "receipt" := ToDecimal(r)], "x");
    var unsubscribe := StompMessage("UNSUBSCRIBE", map["id" := "1"], "");
    LandSend(p, send);
    UnsubscribeOne(p, unsubscribe);
    assert [send, unsubscribe][1..] == [unsubscribe] && [unsubscribe][1..] == [];
    assert LandAll(p, [send, unsubscribe]) == LandAll(Land(p, send), [unsubscribe]);
    assert LandAll(p, [unsubscribe]) == LandAll(Land(p, unsubscribe), []);
  }

  lemma UnsubscribeOne(p: Proto, m: StompMessage)
    requires p.subscriptions == map["/d" := 1] && m == StompMessage("UNSUBSCRIBE", map["id" := "1"], "")
    ensures Land(p, m).subscriptions == map[]
  {
    hide Picked, Unsubscribe, SendTo, ParseInt;
    ParsePrinted(1);
    assert ToDecimal(1) == "1";
    SomePick(p, m);
    assert p.subscriptions["/d"] == 1;
  }
}
