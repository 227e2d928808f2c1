/**
 * What an unclean frame does to the rest of its session. One that throws is the end of the connection: the
 * server never takes another frame from it. A SEND frame that is several frames does what these do.
 */
module SessionAftermath {
  import opened Text
  import opened Decimal
  import opened StompFrame
  import opened StompCodec
  import opened StuckDecoder
  import opened CreateFrames
  import opened Broker
  import opened ClientSession
  import opened SessionWire
  import opened SessionAgreement

  /** The server's session once everything in flight has landed. */
  ghost function Landed(k: Link): Proto
    requires k.id in k.server.protos
  {
    LandAll(k.server.protos[k.id], InFlight(k).messages)
  }

  // ------------------------------------------------------------------ maps that mirror each other

  lemma MirrorsOneClient(subscriptions: map<string, int>, a: map<string, int>, b: map<string, int>)
    requires Mirrors(subscriptions, a) && Mirrors(subscriptions, b)
    ensures a == b
  {
    hide Slashed;
    forall d ensures d in a <==> d in b {
      NotMirrored(subscriptions, a, d);
      NotMirrored(subscriptions, b, d);
    }
  }

  lemma MirrorsOneServer(s: map<string, int>, t: map<string, int>, client: map<string, int>)
    requires Mirrors(s, client) && Mirrors(t, client)
    ensures s == t
  {
    hide Slashed;
  }

  // ------------------------------------------------------------------ a frame that throws

  /** The decoder of the connection holds a text from which there is no way on. */
  ghost predicate Over(k: Link, q: Proto)
  {
    k.id in k.server.protos && k.id < k.server.nextId && k.server.protos[k.id] == q && Stuck(k.text)
  }

  /** It will, after some frames that still land. */
  ghost predicate Ending(k: Link, q: Proto)
  {
    var d := InFlight(k);
    && k.id in k.server.protos && k.id < k.server.nextId && LandAll(k.server.protos[k.id], d.messages) == q
    && !d.ok && Stuck(d.buffer) && NoConnect(d.messages) && Distinct(k.server.protos[k.id], d.messages)
  }

  ghost predicate Doomed(k: Link, q: Proto) { Over(k, q) || Ending(k, q) }

  lemma {:induction false} StuckDecodesNothing(text: string, bytes: seq<Byte>)
    requires Stuck(text)
    ensures DecodeFrom(Decoding(text, [], true), bytes).messages == []
    decreases |bytes|
  {
    hide Stuck, DecodeByte;
    if bytes != [] {
      var d := Decoding(text, [], true);
      StuckByte(text, bytes[0]);
      if Advance(d, bytes[0]).ok {
        StuckDecodesNothing(DecodeByte(text, bytes[0]).0, bytes[1..]);
      } else {
        DecodeExtends(Advance(d, bytes[0]), bytes[1..]);
      }
    }
  }

  lemma DoomedLands(k: Link, q: Proto)
    requires Doomed(k, q)
    ensures k.id in k.server.protos && Landed(k) == q
  {
    hide Stuck, DecodeFrom;
    if Over(k, q) { StuckDecodesNothing(k.text, k.wire); }
  }

  lemma DoomedClient(k: Link, q: Proto, c: Client, frame: Option<string>)
    requires Doomed(k, q)
    ensures Doomed(DoClient(k, c, frame), q)
  {
    hide Stuck, InFlight, LandAll, Distinct, NoConnect, FrameBytes;
    if frame.Some? {
      MoreInFlight(k, c, frame.value);
      DecodeExtends(InFlight(k), FrameBytes(frame.value));
    }
    assert InFlight(DoClient(k, c, None)) == InFlight(k) by { SameWire(k, c); }
  }

  lemma SameWire(k: Link, c: Client)
    ensures InFlight(DoClient(k, c, None)) == InFlight(k)
  {
  }

  lemma ThrowingByte(text: string, wire: seq<Byte>)
    requires wire != [] && DecodeByte(text, wire[0]).1 == Threw
    ensures DecodeFrom(Decoding(text, [], true), wire) == Decoding(DecodeByte(text, wire[0]).0, [], false)
  {
    hide DecodeByte;
    DecodeExtends(Advance(Decoding(text, [], true), wire[0]), wire[1..]);
  }

  lemma DoomedArrives(k: Link, q: Proto, pick: string, lost: nat)
    requires Doomed(k, q) && CanLink(k, Arrives(pick, lost))
    ensures Doomed(DoLink(k, Arrives(pick, lost)), q)
  {
    hide Stuck, DecodeByte, Step, CanStep, Land, Ending, NoConnect;
    if Over(k, q) {
      StuckByte(k.text, k.wire[0]);
    } else {
      EndingArrives(k, q, pick, lost);
    }
  }

  lemma EndingArrives(k: Link, q: Proto, pick: string, lost: nat)
    requires Ending(k, q) && CanLink(k, Arrives(pick, lost))
    ensures Doomed(DoLink(k, Arrives(pick, lost)), q)
  {
    hide Stuck, DecodeByte, DecodeFrom, Step, Land, Injective;
    FirstByte(k.text, k.wire);
    match DecodeByte(k.text, k.wire[0]) {
      case (_, NoMessage) =>
      case (text, Message(m)) =>
        var ms := InFlight(k).messages;
        assert ms[0] == m && ms[1..] == DecodeFrom(Decoding(text, [], true), k.wire[1..]).messages;
        LandsAsProcessed(k, m, pick);
      case (_, Threw) => ThrowingByte(k.text, k.wire);
    }
  }

  lemma DoomedServer(k: Link, q: Proto, step: ServerStep)
    requires Doomed(k, q) && CanLink(k, ServerMoves(step))
    ensures Doomed(DoLink(k, ServerMoves(step)), q)
  {
    hide Stuck, Step, CanStep, DecodeFrom, LandAll, Distinct, NoConnect;
    OtherStep(k, step);
  }

  lemma OtherStep(k: Link, step: ServerStep)
    requires k.id in k.server.protos && k.id < k.server.nextId && CanLink(k, ServerMoves(step))
    ensures var s' := Step(k.server, step);
            k.id in s'.protos && k.id < s'.nextId && s'.protos[k.id] == k.server.protos[k.id]
  {
    hide Process, CanPick, Disconnect;
  }

  lemma DoomedStep(k: Link, q: Proto, l: LinkStep)
    requires Doomed(k, q) && CanLink(k, l)
    ensures Doomed(DoLink(k, l), q)
  {
    hide Doomed;
    match l {
      case Arrives(pick, lost) => DoomedArrives(k, q, pick, lost);
      case ServerMoves(step) => DoomedServer(k, q, step);
      case _ => DoomedClient(k, q, OutcomeOf(k, l).0.client, HandedOver(k, l));
    }
  }

  // ------------------------------------------------------------------ from a frame that throws to its consequences

  ghost predicate WholeLines(text: string)
  {
    text != "" && text[0] != '\n' && text[|text| - 1] == '\n'
  }

  lemma HandedOverText(k: Link, l: LinkStep)
    requires CanLink(k, l) && HandedOver(k, l).Some?
    ensures Ascii(HandedOver(k, l).value) && WholeLines(HandedOver(k, l).value)
  {
    hide Ascii, ToDecimal, UserOf, Line;
    match l {
      case Subscribes(d, sent) => SubscribeText(d, k.client.subscriptionID + 1, k.client.receiptID + 1);
      case Unsubscribes(d, sent) =>
        UnsubscribeText(k.client.subscriptions[d], k.client.receiptID + 1);
      case Sends(d, body, sent) => SendsAscii(d, body, k.client.receiptID + 1);
      case Disconnects => DisconnectText(k.client.receiptID + 1);
      case _ =>
    }
  }

  /** A frame that throws when it arrives, though it has no NUL in it. */
  ghost predicate HandsOverThrowing(k: Link, l: LinkStep)
  {
    HandedOver(k, l).Some? && '\0' !in HandedOver(k, l).value && ParseFrame(HandedOver(k, l).value) == Throws
  }

  lemma BecomesDoomed(k: Link, l: LinkStep)
    requires LinkInv(k) && CanLink(k, l) && HandsOverThrowing(k, l)
    ensures Doomed(DoLink(k, l), Landed(k))
  {
    hide Stuck, ParseFrame, InFlight, LandAll, Distinct, NoConnect, Ascii, OutcomeOf, FrameBytes, CanLink, Numbers;
    var text, c := HandedOver(k, l).value, OutcomeOf(k, l).0.client;
    HandedOverText(k, l);
    WholeLinesStuck(text);
    MoreInFlight(k, c, text);
    ArrivesThrowing(InFlight(k), text);
    assert DoLink(k, l) == DoClient(k, c, Some(text)) by { ClientStep(k, l); }
  }

  lemma ClientStep(k: Link, l: LinkStep)
    requires CanLink(k, l) && HandedOver(k, l).Some?
    ensures DoLink(k, l) == DoClient(k, OutcomeOf(k, l).0.client, HandedOver(k, l))
  {
  }

  lemma ArrivesThrowing(d: Decoding, text: string)
    requires d.ok && d.buffer == "" && Ascii(text) && '\0' !in text && ParseFrame(text) == Throws
    ensures DecodeFrom(d, FrameBytes(text)) == d.(buffer := text, ok := false)
  {
    hide ParseFrame, Ascii, Utf8, DecodeFrom;
    DecodeOneText(d, text);
  }

  lemma {:induction false} DoomedForGood(ks: seq<Link>, ls: seq<LinkStep>, i: nat, j: nat, q: Proto)
    requires IsSession(ks, ls) && i <= j < |ks| && Doomed(ks[i], q)
    ensures Doomed(ks[j], q)
    decreases j
  {
    hide Doomed, DoLink, CanLink, Opened;
    if i < j {
      DoomedForGood(ks, ls, i, j - 1, q);
      DoomedStep(ks[j - 1], q, ls[j - 1]);
    }
  }

  /**
   * A frame that throws is the end of its connection. In a session that was in agreement until then, the
   * server's session is never again anything but what it had agreed on, whatever the client sends, however
   * much of it is lost, and whatever the others do. So the two sides have the same subscriptions at a later
   * time if and only if the client has gone back to exactly those it had, numbers included: no new
   * SUBSCRIBE, no UNSUBSCRIBE and no DISCONNECT ever lands.
   */
  lemma ThrowingFrameIsTheEnd(ks: seq<Link>, ls: seq<LinkStep>, i: nat, j: nat)
    requires IsSession(ks, ls) && i < j < |ks| && CleanUntil(ks, ls, i) && HandsOverThrowing(ks[i], ls[i])
    ensures ks[i].id in ks[i].server.protos && ks[j].id in ks[j].server.protos
    ensures Landed(ks[j]) == Landed(ks[i])
    ensures Mirrors(Landed(ks[j]).subscriptions, ks[j].client.subscriptions)
       <==> ks[j].client.subscriptions == ks[i].client.subscriptions
    ensures forall d | d !in ks[i].client.subscriptions :: Slashed(d) !in Landed(ks[j]).subscriptions
  {
    hide LinkInv, Doomed, DoLink, CanLink, Clean, HandsOverThrowing, Opened, Mirrors, Landed, Slashed;
    SessionInv(ks, ls, i);
    AgreedThen(ks[i]);
    BecomesDoomed(ks[i], ls[i]);
    var q := Landed(ks[i]);
    DoomedForGood(ks, ls, i + 1, j, q);
    DoomedLands(ks[j], q);
    if Mirrors(q.subscriptions, ks[j].client.subscriptions) {
      MirrorsOneClient(q.subscriptions, ks[j].client.subscriptions, ks[i].client.subscriptions);
    }
    forall d | d !in ks[i].client.subscriptions ensures Slashed(d) !in q.subscriptions {
      NotMirrored(q.subscriptions, ks[i].client.subscriptions, d);
    }
  }

  lemma AgreedThen(k: Link)
    requires LinkInv(k)
    ensures k.id in k.server.protos && Mirrors(Landed(k).subscriptions, k.client.subscriptions)
  {
    hide Mirrors, InFlight, LandAll, Distinct, Numbers, ParsedFrom;
  }

  // ------------------------------------------------------------------ a SEND frame, whatever it decodes to

  lemma {:induction false} LandConcat(p: Proto, a: seq<StompMessage>, b: seq<StompMessage>)
    ensures LandAll(p, a + b) == LandAll(LandAll(p, a), b)
    decreases |a|
  {
    hide Land;
    if a == [] {
      assert a + b == b;
    } else {
      assert (a + b)[1..] == a[1..] + b;
      LandConcat(Land(p, a[0]), a[1..], b);
    }
  }

  /**
   * What any SEND does to the subscriptions, clean or not: exactly what the messages do that its bytes
   * decode to. The two sides still have the same afterwards if and only if these change nothing.
   */
  lemma SendAgreesIff(k: Link, d: string, body: string)
    requires LinkInv(k) && CanLink(k, Sends(d, body, true)) && HandedOver(k, Sends(d, body, true)).Some?
    ensures k.id in k.server.protos
    ensures var text, k' := HandedOver(k, Sends(d, body, true)).value, DoLink(k, Sends(d, body, true));
            var sent := DecodeAll(FrameBytes(text)).messages;
            && k'.id in k'.server.protos && Landed(k') == LandAll(Landed(k), sent)
            && (Mirrors(Landed(k').subscriptions, k'.client.subscriptions) <==>
                  LandAll(Landed(k), sent).subscriptions == Landed(k).subscriptions)
  {
    hide Mirrors, InFlight, LandAll, FrameBytes, DecodeFrom, Ascii, Numbers, Distinct, CreateSendFrame, ParsedFrom;
    var text, k' := HandedOver(k, Sends(d, body, true)).value, DoLink(k, Sends(d, body, true));
    var before, sent := InFlight(k), DecodeAll(FrameBytes(text)).messages;
    MoreInFlight(k, k'.client, text);
    DecodeShift(FRESH, before.messages, FrameBytes(text));
    assert before == FRESH.(messages := before.messages + []);
    LandConcat(k.server.protos[k.id], before.messages, sent);
    AgreedThen(k);
    if Mirrors(Landed(k').subscriptions, k'.client.subscriptions) {
      MirrorsOneServer(Landed(k').subscriptions, Landed(k).subscriptions, k.client.subscriptions);
    }
  }
}
