/**
 * One session end to end: the client, the bytes in flight, the server's decoder for the connection, and the
 * server with all its other connections. The client's subscriptions and the server's agree, up to the frames
 * in flight, exactly as long as every frame the client hands over arrives as the frame it means.
 */
module SessionAgreement {
  import opened Text
  import opened Decimal
  import opened StompFrame
  import opened StompCodec
  import opened CreateFrames
  import opened Broker
  import opened BrokerSteps
  import opened BrokerRuns
  import opened ClientSession
  import opened SessionWire

  // ------------------------------------------------------------------ the system

  /**
   * `wire` are the bytes sent and not yet decoded, in order, `text` what the decoder of the connection
   * holds, and `frames` is history: the texts handed over whose message has not been processed yet.
   */
  datatype Link = Link(
    client: Client,
    wire: seq<Byte>,
    text: string,
    frames: seq<string>,
    server: Server,
    id: Id)

  datatype LinkStep =
    | Subscribes(destination: string, sent: bool)
    | Unsubscribes(destination: string, sent: bool)
    | Sends(destination: string, body: string, sent: bool)
    | Disconnects
    | Arrives(pick: string, lost: nat)   // one byte is decoded; an exception costs the rest of the bytes read with it
    | ServerMoves(step: ServerStep)      // anything else the server does

  /** What a client operation does, and whether the connection takes its frame. */
  function OutcomeOf(k: Link, l: LinkStep): (Outcome, bool)
  {
    match l
    case Subscribes(d, sent) => (SubscribeToTopic(k.client, d, sent), sent)
    case Unsubscribes(d, sent) => (UnsubscribeFromTopic(k.client, d, sent), sent)
    case Sends(d, body, sent) => (SendMessage(k.client, d, body), sent)
    case Disconnects => (DisconnectFromServer(k.client), true)
    case _ => (Outcome(k.client, None), false)
  }

  /** The frame text a step puts on the wire, if any. */
  function HandedOver(k: Link, l: LinkStep): Option<string>
  {
    var (o, sent) := OutcomeOf(k, l);
    if sent then o.frame else None
  }

  ghost predicate CanLink(k: Link, l: LinkStep)
  {
    match l
    case Subscribes(d, _) => Ascii(d) && k.client.subscriptionID < MAX_INT
    case Sends(d, body, _) => Ascii(d) && Ascii(body)
    case Arrives(pick, lost) =>
      && lost < |k.wire|
      && (match DecodeByte(k.text, k.wire[0])
          case (_, Message(m)) => CanStep(k.server, Frame(k.id, m, pick))
          case _ => true)
    case ServerMoves(step) => CanStep(k.server, step) && (step.Frame? ==> step.id != k.id)
    case _ => true
  }

  ghost function DoLink(k: Link, l: LinkStep): Link
    requires CanLink(k, l)
  {
    match l
    case Arrives(pick, lost) => DoArrive(k, pick, lost)
    case ServerMoves(step) => k.(server := Step(k.server, step))
    case _ => DoClient(k, OutcomeOf(k, l).0.client, HandedOver(k, l))
  }

  function DoClient(k: Link, client: Client, frame: Option<string>): Link
  {
    match frame
    case None => k.(client := client)
    case Some(text) => k.(client := client, wire := k.wire + FrameBytes(text), frames := k.frames + [text])
  }

  /** A frame that throws stays in the decoder, and the rest of the buffer it was read with is gone. */
  ghost function DoArrive(k: Link, pick: string, lost: nat): Link
    requires CanLink(k, Arrives(pick, lost))
  {
    match DecodeByte(k.text, k.wire[0])
    case (text, NoMessage) => k.(text := text, wire := k.wire[1..])
    case (text, Message(m)) =>
      k.(text := text, wire := k.wire[1..], frames := if k.frames == [] then [] else k.frames[1..],
         server := Step(k.server, Frame(k.id, m, pick)))
    case (text, Threw) => k.(text := text, wire := k.wire[1 + lost..])
  }

  // ------------------------------------------------------------------ agreement

  /** What the decoder will have made of the bytes in flight. */
  function InFlight(k: Link): Decoding { DecodeFrom(Decoding(k.text, [], true), k.wire) }

  /** The client's subscriptions as the server spells them. */
  ghost predicate Mirrors(subscriptions: map<string, int>, client: map<string, int>)
  {
    && (forall d <- client :: Slashed(d) in subscriptions && subscriptions[Slashed(d)] == client[d])
    && (forall s <- subscriptions :: SlashOf(s, client))
  }

  ghost predicate SlashOf(s: string, client: map<string, int>) { exists d :: d in client && s == Slashed(d) }

  ghost predicate Agrees(p: Proto, c: Client)
  {
    Mirrors(p.subscriptions, c.subscriptions) && p.isConnected == c.isConnected
  }

  /**
   * The two sides agree: the bytes in flight are the frames handed over, each of which will arrive as one
   * message, and once they have landed the server's session has exactly the client's subscriptions.
   */
  ghost predicate InSync(k: Link)
  {
    var d := InFlight(k);
    && d.ok && d.buffer == "" && ParsedFrom(d.messages, k.frames)
    && k.id in k.server.protos && Agrees(LandAll(k.server.protos[k.id], d.messages), k.client)
  }

  /**
   * The frame a step hands over is what it is meant to be: a destination on one line and without NUL, a
   * SEND frame that parses and has no NUL.
   */
  ghost predicate Clean(k: Link, l: LinkStep)
  {
    match l
    case Subscribes(d, _) => HandedOver(k, l).Some? ==> OneLine(d) && '\0' !in d
    case Sends(_, _, _) =>
      HandedOver(k, l).Some? ==> ParseFrame(HandedOver(k, l).value).Ok? && '\0' !in HandedOver(k, l).value
    case _ => true
  }

  ghost predicate Numbers(c: Client)
  {
    && 0 <= c.subscriptionID <= MAX_INT && Injective(c.subscriptions)
    && forall d <- c.subscriptions :: 0 < c.subscriptions[d] <= c.subscriptionID
  }

  /** At every point of the frames in flight no two subscriptions have the same number. */
  ghost predicate Distinct(p: Proto, ms: seq<StompMessage>)
    decreases |ms|
  {
    Injective(p.subscriptions) && (ms != [] ==> Distinct(Land(p, ms[0]), ms[1..]))
  }

  ghost predicate NoConnect(ms: seq<StompMessage>) { forall i | 0 <= i < |ms| :: ms[i].command != "CONNECT" }

  ghost predicate LinkInv(k: Link)
  {
    && InSync(k) && Numbers(k.client) && k.id < k.server.nextId
    && NoConnect(InFlight(k).messages) && Distinct(k.server.protos[k.id], InFlight(k).messages)
  }

  // ------------------------------------------------------------------ mirrored maps

  lemma MirrorInjective(subscriptions: map<string, int>, client: map<string, int>)
    requires Mirrors(subscriptions, client) && Injective(client)
    ensures Injective(subscriptions)
  {
  }

  lemma NotMirrored(subscriptions: map<string, int>, client: map<string, int>, d: string)
    requires Mirrors(subscriptions, client)
    ensures Slashed(d) in subscriptions <==> d in client
  {
    if Slashed(d) in subscriptions {
      var e :| e in client && Slashed(d) == Slashed(e);
      SlashedInjective(d, e);
    }
  }

  lemma MirrorAdd(subscriptions: map<string, int>, client: map<string, int>, d: string, n: int)
    requires Mirrors(subscriptions, client)
    ensures Mirrors(subscriptions[Slashed(d) := n], client[d := n])
  {
    hide Slashed;
    forall e | e in client[d := n]
      ensures Slashed(e) in subscriptions[Slashed(d) := n]
           && subscriptions[Slashed(d) := n][Slashed(e)] == client[d := n][e] {
      SlashedInjective(d, e);
    }
    var after := subscriptions[Slashed(d) := n];
    forall s | s in after ensures SlashOf(s, client[d := n]) {
      if s != Slashed(d) {
        var e :| e in client && s == Slashed(e);
        assert e in client[d := n];
      } else {
        assert d in client[d := n];
      }
    }
  }

  lemma MirrorRemove(subscriptions: map<string, int>, client: map<string, int>, d: string)
    requires Mirrors(subscriptions, client)
    ensures Mirrors(subscriptions - {Slashed(d)}, client - {d})
  {
    hide Slashed;
    forall e | e in client - {d}
      ensures Slashed(e) in subscriptions - {Slashed(d)}
           && (subscriptions - {Slashed(d)})[Slashed(e)] == (client - {d})[e] {
      SlashedInjective(d, e);
    }
    forall s | s in subscriptions - {Slashed(d)} ensures SlashOf(s, client - {d}) {
      var e :| e in client && s == Slashed(e);
      assert e in client - {d};
    }
  }

  // ------------------------------------------------------------------ the client hands over a frame

  lemma {:induction false} DistinctMore(p: Proto, ms: seq<StompMessage>, m: StompMessage)
    requires Distinct(p, ms) && Injective(LandAll(p, ms + [m]).subscriptions)
    ensures Distinct(p, ms + [m])
    decreases |ms|
  {
    hide Land, Injective;
    if ms == [] {
      assert (ms + [m])[1..] == [];
    } else {
      assert (ms + [m])[1..] == ms[1..] + [m];
      DistinctMore(Land(p, ms[0]), ms[1..], m);
    }
  }

  /** What is in flight after one more frame text. */
  lemma MoreInFlight(k: Link, client: Client, text: string)
    ensures InFlight(DoClient(k, client, Some(text))) == DecodeFrom(InFlight(k), FrameBytes(text))
  {
    hide DecodeFrom, FrameBytes;
    DecodeConcat(Decoding(k.text, [], true), k.wire, FrameBytes(text));
  }

  /** A frame that arrives as itself and lands as the client means it keeps everything. */
  lemma HandsOver(k: Link, c: Client, text: string, q: Proto)
    requires LinkInv(k) && Numbers(c) && Ascii(text) && '\0' !in text
    requires ParseFrame(text).Ok? && ParseFrame(text).message.command != "CONNECT"
    requires q == Land(LandAll(k.server.protos[k.id], InFlight(k).messages), ParseFrame(text).message) && Agrees(q, c)
    ensures LinkInv(DoClient(k, c, Some(text)))
  {
    hide Land, Mirrors, ParseFrame, InFlight, Ascii, FrameBytes;
    var p, ms, m := k.server.protos[k.id], InFlight(k).messages, ParseFrame(text).message;
    MoreInFlight(k, c, text);
    ArrivesIff(InFlight(k), text);
    LandMore(p, ms, m);
    MirrorInjective(q.subscriptions, c.subscriptions);
    DistinctMore(p, ms, m);
  }

  lemma NothingHandedOver(k: Link, c: Client)
    requires LinkInv(k) && Numbers(c) && c.subscriptions == k.client.subscriptions
    requires c.isConnected == k.client.isConnected
    ensures LinkInv(DoClient(k, c, None))
  {
    hide Mirrors, DecodeFrom, Distinct, LandAll, Injective;
  }

  lemma SubscribeNumbers(c: Client, d: string, sent: bool)
    requires Numbers(c) && c.subscriptionID < MAX_INT
    ensures Numbers(SubscribeToTopic(c, d, sent).client) && IsInt(c.subscriptionID + 1)
  {
    hide CreateSubscribeFrame, ToDecimal;
  }

  lemma SubscribesKeeps(k: Link, d: string, sent: bool)
    requires LinkInv(k) && CanLink(k, Subscribes(d, sent)) && Clean(k, Subscribes(d, sent))
    ensures LinkInv(DoLink(k, Subscribes(d, sent)))
  {
    hide Land, ParseFrame, CreateSubscribeFrame, ToDecimal, Distinct, InFlight, LandAll, Ascii, Mirrors, NoConnect,
      ParsedFrom, Numbers;
    var o := SubscribeToTopic(k.client, d, sent);
    SubscribeNumbers(k.client, d, sent);
    if sent && o.frame.Some? {
      var q := LandAll(k.server.protos[k.id], InFlight(k).messages);
      var n, r := k.client.subscriptionID + 1, k.client.receiptID + 1;
      NotMirrored(q.subscriptions, k.client.subscriptions, d);
      LandSubscribe(q, d, n, r);
      SubscribeText(d, n, r);
      MirrorAdd(q.subscriptions, k.client.subscriptions, d, n);
      HandsOver(k, o.client, o.frame.value, q.(subscriptions := q.subscriptions[Slashed(d) := n]));
    } else {
      NothingHandedOver(k, o.client);
    }
  }

  lemma UnsubscribesKeeps(k: Link, d: string, sent: bool)
    requires LinkInv(k)
    ensures LinkInv(DoLink(k, Unsubscribes(d, sent)))
  {
    hide Land, ParseFrame, CreateUnsubscribeFrame, ToDecimal, Distinct, InFlight, LandAll, Ascii;
    var o := UnsubscribeFromTopic(k.client, d, sent);
    assert Numbers(o.client);
    if sent && o.frame.Some? {
      var q := LandAll(k.server.protos[k.id], InFlight(k).messages);
      var n, r := k.client.subscriptions[d], k.client.receiptID + 1;
      MirrorInjective(q.subscriptions, k.client.subscriptions);
      LandUnsubscribe(q, Slashed(d), n, r);
      UnsubscribeText(n, r);
      MirrorRemove(q.subscriptions, k.client.subscriptions, d);
      HandsOver(k, o.client, o.frame.value, q.(subscriptions := q.subscriptions - {Slashed(d)}));
    } else {
      NothingHandedOver(k, o.client);
    }
  }

  lemma SendsKeeps(k: Link, d: string, body: string, sent: bool)
    requires LinkInv(k) && CanLink(k, Sends(d, body, sent)) && Clean(k, Sends(d, body, sent))
    ensures LinkInv(DoLink(k, Sends(d, body, sent)))
  {
    hide Land, ParseFrame, CreateSendFrame, ToDecimal, Distinct, InFlight, LandAll, Ascii;
    var o := SendMessage(k.client, d, body);
    if sent && o.frame.Some? {
      var q := LandAll(k.server.protos[k.id], InFlight(k).messages);
      SendIsSend("/" + d, body, ToDecimal(k.client.receiptID + 1));
      LandSend(q, ParseFrame(o.frame.value).message);
      SendsAscii(d, body, k.client.receiptID + 1);
      HandsOver(k, o.client, o.frame.value, q);
    } else {
      NothingHandedOver(k, o.client);
    }
  }

  lemma SendsAscii(d: string, body: string, r: int)
    requires Ascii(d) && Ascii(body)
    ensures Ascii(CreateSendFrame("/" + d, body, ToDecimal(r)))
  {
    hide Ascii, CreateSendFrame, ToDecimal;
    SaneMarks();
    SaneIsAscii("/", false);
    Characters("/", d);
    SendText("/" + d, body, r);
  }

  lemma DisconnectsKeeps(k: Link)
    requires LinkInv(k)
    ensures LinkInv(DoLink(k, Disconnects))
  {
    hide Land, ParseFrame, CreateDisconnectFrame, ToDecimal, Distinct, InFlight, LandAll, Ascii;
    var o := DisconnectFromServer(k.client);
    if o.frame.Some? {
      LandDisconnect(LandAll(k.server.protos[k.id], InFlight(k).messages), k.client.receiptID + 1);
      DisconnectText(k.client.receiptID + 1);
      HandsOver(k, o.client, o.frame.value, Proto(false, true, map[]));
    } else {
      NothingHandedOver(k, o.client);
    }
  }

  // ------------------------------------------------------------------ the server decodes and processes

  lemma FirstByte(text: string, wire: seq<Byte>)
    requires wire != []
    ensures var after := DecodeFrom(Decoding(text, [], true), wire);
            match DecodeByte(text, wire[0])
            case (t, NoMessage) => after == DecodeFrom(Decoding(t, [], true), wire[1..])
            case (t, Message(m)) =>
              var rest := DecodeFrom(Decoding(t, [], true), wire[1..]);
              after == rest.(messages := [m] + rest.messages)
            case (t, Threw) => !after.ok
  {
    hide ParseFrame;
    var d := Decoding(text, [], true);
    match DecodeByte(text, wire[0])
    case (_, NoMessage) =>
    case (t, Message(m)) =>
      assert Advance(d, wire[0]) == Decoding(t, [m] + [], true);
      DecodeShift(Decoding(t, [], true), [m], wire[1..]);
    case (_, Threw) => DecodeExtends(Advance(d, wire[0]), wire[1..]);
  }

  lemma ArrivesKeeps(k: Link, pick: string, lost: nat)
    requires LinkInv(k) && CanLink(k, Arrives(pick, lost))
    ensures LinkInv(DoLink(k, Arrives(pick, lost)))
  {
    hide ParseFrame, DecodeFrom, DecodeByte, Numbers, Agrees, Injective, Land, Process, CanPick, Disconnect;
    FirstByte(k.text, k.wire);
    match DecodeByte(k.text, k.wire[0]) {
      case (_, NoMessage) =>
      case (text, Message(m)) => MessageKeeps(k, text, m, pick, lost);
      case (_, Threw) => assert false;
    }
  }

  lemma RestParsed(ms: seq<StompMessage>, texts: seq<string>)
    requires ParsedFrom(ms, texts) && ms != []
    ensures texts != [] && ParsedFrom(ms[1..], texts[1..])
  {
    hide ParseFrame;
  }

  lemma MessageKeeps(k: Link, text: string, m: StompMessage, pick: string, lost: nat)
    requires LinkInv(k) && CanLink(k, Arrives(pick, lost)) && DecodeByte(k.text, k.wire[0]) == (text, Message(m))
    requires InFlight(k).messages
          == [m] + DecodeFrom(Decoding(text, [], true), k.wire[1..]).messages
    requires InFlight(k).ok == DecodeFrom(Decoding(text, [], true), k.wire[1..]).ok
    requires InFlight(k).buffer == DecodeFrom(Decoding(text, [], true), k.wire[1..]).buffer
    ensures LinkInv(DoArrive(k, pick, lost))
  {
    hide ParsedFrom, DecodeFrom, DecodeByte, Numbers, Agrees, Injective, Land, Process, CanPick, Disconnect;
    var p, ms := k.server.protos[k.id], InFlight(k).messages;
    assert ms[1..] == DecodeFrom(Decoding(text, [], true), k.wire[1..]).messages && ms[0] == m;
    RestParsed(ms, k.frames);
    ProcessIsLocal(SessionOf(k.server, k.id), k.id, m, pick);
    LandsAsProcessed(k, m, pick);
    assert NoConnect(ms[1..]);
  }

  lemma LandsAsProcessed(k: Link, m: StompMessage, pick: string)
    requires CanStep(k.server, Frame(k.id, m, pick)) && m.command != "CONNECT"
    requires Injective(k.server.protos[k.id].subscriptions)
    ensures var s' := Step(k.server, Frame(k.id, m, pick));
            k.id in s'.protos && s'.protos[k.id] == Land(k.server.protos[k.id], m) && s'.nextId == k.server.nextId
  {
    hide Process, CanPick, Disconnect, Injective, Picked;
    ProcessIsLocal(SessionOf(k.server, k.id), k.id, m, pick);
  }

  lemma ServerMovesKeeps(k: Link, step: ServerStep)
    requires LinkInv(k) && CanLink(k, ServerMoves(step))
    ensures LinkInv(DoLink(k, ServerMoves(step)))
  {
    hide Process, CanPick, Numbers, Agrees, Injective, Distinct, LandAll, NoConnect, Disconnect, DecodeFrom, ParsedFrom;
  }

  lemma LinkStepKeepsInv(k: Link, l: LinkStep)
    requires LinkInv(k) && CanLink(k, l) && Clean(k, l)
    ensures LinkInv(DoLink(k, l))
  {
    hide LinkInv, DoLink;
    match l {
      case Subscribes(d, sent) => SubscribesKeeps(k, d, sent);
      case Unsubscribes(d, sent) => UnsubscribesKeeps(k, d, sent);
      case Sends(d, body, sent) => SendsKeeps(k, d, body, sent);
      case Disconnects => DisconnectsKeeps(k);
      case Arrives(pick, lost) => ArrivesKeeps(k, pick, lost);
      case ServerMoves(step) => ServerMovesKeeps(k, step);
    }
  }

  // ------------------------------------------------------------------ exactly when the agreement survives

  /** A text that does not arrive as itself leaves no agreement. */
  lemma NotItself(k: Link, c: Client, text: string)
    requires LinkInv(k) && Ascii(text) && !(ParseFrame(text).Ok? && '\0' !in text)
    ensures !InSync(DoClient(k, c, Some(text)))
  {
    hide ParseFrame, InFlight, Ascii, FrameBytes, LandAll, Agrees, Mirrors;
    MoreInFlight(k, c, text);
    ArrivesIff(InFlight(k), text);
  }

  /** A SUBSCRIBE text that arrives, but whose destination is not on one line, is a subscription to something else. */
  lemma SubscribesToElsewhere(k: Link, d: string)
    requires LinkInv(k) && CanLink(k, Subscribes(d, true)) && HandedOver(k, Subscribes(d, true)).Some?
    requires !OneLine(d)
    ensures !InSync(DoLink(k, Subscribes(d, true)))
  {
    hide ParseFrame, InFlight, Ascii, FrameBytes, LandAll, Land, Distinct, ToDecimal, CreateSubscribeFrame, SlashOf;
    var o := SubscribeToTopic(k.client, d, true);
    var text := o.frame.value;
    var q := LandAll(k.server.protos[k.id], InFlight(k).messages);
    SubscribeText(d, k.client.subscriptionID + 1, k.client.receiptID + 1);
    if ParseFrame(text).Ok? && '\0' !in text {
      MoreInFlight(k, o.client, text);
      ArrivesIff(InFlight(k), text);
      LandMore(k.server.protos[k.id], InFlight(k).messages, ParseFrame(text).message);
      NotMirrored(q.subscriptions, k.client.subscriptions, d);
      assert d in o.client.subscriptions;
      NotSubscribed(q, text, d);
    } else {
      NotItself(k, o.client, text);
    }
  }

  lemma NotSubscribed(q: Proto, text: string, d: string)
    requires ParseFrame(text).Ok? && !OneLine(d) && Slashed(d) !in q.subscriptions
    ensures Slashed(d) !in Land(q, ParseFrame(text).message).subscriptions
  {
    hide ParseFrame, Land;
    NewlineAfterSlash(d);
    if Slashed(d) in Land(q, ParseFrame(text).message).subscriptions {
      LandedIsOneLine(q, text, Slashed(d));
    }
  }

  /**
   * The agreement survives a step if and only if the step is clean: a SUBSCRIBE needs a destination on one
   * line and without NUL, a SEND a frame that parses and has no NUL, everything else always keeps it.
   */
  lemma AgreementSurvivesIff(k: Link, l: LinkStep)
    requires LinkInv(k) && CanLink(k, l)
    ensures InSync(DoLink(k, l)) <==> Clean(k, l)
  {
    hide InSync, DoLink, Numbers, NoConnect, Distinct, ParseFrame, Ascii, InFlight;
    if Clean(k, l) {
      LinkStepKeepsInv(k, l);
    } else {
      match l {
        case Subscribes(d, sent) => UncleanSubscribe(k, d);
        case Sends(d, body, sent) => UncleanSend(k, d, body);
        case _ =>
      }
    }
  }

  lemma UncleanSubscribe(k: Link, d: string)
    requires LinkInv(k) && CanLink(k, Subscribes(d, true)) && !Clean(k, Subscribes(d, true))
    ensures !InSync(DoLink(k, Subscribes(d, true)))
  {
    hide InSync, LinkInv, ParseFrame, Ascii, InFlight, ToDecimal, CreateSubscribeFrame;
    if !OneLine(d) {
      SubscribesToElsewhere(k, d);
    } else {
      var o := SubscribeToTopic(k.client, d, true);
      SubscribeText(d, k.client.subscriptionID + 1, k.client.receiptID + 1);
      NotItself(k, o.client, o.frame.value);
    }
  }

  lemma UncleanSend(k: Link, d: string, body: string)
    requires LinkInv(k) && CanLink(k, Sends(d, body, true)) && !Clean(k, Sends(d, body, true))
    ensures !InSync(DoLink(k, Sends(d, body, true)))
  {
    hide InSync, LinkInv, ParseFrame, Ascii, InFlight, ToDecimal, CreateSendFrame;
    var o := SendMessage(k.client, d, body);
    SendsAscii(d, body, k.client.receiptID + 1);
    NotItself(k, o.client, o.frame.value);
  }

  /** For a new destination the agreement survives its SUBSCRIBE if and only if it is one line without NUL. */
  lemma SubscribeAgreesIff(k: Link, d: string)
    requires LinkInv(k) && CanLink(k, Subscribes(d, true))
    requires k.client.isConnected && d !in k.client.subscriptions
    ensures InSync(DoLink(k, Subscribes(d, true))) <==> OneLine(d) && '\0' !in d
  {
    hide InSync, LinkInv, DoLink, ToDecimal, CreateSubscribeFrame;
    AgreementSurvivesIff(k, Subscribes(d, true));
  }

  // ------------------------------------------------------------------ whole sessions

  /** The session once both sides know that the client is connected. */
  ghost predicate Opened(k: Link)
  {
    && k.client.isConnected && k.client.subscriptions == map[] && 0 <= k.client.subscriptionID <= MAX_INT
    && k.wire == [] && k.text == "" && k.frames == [] && ServerInv(k.server)
    && k.id in k.server.protos && k.server.protos[k.id] == Proto(true, false, map[])
  }

  ghost predicate IsSession(ks: seq<Link>, ls: seq<LinkStep>)
  {
    && |ks| == |ls| + 1 && Opened(ks[0])
    && (forall i | 0 <= i < |ls| :: CanLink(ks[i], ls[i]) && ks[i + 1] == DoLink(ks[i], ls[i]))
  }

  /** Every frame handed over before time `n` is what it is meant to be. */
  ghost predicate CleanUntil(ks: seq<Link>, ls: seq<LinkStep>, n: nat)
    requires IsSession(ks, ls) && n <= |ls|
  {
    forall i | 0 <= i < n :: Clean(ks[i], ls[i])
  }

  lemma OpenedInv(k: Link)
    requires Opened(k)
    ensures LinkInv(k)
  {
    hide ChannelsInv, LoginInv;
  }

  lemma ServerSteps(k: Link, l: LinkStep)
    requires CanLink(k, l) && ServerInv(k.server)
    ensures ServerInv(DoLink(k, l).server) && DoLink(k, l).id == k.id
  {
    hide ServerInv, Step, DecodeByte, CanStep;
    match l {
      case Arrives(pick, lost) =>
        match DecodeByte(k.text, k.wire[0]) {
          case (_, Message(m)) => ServerStepKeepsInv(k.server, Frame(k.id, m, pick));
          case _ =>
        }
      case ServerMoves(step) => ServerStepKeepsInv(k.server, step);
      case _ =>
    }
  }

  lemma {:induction false} SessionInv(ks: seq<Link>, ls: seq<LinkStep>, i: nat)
    requires IsSession(ks, ls) && i < |ks| && CleanUntil(ks, ls, i)
    ensures LinkInv(ks[i])
  {
    hide LinkInv, ServerInv, CanLink, DoLink, Clean;
    if i == 0 {
      OpenedInv(ks[0]);
    } else {
      SessionInv(ks, ls, i - 1);
      LinkStepKeepsInv(ks[i - 1], ls[i - 1]);
    }
  }

  lemma {:induction false} SessionServer(ks: seq<Link>, ls: seq<LinkStep>, i: nat)
    requires IsSession(ks, ls) && i < |ks|
    ensures ServerInv(ks[i].server) && ks[i].id == ks[0].id
  {
    hide ServerInv, CanLink, DoLink;
    if i > 0 {
      SessionServer(ks, ls, i - 1);
      ServerSteps(ks[i - 1], ls[i - 1]);
    }
  }

  /**
   * Distributed agreement: at any time of a session, whatever the other connections do, the bytes in
   * flight decode to the frames handed over, one message each, and letting these land turns the server's
   * subscriptions into exactly the client's, each destination with a slash in front; and no two of them
   * ever have the same number.
   */
  lemma DistributedAgreement(ks: seq<Link>, ls: seq<LinkStep>, i: nat)
    requires IsSession(ks, ls) && i < |ks| && CleanUntil(ks, ls, i)
    ensures ks[i].id in ks[i].server.protos
    ensures var d := InFlight(ks[i]);
            var landed := LandAll(ks[i].server.protos[ks[i].id], d.messages);
            && d.ok && ParsedFrom(d.messages, ks[i].frames)
            && Mirrors(landed.subscriptions, ks[i].client.subscriptions)
            && landed.isConnected == ks[i].client.isConnected
            && Injective(ks[i].server.protos[ks[i].id].subscriptions)
  {
    hide ServerInv, Mirrors, Injective, InFlight, LandAll;
    SessionInv(ks, ls, i);
  }

  /** And the first frame that is not clean ends it: in a session that was clean so far, exactly that does. */
  lemma FirstUncleanFrameEndsIt(ks: seq<Link>, ls: seq<LinkStep>, i: nat)
    requires IsSession(ks, ls) && i < |ls| && CleanUntil(ks, ls, i)
    ensures InSync(ks[i + 1]) <==> Clean(ks[i], ls[i])
  {
    hide LinkInv, InSync, Clean, DoLink, CanLink;
    SessionInv(ks, ls, i);
    AgreementSurvivesIff(ks[i], ls[i]);
  }

  /**
   * When nothing is in flight, the connection is in the channel of a destination exactly when the
   * client thinks it is subscribed to it.
   */
  lemma QuietAgreement(ks: seq<Link>, ls: seq<LinkStep>, i: nat, d: string)
    requires IsSession(ks, ls) && i < |ks| && CleanUntil(ks, ls, i)
    requires ks[i].wire == [] && ks[i].id !in ks[i].server.closed
    ensures ks[i].id in Subscribers(ks[i].server.registry.channels, Slashed(d)) <==> d in ks[i].client.subscriptions
  {
    hide Mirrors, Injective, RosterInv, LoginInv, NoRepeats, Subscribers;
    SessionInv(ks, ls, i);
    SessionServer(ks, ls, i);
    var k := ks[i];
    assert InFlight(k).messages == [];
    NotMirrored(k.server.protos[k.id].subscriptions, k.client.subscriptions, d);
    assert MemberInv(k.server, k.id, Slashed(d));
  }

  // ------------------------------------------------------------------ where the agreement ends

  lemma NewlineAfterSlash(d: string)
    requires '\n' in d
    ensures '\n' in Slashed(d)
  {
    var i :| 0 <= i < |d| && d[i] == '\n';
    assert Slashed(d)[i + 1] == '\n';
  }

  /** A subscription that a frame adds has no newline in it, for the headers of a frame have none. */
  lemma LandedIsOneLine(p: Proto, text: string, s: string)
    requires ParseFrame(text).Ok? && s !in p.subscriptions
    requires s in Land(p, ParseFrame(text).message).subscriptions
    ensures OneLine(s)
  {
    hide Process, ParseHeaders, CanPick, Picked, JavaSplit;
    var m := ParseFrame(text).message;
    SomePick(p, m);
    ProcessMoves(Session(NO_REGISTRY, p, 0), 0, m, Picked(p, m));
    HeadersAreOneLine(text, m);
    assert s == SubscribeDestination(m);
  }

  lemma HeadersAreOneLine(text: string, m: StompMessage)
    requires ParseFrame(text) == Ok(m)
    ensures forall key <- m.headers :: OneLine(m.headers[key])
  {
    hide BodyFrom;
    PiecesHaveNoSeparator(text, '\n');
    ParsedHeadersAreCanonical(JavaSplit(text, '\n'), 1, map[]);
  }

  /** A DISCONNECT frame that is lost: the client forgets its subscriptions, the server keeps them. */
  lemma LostDisconnectDisagrees(p: Proto, c: Client)
    requires Agrees(p, c) && c.isConnected
    ensures Mirrors(p.subscriptions, DisconnectFromServer(c).client.subscriptions) <==> c.subscriptions == map[]
  {
    if c.subscriptions != map[] {
      var d :| d in c.subscriptions;
      assert Slashed(d) in p.subscriptions;
    }
  }
}
