/**
 * What a client's calls come to in its session: which subscriptions they leave it with, where its SEND frames
 * go and whether the server takes them, and which receipts they ask for.
 */
module SessionSends {
  import opened Text
  import opened Decimal
  import opened StompFrame
  import opened StompCodec
  import opened CreateFrames
  import opened Events
  import opened EventPipeline
  import opened SendHeaders
  import opened Broker
  import opened ClientSession
  import opened SessionWire
  import opened SessionAgreement
  import opened SessionAftermath

  // ------------------------------------------------------------------ the client's state from its calls

  /** Nobody has called disconnect among the first `n` steps. */
  predicate Online(ls: seq<LinkStep>, n: nat)
    requires n <= |ls|
  {
    forall i | 0 <= i < n :: !ls[i].Disconnects?
  }

  /** After the first `n` steps the latest successful call for `d` is a subscription, and none was a disconnect. */
  function Wants(ls: seq<LinkStep>, n: nat, d: string): bool
    requires n <= |ls|
  {
    n > 0 &&
    match ls[n - 1]
    case Subscribes(e, sent) => (e == d && sent && Online(ls, n - 1)) || Wants(ls, n - 1, d)
    case Unsubscribes(e, sent) => !(e == d && sent) && Wants(ls, n - 1, d)
    case Disconnects => false
    case _ => Wants(ls, n - 1, d)
  }

  lemma ClientStepIs(k: Link, l: LinkStep, d: string)
    requires CanLink(k, l)
    ensures var c, c' := k.client, DoLink(k, l).client;
            match l
            case Subscribes(e, sent) =>
              && c'.isConnected == c.isConnected
              && (d in c'.subscriptions <==> d in c.subscriptions || (e == d && sent && c.isConnected))
            case Unsubscribes(e, sent) =>
              && c'.isConnected == c.isConnected
              && (d in c'.subscriptions <==> d in c.subscriptions && !(e == d && sent && c.isConnected))
            case Disconnects =>
              !c'.isConnected && (c.isConnected ==> c'.subscriptions == map[])
              && (!c.isConnected ==> c'.subscriptions == c.subscriptions)
            case _ => c'.isConnected == c.isConnected && c'.subscriptions == c.subscriptions
  {
    hide Step, CanStep, DecodeByte, CreateSubscribeFrame, CreateUnsubscribeFrame, CreateDisconnectFrame,
      CreateSendFrame, ToDecimal, FrameBytes;
  }

  /** The client's subscriptions are the ones its calls ask for; once it has disconnected there are none. */
  lemma {:induction false} ClientIsItsCalls(ks: seq<Link>, ls: seq<LinkStep>, n: nat, d: string)
    requires IsSession(ks, ls) && n <= |ls|
    ensures ks[n].client.isConnected <==> Online(ls, n)
    ensures d in ks[n].client.subscriptions <==> Wants(ls, n, d)
    ensures !Online(ls, n) ==> !Wants(ls, n, d)
  {
    hide DoLink, CanLink;
    if n > 0 {
      ClientIsItsCalls(ks, ls, n - 1, d);
      ClientStepIs(ks[n - 1], ls[n - 1], d);
    }
  }

  /**
   * With nothing in flight, a connection that is open is in the channel of a destination exactly if the
   * client's calls ask for that: the latest for it was a subscription that was sent, before any disconnect.
   */
  lemma QuietIsWanted(ks: seq<Link>, ls: seq<LinkStep>, n: nat, d: string)
    requires IsSession(ks, ls) && n <= |ls| && CleanUntil(ks, ls, n)
    requires ks[n].wire == [] && ks[n].id !in ks[n].server.closed
    ensures ks[n].id in Subscribers(ks[n].server.registry.channels, Slashed(d)) <==> Wants(ls, n, d)
  {
    hide DoLink, CanLink, Clean, Subscribers;
    ClientIsItsCalls(ks, ls, n, d);
    QuietAgreement(ks, ls, n, d);
  }

  /** A client that has disconnected hands nothing over any more. */
  lemma SilentOnceDisconnected(ks: seq<Link>, ls: seq<LinkStep>, n: nat)
    requires IsSession(ks, ls) && n < |ls| && !Online(ls, n)
    ensures HandedOver(ks[n], ls[n]) == None && ks[n + 1].client == ks[n].client
  {
    ClientIsItsCalls(ks, ls, n, "");
    SilentStep(ks[n], ls[n]);
  }

  lemma SilentStep(k: Link, l: LinkStep)
    requires CanLink(k, l) && !k.client.isConnected
    ensures HandedOver(k, l) == None && DoLink(k, l).client == k.client
  {
    hide Step, CanStep, DecodeByte;
  }

  // ------------------------------------------------------------------ the numbers a client uses

  /** The step is a call that asks for something: not refused by the client itself. */
  predicate Asks(ls: seq<LinkStep>, i: nat)
    requires i < |ls|
  {
    Online(ls, i) &&
    match ls[i]
    case Subscribes(d, _) => !Wants(ls, i, d)
    case Unsubscribes(d, _) => Wants(ls, i, d)
    case Sends(d, _, _) => Wants(ls, i, d)
    case Disconnects => true
    case _ => false
  }

  /** How many calls have asked for something, and how many of these for a subscription. */
  function Asked(ls: seq<LinkStep>, n: nat): nat
    requires n <= |ls|
  {
    if n == 0 then 0 else Asked(ls, n - 1) + if Asks(ls, n - 1) then 1 else 0
  }

  function AskedToSubscribe(ls: seq<LinkStep>, n: nat): nat
    requires n <= |ls|
  {
    if n == 0 then 0 else AskedToSubscribe(ls, n - 1) + if ls[n - 1].Subscribes? && Asks(ls, n - 1) then 1 else 0
  }

  /** The place among these of the one that `d` is subscribed by. */
  function NumberOf(ls: seq<LinkStep>, n: nat, d: string): nat
    requires n <= |ls|
  {
    if n == 0 then 0
    else if ls[n - 1].Subscribes? && ls[n - 1].destination == d && ls[n - 1].sent && Asks(ls, n - 1)
    then AskedToSubscribe(ls, n)
    else NumberOf(ls, n - 1, d)
  }

  lemma NumbersStep(k: Link, l: LinkStep, d: string)
    requires CanLink(k, l)
    ensures var c, c' := k.client, DoLink(k, l).client;
            && (l.Subscribes? && c.isConnected && l.destination !in c.subscriptions ==>
                  && c'.subscriptionID == c.subscriptionID + 1 && c'.receiptID == c.receiptID + 1
                  && (l.sent && d == l.destination ==>
                        d in c'.subscriptions && c'.subscriptions[d] == c.subscriptionID + 1)
                  && (!l.sent || d != l.destination ==> SameAt(c, c', d)))
            && (l.Subscribes? && !(c.isConnected && l.destination !in c.subscriptions) ==> c' == c)
            && (!l.Subscribes? ==>
                  c'.subscriptionID == c.subscriptionID && (d in c'.subscriptions ==> SameAt(c, c', d)))
            && (l.Unsubscribes? || l.Sends? ==>
                  c'.receiptID == c.receiptID + if c.isConnected && l.destination in c.subscriptions then 1 else 0)
            && (l.Disconnects? ==> c'.receiptID == c.receiptID + if c.isConnected then 1 else 0)
            && (l.Arrives? || l.ServerMoves? ==> c' == c)
  {
    hide Step, CanStep, DecodeByte, CreateSubscribeFrame, CreateUnsubscribeFrame, CreateDisconnectFrame,
      CreateSendFrame, ToDecimal, FrameBytes;
  }

  predicate SameAt(c: Client, c': Client, d: string)
  {
    && (d in c.subscriptions <==> d in c'.subscriptions)
    && (d in c.subscriptions ==> c.subscriptions[d] == c'.subscriptions[d])
  }

  /**
   * Numbers count up by one from where they were: receipts with every call that asks for something, subscriptions
   * with every one that asks to subscribe; a subscription has the number of the call that made it.
   */
  lemma {:induction false} NumbersCountCalls(ks: seq<Link>, ls: seq<LinkStep>, n: nat, d: string)
    requires IsSession(ks, ls) && n <= |ls|
    ensures ks[n].client.receiptID == ks[0].client.receiptID + Asked(ls, n)
    ensures ks[n].client.subscriptionID == ks[0].client.subscriptionID + AskedToSubscribe(ls, n)
    ensures d in ks[n].client.subscriptions ==>
              ks[n].client.subscriptions[d] == ks[0].client.subscriptionID + NumberOf(ls, n, d)
  {
    hide DoLink, CanLink, Online, Wants;
    if n > 0 {
      var k, l := ks[n - 1], ls[n - 1];
      NumbersCountCalls(ks, ls, n - 1, d);
      NumbersStep(k, l, d);
      if l.Subscribes? || l.Unsubscribes? || l.Sends? { ClientIsItsCalls(ks, ls, n - 1, l.destination); }
      ClientIsItsCalls(ks, ls, n - 1, d);
    }
  }

  // ------------------------------------------------------------------ where a SEND frame goes

  ghost predicate OneLineSubscriptions(c: Client) { forall d <- c.subscriptions :: OneLine(d) }

  lemma SubscribedStep(k: Link, l: LinkStep)
    requires CanLink(k, l) && Clean(k, l) && OneLineSubscriptions(k.client)
    ensures OneLineSubscriptions(DoLink(k, l).client)
  {
    hide Step, CanStep, DecodeByte, CreateSubscribeFrame, CreateUnsubscribeFrame, CreateDisconnectFrame,
      CreateSendFrame, ToDecimal, FrameBytes, ParseFrame, OneLine;
  }

  lemma {:induction false} SubscribedAreOneLine(ks: seq<Link>, ls: seq<LinkStep>, n: nat)
    requires IsSession(ks, ls) && n <= |ls| && CleanUntil(ks, ls, n)
    ensures OneLineSubscriptions(ks[n].client)
  {
    hide DoLink, CanLink, Clean, OneLineSubscriptions;
    if n == 0 {
      NoneSubscribed(ks[0].client);
    } else {
      SubscribedAreOneLine(ks, ls, n - 1);
      SubscribedStep(ks[n - 1], ls[n - 1]);
    }
  }

  lemma NoneSubscribed(c: Client)
    requires c.subscriptions == map[]
    ensures OneLineSubscriptions(c)
  {
  }

  /** What a SEND step hands over: a frame, exactly if the client is connected and has subscribed. */
  lemma SendHandsOver(k: Link, d: string, body: string)
    ensures var text := HandedOver(k, LinkStep.Sends(d, body, true));
            && (text.Some? <==> k.client.isConnected && d in k.client.subscriptions)
            && (text.Some? && OneLine(d) && ParseFrame(text.value).Ok? ==>
                  var h := ParseFrame(text.value).message.headers;
                  && ValueIn(h, "destination") == OrElse(UserHeader(body, "destination"), Some(Slashed(d)))
                  && ValueIn(h, "receipt")
                     == OrElse(UserHeader(body, "receipt"), Some(ToDecimal(k.client.receiptID + 1)))
                  && ValueIn(h, "user") == OrElse(UserHeader(body, "user"), UserLine(body)))
  {
    hide ParseFrame, CreateSendFrame, ToDecimal, UserHeader, UserLine;
    var text := HandedOver(k, LinkStep.Sends(d, body, true));
    if text.Some? && OneLine(d) && ParseFrame(text.value).Ok? {
      var r := ToDecimal(k.client.receiptID + 1);
      DecimalIsOneLine(k.client.receiptID + 1);
      SlashIsOneLine(d);
      SendFrameHeaders("/" + d, body, r, "destination");
      SendFrameHeaders("/" + d, body, r, "receipt");
      SendFrameHeaders("/" + d, body, r, "user");
    }
  }

  lemma SlashIsOneLine(d: string)
    requires OneLine(d)
    ensures OneLine("/" + d)
  {
  }

  /**
   * Where a SEND frame goes. In a session that was clean so far, the message that a step hands over has, if
   * it parses, a destination under which the server's session, with everything in flight landed, has the
   * client's own subscription, number and all, if and only if no line of the user's text in the body names
   * another destination.
   */
  lemma SendGoesToItsChannel(ks: seq<Link>, ls: seq<LinkStep>, n: nat, d: string, body: string)
    requires IsSession(ks, ls) && n < |ls| && CleanUntil(ks, ls, n) && ls[n] == LinkStep.Sends(d, body, true)
    requires HandedOver(ks[n], ls[n]).Some? && ParseFrame(HandedOver(ks[n], ls[n]).value).Ok?
    ensures ks[n].id in ks[n].server.protos && d in ks[n].client.subscriptions
    ensures var m, landed := ParseFrame(HandedOver(ks[n], ls[n]).value).message, Landed(ks[n]).subscriptions;
            && "destination" in m.headers
            && var to := m.headers["destination"];
               && (to in landed && landed[to] == ks[n].client.subscriptions[d] <==>
                     UserHeader(body, "destination") == None || UserHeader(body, "destination") == Some(Slashed(d)))
  {
    hide DoLink, CanLink, Clean, LinkInv, ParseFrame, UserHeader, HandedOver, Landed, Mirrors, Injective, UserLine;
    var k := ks[n];
    SessionInv(ks, ls, n);
    SubscribedAreOneLine(ks, ls, n);
    SendHandsOver(k, d, body);
    AgreedThen(k);
    LandedNumbers(k, d);
  }

  /** The landed subscription with the client's number for `d` is the one to its channel. */
  lemma LandedNumbers(k: Link, d: string)
    requires LinkInv(k) && d in k.client.subscriptions
    ensures k.id in k.server.protos
    ensures var landed := Landed(k).subscriptions;
            forall to :: to in landed && landed[to] == k.client.subscriptions[d] <==> to == Slashed(d)
  {
    hide InFlight, LandAll, Distinct, ParsedFrom, Slashed, NoConnect;
  }

  /** A body that names its user on one line goes where it is sent. */
  lemma OneLineUserStays(body: string, key: string)
    requires OneLine(UserOf(body))
    ensures UserHeader(body, key) == None
  {
    hide UserOf;
    SplitAllStep(UserOf(body), '\n', "");
  }

  const ELSEWHERE := "user:bob\ndestination:/e"

  /** One whose user is followed by a line that names a header gives that header its value. */
  lemma SecondLineReplaces(body: string, first: string, key: string, value: string)
    requires OneLine(first) && OneLine(key) && OneLine(value) && ':' !in key
    requires UserOf(body) == first + "\n" + HeaderLine((key, value))
    ensures UserHeader(body, key) == Some(value)
  {
    hide SplitAll, CutLine, UserOf;
    var line := HeaderLine((key, value));
    assert first + "\n" + line == first + ['\n'] + line;
    SplitAllStep(first, '\n', line);
    SplitAllStep(line, '\n', "");
    CutOfHeader(key, value);
    var lines := [first] + [line];
    assert LastValue(lines, 2, key) == None;
    assert LastValue(lines, 1, key) == Some(value);
  }

  /** Sent to whatever channel, the frame of this body is for `/e`. */
  lemma BodyRedirects()
    ensures UserHeader(ELSEWHERE, "destination") == Some("/e")
  {
    hide UserOf, UserHeader;
    UserOfElsewhere();
    SecondLineReplaces(ELSEWHERE, "bob", "destination", "/e");
  }

  lemma UserOfElsewhere()
    ensures UserOf(ELSEWHERE) == "bob\ndestination:/e"
  {
    var u := "bob\ndestination:/e";
    assert ELSEWHERE[..5] == "user:" && ELSEWHERE[5..] == u;
    assert ';' !in u;
    assert u[..|u|] == u;
  }

  // ------------------------------------------------------------------ events are accepted

  /**
   * What the client hands over for an event, on a channel it has subscribed to: a frame that parses to the
   * event's message, which the server's session, with everything in flight landed, accepts.
   */
  lemma EventIsAccepted(k: Link, username: string, channel: string, e: Event, entries: seq<Header>)
    requires LinkInv(k) && k.client.isConnected && channel in k.client.subscriptions
    requires PlainEvent(username, channel, e, entries) && username != ""
    ensures var text := HandedOver(k, LinkStep.Sends(channel, Body(username, channel, e, entries), true));
            var m := EventMessage(username, channel, e, entries, k.client.receiptID + 1);
            && text.Some? && ParseFrame(text.value) == Ok(m)
            && k.id in k.server.protos && Broker.Sends(Landed(k), m)
            && Landed(k).subscriptions[m.headers["destination"]] == k.client.subscriptions[channel]
  {
    hide ParseFrame, CreateSendFrame, ToDecimal, PlainEvent, Body, EventMessage, Landed, LinkInv, SentBody;
    AgreedThen(k);
    LandedNumbers(k, channel);
    EventReachesServer(username, channel, e, entries, k.client.receiptID + 1, Landed(k));
  }

  // ------------------------------------------------------------------ receipts

  lemma ReceiptStep(k: Link, l: LinkStep)
    requires CanLink(k, l)
    ensures DoLink(k, l).client.receiptID >= k.client.receiptID
    ensures HandedOver(k, l).Some? ==> DoLink(k, l).client.receiptID == k.client.receiptID + 1
  {
    hide Step, CanStep, DecodeByte;
  }

  lemma {:induction false} ReceiptsRise(ks: seq<Link>, ls: seq<LinkStep>, i: nat, j: nat)
    requires IsSession(ks, ls) && i <= j <= |ls|
    ensures ks[i].client.receiptID <= ks[j].client.receiptID
    decreases j
  {
    hide DoLink, CanLink;
    if i < j {
      ReceiptsRise(ks, ls, i, j - 1);
      ReceiptStep(ks[j - 1], ls[j - 1]);
    }
  }

  /** The receipt header of a frame that parses, unless a body line replaces it. */
  lemma ReceiptOf(k: Link, l: LinkStep)
    requires CanLink(k, l) && HandedOver(k, l).Some? && ParseFrame(HandedOver(k, l).value).Ok?
    requires l.Subscribes? || l.Sends? ==> OneLine(l.destination)
    requires l.Sends? ==> UserHeader(l.body, "receipt") == None
    ensures ValueIn(ParseFrame(HandedOver(k, l).value).message.headers, "receipt")
         == Some(ToDecimal(DoLink(k, l).client.receiptID))
  {
    hide ParseFrame, ToDecimal, UserHeader, UserLine, CreateSendFrame, Step, CanStep, DecodeByte, FrameBytes;
    var r := k.client.receiptID + 1;
    match l {
      case Subscribes(d, _) => SubscribeFrameParses(d, k.client.subscriptionID + 1, r);
      case Unsubscribes(d, _) => UnsubscribeFrameParses(k.client.subscriptions[d], r);
      case Disconnects => DisconnectFrameParses(r);
      case Sends(d, body, _) => SendHandsOver(k, d, body);
      case _ =>
    }
  }

  /** No two frames of a session ask for the same receipt. */
  lemma ReceiptsDiffer(ks: seq<Link>, ls: seq<LinkStep>, i: nat, j: nat)
    requires IsSession(ks, ls) && i < j < |ls| && CleanUntil(ks, ls, |ls|)
    requires HandedOver(ks[i], ls[i]).Some? && HandedOver(ks[j], ls[j]).Some?
    requires forall n | n == i || n == j :: ls[n].Sends? ==> UserHeader(ls[n].body, "receipt") == None
    ensures forall n | n == i || n == j ::
              ParseFrame(HandedOver(ks[n], ls[n]).value).Ok?
              && "receipt" in ParseFrame(HandedOver(ks[n], ls[n]).value).message.headers
    ensures ParseFrame(HandedOver(ks[i], ls[i]).value).message.headers["receipt"]
         != ParseFrame(HandedOver(ks[j], ls[j]).value).message.headers["receipt"]
  {
    hide ParseFrame, ToDecimal, UserHeader, DoLink, HandedOver;
    CleanParses(ks, ls, i);
    CleanParses(ks, ls, j);
    ReceiptOf(ks[i], ls[i]);
    ReceiptOf(ks[j], ls[j]);
    ReceiptStep(ks[j], ls[j]);
    ReceiptsRise(ks, ls, i + 1, j);
    PrintedApart(ks[i + 1].client.receiptID, ks[j + 1].client.receiptID);
  }

  /** A clean frame parses, and what it names is on one line. */
  lemma CleanParses(ks: seq<Link>, ls: seq<LinkStep>, n: nat)
    requires IsSession(ks, ls) && n < |ls| && CleanUntil(ks, ls, |ls|) && HandedOver(ks[n], ls[n]).Some?
    ensures ParseFrame(HandedOver(ks[n], ls[n]).value).Ok?
    ensures ls[n].Subscribes? || ls[n].Sends? ==> OneLine(ls[n].destination)
  {
    hide ParseFrame, ToDecimal, DoLink, CreateSendFrame, CanLink;
    var k, l := ks[n], ls[n];
    assert Clean(k, l);
    assert CleanUntil(ks, ls, n);
    SubscribedAreOneLine(ks, ls, n);
    match l {
      case Subscribes(d, _) => SubscribeFrameParses(d, k.client.subscriptionID + 1, k.client.receiptID + 1);
      case Unsubscribes(d, _) => UnsubscribeFrameParses(k.client.subscriptions[d], k.client.receiptID + 1);
      case Disconnects => DisconnectFrameParses(k.client.receiptID + 1);
      case _ =>
    }
  }
}
