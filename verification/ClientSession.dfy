/**
 * The client half of a session: the operations of StompProtocol on its subscriptions, and what the frames
 * they send do to the server's session.
 */
module ClientSession {
  import opened Text
  import opened Decimal
  import opened StompFrame
  import opened CreateFrames
  import opened Broker
  import opened BrokerSteps

  // ------------------------------------------------------------------ the client

  datatype Client = Client(isConnected: bool, subscriptions: map<string, int>, subscriptionID: int, receiptID: int)

  /** What an operation does: the new state, and the frame it handed to the connection, if any. */
  datatype Outcome = Outcome(client: Client, frame: Option<string>)

  /** `sent` tells whether the connection took the frame. */
  function SubscribeToTopic(c: Client, destination: string, sent: bool): Outcome
  {
    if !c.isConnected || destination in c.subscriptions then Outcome(c, None) else
    var n, r := c.subscriptionID + 1, c.receiptID + 1;
    var c' := c.(subscriptionID := n, receiptID := r);
    Outcome(if sent then c'.(subscriptions := c.subscriptions[destination := n]) else c',
            Some(CreateSubscribeFrame(destination, ToDecimal(n), ToDecimal(r))))
  }

  function UnsubscribeFromTopic(c: Client, destination: string, sent: bool): Outcome
  {
    if !c.isConnected || destination !in c.subscriptions then Outcome(c, None) else
    var r := c.receiptID + 1;
    var c' := c.(receiptID := r);
    Outcome(if sent then c'.(subscriptions := c.subscriptions - {destination}) else c',
            Some(CreateUnsubscribeFrame(ToDecimal(c.subscriptions[destination]), ToDecimal(r))))
  }

  function DisconnectFromServer(c: Client): Outcome
  {
    if !c.isConnected then Outcome(c, None) else
    var r := c.receiptID + 1;
    Outcome(Client(false, map[], c.subscriptionID, r), Some(CreateDisconnectFrame(ToDecimal(r))))
  }

  /** `sendMessage`; the SEND frame names the destination with the server's leading slash. */
  function SendMessage(c: Client, destination: string, body: string): Outcome
  {
    if !c.isConnected || destination !in c.subscriptions then Outcome(c, None) else
    var r := c.receiptID + 1;
    Outcome(c.(receiptID := r), Some(CreateSendFrame("/" + destination, body, ToDecimal(r))))
  }

  /** The object. Each operation returns the frame it hands to the connection, which takes it or not. */
  class StompProtocol {
    var isConnected: bool
    var subscriptions: map<string, int>
    var subscriptionID: int
    var receiptID: int

    constructor ()
      ensures View() == Client(false, map[], 0, 0)
    {
      isConnected, subscriptions, subscriptionID, receiptID := false, map[], 0, 0;
    }

    function View(): Client
      reads this
    {
      Client(isConnected, subscriptions, subscriptionID, receiptID)
    }

    method Subscribe(destination: string, sent: bool) returns (frame: Option<string>)
      modifies this
      ensures Outcome(View(), frame) == SubscribeToTopic(old(View()), destination, sent)
    {
      if !isConnected {
        return None;
      }
      if destination in subscriptions {
        return None;
      }
      subscriptionID := subscriptionID + 1;
      var subscriptionId := ToDecimal(subscriptionID);
      receiptID := receiptID + 1;
      frame := Some(CreateSubscribeFrame(destination, subscriptionId, ToDecimal(receiptID)));
      if sent {
        subscriptions := subscriptions[destination := subscriptionID];
      }
    }

    method Unsubscribe(destination: string, sent: bool) returns (frame: Option<string>)
      modifies this
      ensures Outcome(View(), frame) == UnsubscribeFromTopic(old(View()), destination, sent)
    {
      if !isConnected {
        return None;
      }
      if destination !in subscriptions {
        return None;
      }
      var subscriptionId := ToDecimal(subscriptions[destination]);
      receiptID := receiptID + 1;
      frame := Some(CreateUnsubscribeFrame(subscriptionId, ToDecimal(receiptID)));
      if sent {
        subscriptions := subscriptions - {destination};
      }
    }

    method Disconnect() returns (frame: Option<string>)
      modifies this
      ensures Outcome(View(), frame) == DisconnectFromServer(old(View()))
    {
      if !isConnected {
        return None;
      }
      receiptID := receiptID + 1;
      frame := Some(CreateDisconnectFrame(ToDecimal(receiptID)));
      isConnected := false;
      subscriptions := map[];
    }

    method Send(destination: string, messageBody: string) returns (frame: Option<string>)
      modifies this
      ensures Outcome(View(), frame) == SendMessage(old(View()), destination, messageBody)
    {
      if !isConnected {
        return None;
      }
      if destination !in subscriptions {
        return None;
      }
      receiptID := receiptID + 1;
      return Some(CreateSendFrame("/" + destination, messageBody, ToDecimal(receiptID)));
    }
  }

  // ------------------------------------------------------------------ a frame landing in the server's session

  ghost predicate Injective(subscriptions: map<string, int>)
  {
    forall d, e | d in subscriptions && e in subscriptions && subscriptions[d] == subscriptions[e] :: d == e
  }

  /** The destination an UNSUBSCRIBE frame removes; there is only one choice when the numbers differ. */
  ghost function Picked(p: Proto, m: StompMessage): string
  {
    if exists pick :: CanPick(p, m, pick) then var pick :| CanPick(p, m, pick); pick else ""
  }

  const NO_REGISTRY := Registry({}, map[], map[], map[], map[])

  /** The session after one frame, in a server with nothing else in it. */
  ghost function Land(p: Proto, m: StompMessage): Proto
  {
    Process(Session(NO_REGISTRY, p, 0), 0, m, Picked(p, m)).proto
  }

  /** The session after some frames. */
  ghost function LandAll(p: Proto, ms: seq<StompMessage>): Proto
    decreases |ms|
  {
    if ms == [] then p else LandAll(Land(p, ms[0]), ms[1..])
  }

  lemma {:induction false} LandMore(p: Proto, ms: seq<StompMessage>, m: StompMessage)
    ensures LandAll(p, ms + [m]) == Land(LandAll(p, ms), m)
    decreases |ms|
  {
    hide Land;
    if ms == [] {
      assert (ms + [m])[1..] == [];
    } else {
      assert (ms + [m])[1..] == ms[1..] + [m];
      LandMore(Land(p, ms[0]), ms[1..], m);
    }
  }

  lemma SomePick(p: Proto, m: StompMessage)
    ensures CanPick(p, m, Picked(p, m))
  {
    if m.command == "UNSUBSCRIBE" && "id" in m.headers {
      match ParseInt(m.headers["id"]) {
        case None => assert CanPick(p, m, "");
        case Some(n) =>
          if Numbered(p.subscriptions, n) {
            var d :| d in p.subscriptions && p.subscriptions[d] == n;
            assert CanPick(p, m, d);
          } else {
            assert CanPick(p, m, "");
          }
      }
    } else {
      assert CanPick(p, m, "");
    }
  }

  ghost predicate SamePick(p: Proto, m: StompMessage, a: string, b: string)
  {
    MoveOf(Session(NO_REGISTRY, p, 0), m, a) == MoveOf(Session(NO_REGISTRY, p, 0), m, b)
  }

  lemma PicksAgree(p: Proto, m: StompMessage, a: string, b: string)
    requires Injective(p.subscriptions) && CanPick(p, m, a) && CanPick(p, m, b)
    ensures SamePick(p, m, a, b)
  {
    hide ParseInt, Numbered, SubscribeDestination;
  }

  /** The connect handler is the only one whose effect on the session depends on the rest of the server. */
  lemma ProcessIsLocal(x: Session, id: Id, m: StompMessage, pick: string)
    requires m.command != "CONNECT" && Injective(x.proto.subscriptions) && CanPick(x.proto, m, pick)
    ensures Process(x, id, m, pick).proto == Process(Session(NO_REGISTRY, x.proto, 0), 0, m, Picked(x.proto, m)).proto
  {
    hide Process, CanPick, SamePick, MoveOf, LoginMoveOf;
    var y := Session(NO_REGISTRY, x.proto, 0);
    SomePick(x.proto, m);
    PicksAgree(x.proto, m, pick, Picked(x.proto, m));
    ProcessMoves(x, id, m, pick);
    ProcessMoves(y, 0, m, Picked(x.proto, m));
    ProcessLogins(x, id, m, pick);
    ProcessLogins(y, 0, m, Picked(x.proto, m));
    SameMoves(x, m, pick);
  }

  lemma SameMoves(x: Session, m: StompMessage, pick: string)
    requires m.command != "CONNECT" && SamePick(x.proto, m, pick, Picked(x.proto, m))
    ensures MoveOf(x, m, pick) == MoveOf(Session(NO_REGISTRY, x.proto, 0), m, Picked(x.proto, m))
    ensures LoginMoveOf(x, m) == LoginMoveOf(Session(NO_REGISTRY, x.proto, 0), m)
  {
    hide ParseInt, Numbered, SubscribeDestination, Picked;
  }

  function Slashed(d: string): string { "/" + d }

  lemma SlashedInjective(d: string, e: string)
    ensures Slashed(d) == Slashed(e) <==> d == e
  {
    assert Slashed(d)[1..] == d && Slashed(e)[1..] == e;
  }

  lemma LandSubscribe(p: Proto, d: string, n: int, r: int)
    requires OneLine(d) && IsInt(n) && Slashed(d) !in p.subscriptions
    ensures var parsed := ParseFrame(CreateSubscribeFrame(d, ToDecimal(n), ToDecimal(r)));
            && parsed.Ok? && parsed.message.command == "SUBSCRIBE"
            && Land(p, parsed.message) == p.(subscriptions := p.subscriptions[Slashed(d) := n])
  {
    hide ParseFrame, ParseInt, ToDecimal, CreateSubscribeFrame, Picked, SendTo, Subscribe;
    SubscribeFrameParses(d, n, r);
    ParsePrinted(n);
  }

  lemma LandUnsubscribe(p: Proto, d: string, n: int, r: int)
    requires IsInt(n) && Injective(p.subscriptions) && d in p.subscriptions && p.subscriptions[d] == n
    ensures var parsed := ParseFrame(CreateUnsubscribeFrame(ToDecimal(n), ToDecimal(r)));
            && parsed.Ok? && parsed.message.command == "UNSUBSCRIBE"
            && Land(p, parsed.message) == p.(subscriptions := p.subscriptions - {d})
  {
    hide ParseFrame, ParseInt, ToDecimal, CreateUnsubscribeFrame, Picked, SendTo, Unsubscribe;
    UnsubscribeFrameParses(n, r);
    ParsePrinted(n);
    SomePick(p, StompMessage("UNSUBSCRIBE", map["id" := ToDecimal(n), "receipt" := ToDecimal(r)], ""));
  }

  lemma LandDisconnect(p: Proto, r: int)
    requires p.isConnected
    ensures var parsed := ParseFrame(CreateDisconnectFrame(ToDecimal(r)));
            && parsed.Ok? && parsed.message.command == "DISCONNECT"
            && Land(p, parsed.message) == Proto(false, true, map[])
  {
    hide ParseFrame, ToDecimal, CreateDisconnectFrame, Picked, SendTo, Logout;
    DisconnectFrameParses(r);
  }

  lemma LandSend(p: Proto, m: StompMessage)
    requires m.command == "SEND"
    ensures Land(p, m) == p
  {
    hide Picked, Process, CanPick;
    SomePick(p, m);
    ProcessMoves(Session(NO_REGISTRY, p, 0), 0, m, Picked(p, m));
    ProcessLogins(Session(NO_REGISTRY, p, 0), 0, m, Picked(p, m));
  }

  lemma SendIsSend(destination: string, body: string, r: string)
    ensures match ParseFrame(CreateSendFrame(destination, body, r))
            case Ok(m) => m.command == "SEND"
            case Throws => true
  {
    hide ParseFrame, UserOf, Line;
    var user := if UserOf(body) != "" then Line("user", UserOf(body)) else "";
    var rest := Line("destination", destination) + Line("receipt", r) + user + "\n" + body + "\n";
    CommandIsFirstLine("SEND", rest);
    assert CreateSendFrame(destination, body, r) == "SEND" + "\n" + rest;
  }
}
