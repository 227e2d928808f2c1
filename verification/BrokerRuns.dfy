/** Whole runs of the server: the registry, the logins and the deliveries over every sequence of frames. */
module BrokerRuns {
  import opened Text
  import opened Decimal
  import opened StompFrame
  import opened Broker
  import opened BrokerSteps

  ghost predicate IsServerRun(ss: seq<Server>, ls: seq<ServerStep>)
  {
    && |ss| == |ls| + 1 && Initial(ss[0])
    && (forall i | 0 <= i < |ls| :: CanStep(ss[i], ls[i]) && ss[i + 1] == Step(ss[i], ls[i]))
  }

  ghost predicate ServerInv(s: Server) { RosterInv(s) && ChannelsInv(s) && LoginInv(s) }

  lemma InitialInv(s: Server)
    requires Initial(s)
    ensures ServerInv(s)
  {
  }

  lemma ServerStepKeepsInv(s: Server, l: ServerStep)
    requires ServerInv(s) && CanStep(s, l)
    ensures ServerInv(Step(s, l))
  {
    hide RosterInv, ChannelsInv, LoginInv, Step, CanStep;
    RosterStep(s, l);
    ChannelsStep(s, l);
    LoginStep(s, l);
  }

  lemma {:induction false} ServerRunInv(ss: seq<Server>, ls: seq<ServerStep>, i: nat)
    requires IsServerRun(ss, ls) && i < |ss|
    ensures ServerInv(ss[i])
  {
    hide ServerInv, Step, CanStep;
    if i == 0 {
      InitialInv(ss[0]);
    } else {
      ServerRunInv(ss, ls, i - 1);
      ServerStepKeepsInv(ss[i - 1], ls[i - 1]);
    }
  }

  // ------------------------------------------------------------------ the registry

  /**
   * The subscriber lists and the sessions agree: no list names a connection twice; a list names a
   * connection only if the connection has subscribed; and until the connection is closed, also if.
   */
  lemma RegistryAgrees(ss: seq<Server>, ls: seq<ServerStep>, i: nat, c: Id, d: string)
    requires IsServerRun(ss, ls) && i < |ss|
    ensures var subscribers := Subscribers(ss[i].registry.channels, d);
            && NoRepeat(subscribers)
            && (c in subscribers ==> c in ss[i].protos && d in ss[i].protos[c].subscriptions)
            && (c in ss[i].protos && c !in ss[i].closed ==>
                  (c in subscribers <==> d in ss[i].protos[c].subscriptions) && c in ss[i].registry.clients)
  {
    ServerRunInv(ss, ls, i);
    assert MemberInv(ss[i], c, d);
  }

  /** Closing takes the connection out of the clients and out of every channel, and doing so again changes nothing. */
  lemma CloseRemovesEverywhere(ss: seq<Server>, ls: seq<ServerStep>, i: nat, c: Id)
    requires IsServerRun(ss, ls) && i < |ss|
    ensures var r := Close(ss[i], c);
            && c !in r.registry.clients
            && (forall d :: c !in Subscribers(r.registry.channels, d))
            && (forall d, e | e != c ::
                  e in Subscribers(r.registry.channels, d) <==> e in Subscribers(ss[i].registry.channels, d))
            && Close(r, c) == r
  {
    hide Disconnect, RemoveFirst, Strip, Subscribers, NoRepeats;
    ServerRunInv(ss, ls, i);
    var channels := ss[i].registry.channels;
    DisconnectIs(ss[i].registry, c);
    StripAll(channels, c);
    DisconnectIs(Close(ss[i], c).registry, c);
    forall d ensures Subscribers(Strip(channels, c), d) == RemoveFirst(Subscribers(channels, d), c)
                  && c !in RemoveFirst(Subscribers(channels, d), c) {
      StripOne(channels, c, d);
      RemoveFrom(channels, c, d);
    }
    forall d, e | e != c ensures e in RemoveFirst(Subscribers(channels, d), c) <==> e in Subscribers(channels, d) {
      RemoveKeepsOthers(Subscribers(channels, d), c, e);
    }
  }

  // ------------------------------------------------------------------ the logins

  /** A session is connected exactly when one login, and then only one, maps to it; that login is registered. */
  lemma LoginsAgree(ss: seq<Server>, ls: seq<ServerStep>, i: nat, c: Id)
    requires IsServerRun(ss, ls) && i < |ss| && c in ss[i].protos
    ensures var loggedIn := ss[i].registry.loggedIn;
            && (ss[i].protos[c].isConnected <==> exists login :: login in loggedIn && loggedIn[login] == c)
            && (forall l, k | l in loggedIn && k in loggedIn && loggedIn[l] == c && loggedIn[k] == c :: l == k)
            && (forall login <- loggedIn :: login in ss[i].registry.credentials)
  {
    ServerRunInv(ss, ls, i);
    assert ConnectedInv(ss[i], c);
  }

  /** No step forgets or changes a passcode. */
  lemma CredentialsStep(s: Server, l: ServerStep, login: string)
    requires CanStep(s, l) && ChannelsInv(s) && login in s.registry.credentials
    ensures login in Step(s, l).registry.credentials
    ensures Step(s, l).registry.credentials[login] == s.registry.credentials[login]
  {
    hide Process, LoginMoveOf, Close, CanPick, NoRepeats, MemberInv;
    match l {
      case Accept =>
      case Abrupt(id) => CloseLogin(s, id);
      case Frame(id, m, pick) =>
        FrameRepeats(s, l);
        ProcessLogins(SessionOf(s, id), id, m, pick);
        CloseLogin(AfterProcess(s, l), id);
    }
  }

  lemma {:induction false} PasscodesNeverChange(ss: seq<Server>, ls: seq<ServerStep>, i: nat, j: nat, login: string)
    requires IsServerRun(ss, ls) && i <= j < |ss| && login in ss[i].registry.credentials
    ensures login in ss[j].registry.credentials
    ensures ss[j].registry.credentials[login] == ss[i].registry.credentials[login]
    decreases j
  {
    hide Step, CanStep, Initial, RosterInv, LoginInv, ChannelsInv;
    if i < j {
      PasscodesNeverChange(ss, ls, i, j - 1, login);
      ServerRunInv(ss, ls, j - 1);
      CredentialsStep(ss[j - 1], ls[j - 1], login);
    }
  }

  /**
   * A session becomes connected only by its own CONNECT frame, whose login then maps to it, was free,
   * and whose passcode is the one registered for that login ever since the login was first used.
   */
  lemma ConnectMatchesPasscode(ss: seq<Server>, ls: seq<ServerStep>, i: nat, c: Id)
    requires IsServerRun(ss, ls) && i < |ls| && c in ss[i].protos
    requires !ss[i].protos[c].isConnected && ss[i + 1].protos[c].isConnected
    ensures ls[i].Frame? && ls[i].id == c && ls[i].message.command == "CONNECT"
    ensures var h := ls[i].message.headers;
            && "login" in h && "passcode" in h && h["login"] !in ss[i].registry.loggedIn
            && h["login"] in ss[i + 1].registry.loggedIn && ss[i + 1].registry.loggedIn[h["login"]] == c
            && h["login"] in ss[i + 1].registry.credentials
            && forall j | 0 <= j <= i + 1 && h["login"] in ss[j].registry.credentials ::
                 ss[j].registry.credentials[h["login"]] == h["passcode"]
  {
    hide Process, Close, CanPick, NoRepeats, MemberInv, RosterInv, LoginsInv, Initial;
    var l := ls[i];
    ServerRunInv(ss, ls, i);
    ServerRunInv(ss, ls, i + 1);
    ConnectingStep(ss[i], l, c);
    var login := l.message.headers["login"];
    forall j | 0 <= j <= i + 1 && login in ss[j].registry.credentials
      ensures ss[j].registry.credentials[login] == l.message.headers["passcode"] {
      PasscodesNeverChange(ss, ls, j, i + 1, login);
    }
  }

  lemma ConnectingStep(s: Server, l: ServerStep, c: Id)
    requires CanStep(s, l) && ServerInv(s) && c in s.protos
    requires !s.protos[c].isConnected && Step(s, l).protos[c].isConnected
    ensures l.Frame? && l.id == c && l.message.command == "CONNECT"
    ensures var h := l.message.headers;
            var r := Step(s, l).registry;
            && "login" in h && "passcode" in h && h["login"] !in s.registry.loggedIn
            && h["login"] in r.loggedIn && r.loggedIn[h["login"]] == c
            && h["login"] in r.credentials && r.credentials[h["login"]] == h["passcode"]
  {
    hide Process, Close, CanPick, NoRepeats, MemberInv, LoginsInv;
    match l {
      case Accept =>
      case Abrupt(id) => CloseLogin(s, id);
      case Frame(id, m, pick) =>
        FrameRepeats(s, l);
        ProcessLogins(SessionOf(s, id), id, m, pick);
        CloseLogin(AfterProcess(s, l), id);
        assert id == c;
        assert ConnectedInv(s, c);
        LoginFree(s, id, m);
    }
  }

  // ------------------------------------------------------------------ deliveries

  predicate Publishes(s: Server, l: ServerStep)
    requires CanStep(s, l)
  {
    l.Frame? && Accepts(SessionOf(s, l.id), l.message)
  }

  lemma StepOutbox(s: Server, l: ServerStep, c: Id)
    requires CanStep(s, l) && ChannelsInv(s)
    ensures var before, after := Outbox(s.registry, c), Outbox(Step(s, l).registry, c);
            if Publishes(s, l) then after == before + Receives(SessionOf(s, l.id), l.message, c)
            else Reply(before, after)
    ensures Step(s, l).counter == if Publishes(s, l) then Incremented(s.counter) else s.counter
  {
    hide Process, Close, CanPick, NoRepeats, MemberInv, Reply, Receives, Accepts;
    match l {
      case Accept => QuietReply(Outbox(s.registry, c));
      case Abrupt(id) =>
        CloseLogin(s, id);
        QuietReply(Outbox(s.registry, c));
      case Frame(id, m, pick) =>
        FrameRepeats(s, l);
        CloseLogin(AfterProcess(s, l), id);
        if Accepts(SessionOf(s, id), m) {
          AcceptedSend(SessionOf(s, id), id, m, pick, c);
        } else {
          OnlyReplies(SessionOf(s, id), id, m, pick, c);
        }
    }
  }

  lemma QuietReply(ms: seq<StompMessage>)
    ensures Reply(ms, ms)
  {
  }

  /** Step `i` delivers `m` to `c`, which is subscribed to its destination at that moment. */
  ghost predicate Delivers(ss: seq<Server>, ls: seq<ServerStep>, i: nat, c: Id, m: StompMessage)
    requires IsServerRun(ss, ls) && i < |ls|
  {
    && Publishes(ss[i], ls[i])
    && (var sender, d := SessionOf(ss[i], ls[i].id), ls[i].message.headers["destination"];
        && c in ss[i].protos && d in ss[i].protos[c].subscriptions && c in Subscribers(ss[i].registry.channels, d)
        && m == MessageFrame(sender.proto, ls[i].message, Incremented(ss[i].counter)))
  }

  /**
   * Exact fan-out. An accepted SEND gives every registered subscriber exactly one MESSAGE, with the
   * sender's text, and gives nothing to anybody else; every open connection that has subscribed to the
   * destination is such a subscriber. Nothing else in the registry changes.
   */
  lemma ExactFanOut(ss: seq<Server>, ls: seq<ServerStep>, i: nat, c: Id)
    requires IsServerRun(ss, ls) && i < |ls| && Publishes(ss[i], ls[i])
    ensures var x, m := SessionOf(ss[i], ls[i].id), ls[i].message;
            var frame := MessageFrame(x.proto, m, Incremented(x.counter));
            var before, after := Outbox(ss[i].registry, c), Outbox(ss[i + 1].registry, c);
            && (after == before || after == before + [frame])
            && (after != before ==> Delivers(ss, ls, i, c, frame))
            && (c in ss[i].protos && c !in ss[i].closed ==>
                  (after == before + [frame] <==> m.headers["destination"] in ss[i].protos[c].subscriptions))
  {
    hide Step, CanStep, Initial, NoRepeats;
    ServerRunInv(ss, ls, i);
    StepOutbox(ss[i], ls[i], c);
    RegistryAgrees(ss, ls, i, c, ls[i].message.headers["destination"]);
  }

  /**
   * A refused SEND only tells its sender so, with the first test it failed; and a session that had ended
   * before is closed again, as after every frame.
   */
  lemma RefusedSendTellsSender(ss: seq<Server>, ls: seq<ServerStep>, i: nat)
    requires IsServerRun(ss, ls) && i < |ls| && ls[i].Frame? && ls[i].message.command == "SEND"
    requires !Publishes(ss[i], ls[i])
    ensures var p, m := ss[i].protos[ls[i].id], ls[i].message;
            && !Sends(p, m)
            && (var told := ss[i].(registry := SendTo(ss[i].registry, ls[i].id, ErrorFrame(SendFault(p, m))));
                ss[i + 1] == if p.shouldTerminate then Close(told, ls[i].id) else told)
  {
    hide Process, SendTo, ErrorFrame, Close, SendFault, CanPick;
    var l := ls[i];
    var x := SessionOf(ss[i], l.id);
    RefusedSend(x, l.id, l.message, l.pick);
    assert ss[i].protos[l.id := x.proto] == ss[i].protos;
  }

  /** Every MESSAGE ever delivered went to a connection that was subscribed at that moment. */
  lemma {:induction false} OnlySubscribersReceive(ss: seq<Server>, ls: seq<ServerStep>, i: nat, c: Id, k: nat)
    requires IsServerRun(ss, ls) && i < |ss|
    requires k < |Outbox(ss[i].registry, c)| && Outbox(ss[i].registry, c)[k].command == "MESSAGE"
    ensures exists j :: 0 <= j < i && Delivers(ss, ls, j, c, Outbox(ss[i].registry, c)[k])
  {
    hide Step, CanStep, ServerInv, Delivers, Receives, Publishes;
    if i > 0 {
      var before := Outbox(ss[i - 1].registry, c);
      ServerRunInv(ss, ls, i - 1);
      StepOutbox(ss[i - 1], ls[i - 1], c) by { assert ChannelsInv(ss[i - 1]) by { ChannelsOf(ss[i - 1]); } }
      if Publishes(ss[i - 1], ls[i - 1]) { ExactFanOut(ss, ls, i - 1, c); }
      if k < |before| {
        OnlySubscribersReceive(ss, ls, i - 1, c, k);
        var j :| 0 <= j < i - 1 && Delivers(ss, ls, j, c, before[k]);
        assert Outbox(ss[i].registry, c)[k] == before[k];
      } else {
        assert Delivers(ss, ls, i - 1, c, Outbox(ss[i].registry, c)[k]);
      }
    }
  }

  lemma ChannelsOf(s: Server)
    requires ServerInv(s)
    ensures ChannelsInv(s)
  {
  }

  // ------------------------------------------------------------------ message ids

  /** How many SEND frames were accepted in the first `i` steps. */
  ghost function Accepted(ss: seq<Server>, ls: seq<ServerStep>, i: nat): nat
    requires IsServerRun(ss, ls) && i < |ss|
  {
    if i == 0 then 0 else Accepted(ss, ls, i - 1) + if Publishes(ss[i - 1], ls[i - 1]) then 1 else 0
  }

  /** The message ids in an outbox, in the order they were sent. */
  function MessageIds(ms: seq<StompMessage>): seq<Option<int>>
  {
    if ms == [] then [] else
    var last := ms[|ms| - 1];
    MessageIds(ms[..|ms| - 1]) +
      if last.command == "MESSAGE" && "message-id" in last.headers then [ParseInt(last.headers["message-id"])] else []
  }

  ghost predicate Rising(ids: seq<Option<int>>, top: int)
  {
    && (forall i | 0 <= i < |ids| :: ids[i].Some? && ids[i].value <= top)
    && (forall i, j | 0 <= i < j < |ids| :: ids[i].value < ids[j].value)
  }

  lemma RisingMore(ids: seq<Option<int>>, top: int, n: int)
    requires Rising(ids, top) && top < n
    ensures Rising(ids, n) && Rising(ids + [Some(n)], n)
  {
  }

  lemma MessageIdsOneMore(ms: seq<StompMessage>, m: StompMessage)
    ensures MessageIds(ms + [m]) == MessageIds(ms) +
              if m.command == "MESSAGE" && "message-id" in m.headers then [ParseInt(m.headers["message-id"])] else []
  {
    assert (ms + [m])[..|ms|] == ms;
  }

  lemma ReplyIds(before: seq<StompMessage>, after: seq<StompMessage>)
    requires Reply(before, after)
    ensures MessageIds(after) == MessageIds(before)
  {
    if after != before {
      assert after == before + [after[|before|]];
      MessageIdsOneMore(before, after[|before|]);
    }
  }

  lemma ReceivesIds(x: Session, m: StompMessage, c: Id, before: seq<StompMessage>)
    requires Accepts(x, m) && Rising(MessageIds(before), x.counter) && 0 <= x.counter < MAX_INT
    ensures Rising(MessageIds(before + Receives(x, m, c)), x.counter + 1)
  {
    hide MessageIds, Rising;
    ParsePrinted(x.counter + 1);
    RisingMore(MessageIds(before), x.counter, x.counter + 1);
    if Receives(x, m, c) == [] {
      assert before + [] == before;
    } else {
      MessageIdsOneMore(before, MessageFrame(x.proto, m, x.counter + 1));
    }
  }

  /**
   * As long as fewer than 2^31 SEND frames have been accepted, the counter is their number, and every
   * receiver sees strictly increasing message ids.
   */
  lemma {:induction false} MessageIdsIncrease(ss: seq<Server>, ls: seq<ServerStep>, i: nat, c: Id)
    requires IsServerRun(ss, ls) && i < |ss| && Accepted(ss, ls, i) <= MAX_INT
    ensures ss[i].counter == Accepted(ss, ls, i)
    ensures Rising(MessageIds(Outbox(ss[i].registry, c)), ss[i].counter)
  {
    hide Step, ServerInv, Receives, Publishes, Rising, MessageIds, Reply;
    if i == 0 {
      assert Outbox(ss[0].registry, c) == [];
      NoIds();
    } else {
      var s, l := ss[i - 1], ls[i - 1];
      MessageIdsIncrease(ss, ls, i - 1, c);
      ServerRunInv(ss, ls, i - 1);
      ChannelsOf(s);
      StepOutbox(s, l, c);
      if Publishes(s, l) {
        PublishedAccepts(s, l);
        ReceivesIds(SessionOf(s, l.id), l.message, c, Outbox(s.registry, c));
      } else {
        ReplyIds(Outbox(s.registry, c), Outbox(ss[i].registry, c));
      }
    }
  }

  lemma PublishedAccepts(s: Server, l: ServerStep)
    requires CanStep(s, l) && Publishes(s, l)
    ensures l.Frame? && Accepts(SessionOf(s, l.id), l.message) && SessionOf(s, l.id).counter == s.counter
  {
  }

  lemma NoIds()
    ensures Rising(MessageIds([]), 0)
  {
  }

  /** The bound is the whole story: the next id is larger than all before exactly when the counter can still grow. */
  lemma NextIdGrows(ss: seq<Server>, ls: seq<ServerStep>, i: nat)
    requires IsServerRun(ss, ls) && i < |ls| && Publishes(ss[i], ls[i]) && Accepted(ss, ls, i) <= MAX_INT
    ensures ss[i + 1].counter > ss[i].counter <==> Accepted(ss, ls, i + 1) <= MAX_INT
  {
    hide Step, CanStep, ServerInv, Publishes, Rising, MessageIds, Outbox;
    MessageIdsIncrease(ss, ls, i, 0);
    ServerRunInv(ss, ls, i);
    ChannelsOf(ss[i]);
    StepOutbox(ss[i], ls[i], 0);
  }

  /**
   * The MESSAGE a receiver gets has the receiver's own subscription number if and only if that happens
   * to be the sender's.
   */
  lemma ReceiverSeesSendersNumber(ss: seq<Server>, ls: seq<ServerStep>, i: nat, c: Id)
    requires IsServerRun(ss, ls) && i < |ls| && Publishes(ss[i], ls[i]) && c in ss[i].protos
    requires ls[i].message.headers["destination"] in ss[i].protos[c].subscriptions
    ensures var d, sender := ls[i].message.headers["destination"], ss[i].protos[ls[i].id];
            var frame := MessageFrame(sender, ls[i].message, Incremented(ss[i].counter));
            && "subscription" in frame.headers
            && (frame.headers["subscription"] == ToDecimal(ss[i].protos[c].subscriptions[d]) <==>
                  ss[i].protos[c].subscriptions[d] == sender.subscriptions[d])
  {
    hide ToDecimal, Step;
    var d := ls[i].message.headers["destination"];
    PrintedApart(ss[i].protos[ls[i].id].subscriptions[d], ss[i].protos[c].subscriptions[d]);
  }

  // ------------------------------------------------------------------ how a login ends

  /** The frame that gives a connection's login back. */
  predicate GivesBack(l: ServerStep, c: Id)
  {
    l.Frame? && l.id == c && l.message.command == "DISCONNECT" && "receipt" in l.message.headers
  }

  predicate HasIt(s: Server, login: string, c: Id) { login in s.registry.loggedIn && s.registry.loggedIn[login] == c }

  lemma LoginOf(s: Server, login: string)
    requires ServerInv(s) && login in s.registry.loggedIn
    ensures s.registry.loggedIn[login] in s.protos && s.protos[s.registry.loggedIn[login]].isConnected
  {
    hide RosterInv, ChannelsInv;
    assert ConnectedInv(s, s.registry.loggedIn[login]);
  }

  /**
   * A login ends if and only if its connection sends a DISCONNECT frame with a receipt header. Nothing
   * else does it: no other frame, no close, and no DISCONNECT without receipt.
   */
  lemma LoginEndsIff(s: Server, l: ServerStep, login: string)
    requires CanStep(s, l) && ServerInv(s) && login in s.registry.loggedIn
    ensures login !in Step(s, l).registry.loggedIn <==> GivesBack(l, s.registry.loggedIn[login])
    ensures login in Step(s, l).registry.loggedIn ==>
              Step(s, l).registry.loggedIn[login] == s.registry.loggedIn[login]
  {
    hide Process, Close, CanPick, NoRepeats, MemberInv, LoginInv, RosterInv, MayLogIn;
    LoginOf(s, login);
    match l {
      case Accept =>
      case Abrupt(id) => CloseLogin(s, id);
      case Frame(id, m, pick) =>
        FrameRepeats(s, l);
        ProcessLogins(SessionOf(s, id), id, m, pick);
        CloseLogin(AfterProcess(s, l), id);
    }
  }

  /** A login lasts from one time of a run to another if and only if its connection did not give it back in between. */
  lemma {:induction false} LoginLastsIff(ss: seq<Server>, ls: seq<ServerStep>, i: nat, j: nat, login: string, c: Id)
    requires IsServerRun(ss, ls) && i <= j < |ss|
    requires login in ss[i].registry.loggedIn && ss[i].registry.loggedIn[login] == c
    ensures (forall k | i <= k <= j :: HasIt(ss[k], login, c)) <==> (forall k | i <= k < j :: !GivesBack(ls[k], c))
    decreases j
  {
    hide Step, CanStep, Initial, ServerInv, GivesBack;
    if i == j {
      assert HasIt(ss[i], login, c);
    } else {
      LoginLastsIff(ss, ls, i, j - 1, login, c);
      ServerRunInv(ss, ls, j - 1);
      if HasIt(ss[j - 1], login, c) {
        LoginEndsIff(ss[j - 1], ls[j - 1], login);
        assert HasIt(ss[j], login, c) <==> !GivesBack(ls[j - 1], c);
      }
      assert (forall k | i <= k <= j :: HasIt(ss[k], login, c))
        <==> (forall k | i <= k <= j - 1 :: HasIt(ss[k], login, c)) && HasIt(ss[j], login, c);
    }
  }

  /**
   * So a connection that ends without giving its login back, by an abrupt close for one, keeps it for
   * good: at any later time a CONNECT frame with that login, from whatever connection, is refused.
   */
  lemma AbruptCloseKeepsLogin(
      ss: seq<Server>, ls: seq<ServerStep>, i: nat, j: nat, login: string, c: Id)
    requires IsServerRun(ss, ls) && i < |ls| && ls[i] == Abrupt(c) && i < j < |ss|
    requires login in ss[i].registry.loggedIn && ss[i].registry.loggedIn[login] == c
    requires forall k | i < k < j :: !GivesBack(ls[k], c)
    ensures login in ss[j].registry.loggedIn && ss[j].registry.loggedIn[login] == c
    ensures forall l | CanStep(ss[j], l) && l.Frame? && l.message.command == "CONNECT" && l.id in ss[j].protos ::
              "login" in l.message.headers && l.message.headers["login"] == login ==>
                Step(ss[j], l).protos[l.id].isConnected == ss[j].protos[l.id].isConnected
  {
    hide Step, CanStep, Initial, RosterInv, LoginInv, ChannelsInv;
    ServerRunInv(ss, ls, j);
    LoginLastsIff(ss, ls, i, j, login, c);
    assert HasIt(ss[j], login, c);
    forall l | CanStep(ss[j], l) && l.Frame? && l.message.command == "CONNECT" && l.id in ss[j].protos
               && "login" in l.message.headers && l.message.headers["login"] == login
      ensures l.id in Step(ss[j], l).protos
           && Step(ss[j], l).protos[l.id].isConnected == ss[j].protos[l.id].isConnected {
      ConnectRefused(ss[j], l, login);
    }
  }

  lemma ConnectRefused(s: Server, l: ServerStep, login: string)
    requires CanStep(s, l) && ServerInv(s) && login in s.registry.loggedIn
    requires l.Frame? && l.message.command == "CONNECT" && l.id in s.protos
    requires "login" in l.message.headers && l.message.headers["login"] == login
    ensures l.id in Step(s, l).protos && Step(s, l).protos[l.id].isConnected == s.protos[l.id].isConnected
  {
    hide Process, Disconnect, CanPick, NoRepeats, MemberInv, RosterInv;
    ProcessLogins(SessionOf(s, l.id), l.id, l.message, l.pick);
  }

  // ------------------------------------------------------------------ a run in which it happens

  const HELLO := StompMessage("CONNECT",
    map["accept-version" := SUPPORTED_VERSION, "host" := VALID_HOST, "login" := "u", "passcode" := "p"], "")

  /** Two connections: the first logs in and breaks, then the second tries the same login. */
  const BROKEN: seq<ServerStep> := [Accept, Accept, Frame(0, HELLO, ""), Abrupt(0), Frame(1, HELLO, "")]

  lemma Accepted01(s: Server)
    requires Initial(s)
    ensures var t := Step(Step(s, Accept), Accept);
            && t.protos == map[0 := Proto(false, false, map[]), 1 := Proto(false, false, map[])]
            && t.registry.clients == {0, 1} && t.registry.credentials == map[] && t.registry.loggedIn == map[]
            && t.registry.channels == map[]
  {
  }

  lemma HelloLogsIn(s: Server)
    requires 0 in s.protos && !s.protos[0].isConnected && !s.protos[0].shouldTerminate
    requires s.registry.credentials == map[] && s.registry.loggedIn == map[] && s.registry.channels == map[]
    requires 1 in s.protos && !s.protos[1].isConnected
    ensures CanStep(s, Frame(0, HELLO, ""))
    ensures var t := Step(s, Frame(0, HELLO, ""));
            && t.registry.credentials == map["u" := "p"] && t.registry.loggedIn == map["u" := 0]
            && t.registry.channels == map[]
            && 0 in t.protos && 1 in t.protos && !t.protos[1].isConnected
  {
    hide Texts, Disconnect;
  }

  lemma BreaksKeepingLogin(s: Server)
    requires 0 in s.protos && s.registry.channels == map[]
    ensures CanStep(s, Abrupt(0))
    ensures var t := Step(s, Abrupt(0));
            && t.registry.credentials == s.registry.credentials && t.registry.loggedIn == s.registry.loggedIn
            && t.protos == s.protos && 0 in t.closed && 0 !in t.registry.clients
  {
    hide Disconnect;
    DisconnectIs(s.registry, 0);
  }

  lemma HelloRefused(s: Server)
    requires 1 in s.protos && !s.protos[1].isConnected && s.registry.loggedIn == map["u" := 0]
    requires s.registry.credentials == map["u" := "p"]
    ensures CanStep(s, Frame(1, HELLO, ""))
    ensures 1 in Step(s, Frame(1, HELLO, "")).protos && !Step(s, Frame(1, HELLO, "")).protos[1].isConnected
    ensures Step(s, Frame(1, HELLO, "")).registry.loggedIn == map["u" := 0]
  {
    hide Texts, Disconnect, SendTo;
    ProcessLogins(SessionOf(s, 1), 1, HELLO, "");
    assert !MayLogIn(SessionOf(s, 1), HELLO);
    assert MoveOf(SessionOf(s, 1), HELLO, "") == Stays;
    ProcessMoves(SessionOf(s, 1), 1, HELLO, "");
    CloseKeepsLogins(AfterProcess(s, Frame(1, HELLO, "")), 1);
  }

  lemma {:induction false} DisconnectKeepsLogins(r: Registry, id: Id)
    ensures Disconnect(r, id).loggedIn == r.loggedIn
    decreases |r.clients|
  {
    if id in r.clients {
      DisconnectKeepsLogins(r.(clients := r.clients - {id}, channels := Strip(r.channels, id)), id);
    }
  }

  lemma CloseKeepsLogins(s: Server, id: Id)
    ensures Close(s, id).registry.loggedIn == s.registry.loggedIn && Close(s, id).protos == s.protos
  {
    DisconnectKeepsLogins(s.registry, id);
  }

  /** Such a run exists: its last frame has the right passcode, and the user is locked out all the same. */
  lemma LockedOut(s0: Server)
    requires Initial(s0)
    ensures exists ss: seq<Server> ::
              && IsServerRun(ss, BROKEN) && ss[0] == s0
              && ss[5].registry.loggedIn == map["u" := 0] && 0 in ss[4].closed
              && 1 in ss[5].protos && !ss[5].protos[1].isConnected
  {
    hide Step, CanStep, Initial;
    assert CanStep(s0, Accept) by { AcceptAlways(s0); }
    var s1 := Step(s0, Accept);
    assert CanStep(s1, Accept) by { AcceptAlways(s1); }
    var s2 := Step(s1, Accept);
    Accepted01(s0);
    HelloLogsIn(s2);
    var s3 := Step(s2, Frame(0, HELLO, ""));
    BreaksKeepingLogin(s3);
    var s4 := Step(s3, Abrupt(0));
    HelloRefused(s4);
    var s5 := Step(s4, Frame(1, HELLO, ""));
    var ss := [s0, s1, s2, s3, s4, s5];
    assert IsServerRun(ss, BROKEN);
  }

  lemma AcceptAlways(s: Server)
    ensures CanStep(s, Accept)
  {
  }

  // ------------------------------------------------------------------ connection ids

  function AcceptCount(ls: seq<ServerStep>, n: nat): nat
    requires n <= |ls|
  {
    if n == 0 then 0 else AcceptCount(ls, n - 1) + if ls[n - 1].Accept? then 1 else 0
  }

  lemma StepIds(s: Server, l: ServerStep)
    requires CanStep(s, l)
    ensures Step(s, l).nextId == s.nextId + if l.Accept? then 1 else 0
    ensures Step(s, l).protos.Keys == s.protos.Keys + if l.Accept? then {s.nextId} else {}
  {
    hide Process, Disconnect, CanPick;
  }

  /** The sessions of a server are those of the connections accepted so far, numbered from zero in that order. */
  lemma {:induction false} IdsCountAccepts(ss: seq<Server>, ls: seq<ServerStep>, n: nat, id: Id)
    requires IsServerRun(ss, ls) && n <= |ls|
    ensures ss[n].nextId == AcceptCount(ls, n) && (id in ss[n].protos <==> 0 <= id < AcceptCount(ls, n))
  {
    hide Step, CanStep;
    if n > 0 {
      IdsCountAccepts(ss, ls, n - 1, id);
      StepIds(ss[n - 1], ls[n - 1]);
      assert id in ss[n].protos <==> id in ss[n].protos.Keys;
    }
  }
}
