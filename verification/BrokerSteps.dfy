/** What every step of the server keeps: who is in which channel, who is logged in, what was delivered. */
module BrokerSteps {
  import opened Text
  import opened Decimal
  import opened StompFrame
  import opened Broker

  // ------------------------------------------------------------------ lists without repetition

  ghost predicate NoRepeat(ids: seq<Id>) { forall i, j | 0 <= i < j < |ids| :: ids[i] != ids[j] }

  lemma {:induction false} RemoveKeepsOthers(ids: seq<Id>, id: Id, c: Id)
    requires c != id
    ensures c in RemoveFirst(ids, id) <==> c in ids
  {
    if ids != [] {
      RemoveKeepsOthers(ids[1..], id, c);
    }
  }

  lemma {:induction false} RemoveOnly(ids: seq<Id>, id: Id)
    requires NoRepeat(ids)
    ensures NoRepeat(RemoveFirst(ids, id)) && id !in RemoveFirst(ids, id)
    ensures id !in ids ==> RemoveFirst(ids, id) == ids
  {
    hide NoRepeat;
    if ids == [] {
      NothingRepeats();
    } else {
      NoRepeatTail(ids);
      RemoveOnly(ids[1..], id);
      if ids[0] != id {
        RemoveKeepsOthers(ids[1..], id, ids[0]);
        NoRepeatCons(ids[0], RemoveFirst(ids[1..], id));
      }
    }
  }

  lemma NothingRepeats()
    ensures NoRepeat([])
  {
  }

  lemma NoRepeatTail(ids: seq<Id>)
    requires NoRepeat(ids) && ids != []
    ensures NoRepeat(ids[1..]) && ids[0] !in ids[1..]
  {
    assert forall i, j | 1 <= i < j < |ids| :: ids[i] != ids[j];
  }

  lemma NoRepeatCons(id: Id, ids: seq<Id>)
    requires NoRepeat(ids) && id !in ids
    ensures NoRepeat([id] + ids)
  {
  }

  lemma StripOne(channels: map<string, seq<Id>>, id: Id, d: string)
    ensures Subscribers(Strip(channels, id), d) == RemoveFirst(Subscribers(channels, d), id)
  {
  }

  ghost predicate NoRepeats(channels: map<string, seq<Id>>)
  {
    forall d <- channels :: NoRepeat(channels[d])
  }

  lemma StripAll(channels: map<string, seq<Id>>, id: Id)
    requires NoRepeats(channels)
    ensures NoRepeats(Strip(channels, id)) && Strip(Strip(channels, id), id) == Strip(channels, id)
  {
    hide NoRepeat, RemoveFirst;
    var once := Strip(channels, id);
    forall d | d in channels ensures NoRepeat(once[d]) && RemoveFirst(once[d], id) == once[d] {
      RemoveOnly(channels[d], id);
      RemoveOnly(once[d], id);
    }
  }

  lemma DisconnectOnce(r: Registry, id: Id)
    requires id !in r.clients
    ensures Disconnect(r, id) == r.(channels := Strip(r.channels, id))
  {
  }

  /** The mutual recursion of `close` and `disconnect` comes down to taking the id out everywhere. */
  lemma DisconnectIs(r: Registry, id: Id)
    requires NoRepeats(r.channels)
    ensures Disconnect(r, id) == r.(clients := r.clients - {id}, channels := Strip(r.channels, id))
  {
    hide Strip;
    StripAll(r.channels, id);
    if id in r.clients {
      DisconnectOnce(r.(clients := r.clients - {id}, channels := Strip(r.channels, id)), id);
    }
  }

  // ------------------------------------------------------------------ who is in which channel

  ghost predicate RosterInv(s: Server)
  {
    && s.registry.clients <= s.protos.Keys && s.closed <= s.protos.Keys
    && (forall id <- s.protos :: id < s.nextId && (id in s.closed || id in s.registry.clients))
  }

  /**
   * A connection is in the channel of `d` only if `d` is among its own subscriptions, and, until it is
   * closed, also if.
   */
  ghost predicate MemberInv(s: Server, c: Id, d: string)
  {
    var member := c in Subscribers(s.registry.channels, d);
    && (member ==> c in s.protos && d in s.protos[c].subscriptions)
    && (c in s.protos && c !in s.closed && d in s.protos[c].subscriptions ==> member)
  }

  ghost predicate ChannelsInv(s: Server)
  {
    && NoRepeats(s.registry.channels)
    && (forall c, d :: MemberInv(s, c, d))
    && (forall c <- s.protos :: s.protos[c].shouldTerminate ==> c in s.closed)
  }

  /** What one call of `process` does to the channels and the subscriptions of the session. */
  datatype Move = Stays | Joins(destination: string, number: int) | Leaves(destination: string) | Quits

  ghost predicate Moved(x: Session, x': Session, id: Id, v: Move)
  {
    && (x.proto.shouldTerminate ==> x'.proto.shouldTerminate)
    && match v
       case Stays =>
         x'.registry.channels == x.registry.channels && x'.proto.subscriptions == x.proto.subscriptions
         && x'.proto.shouldTerminate == x.proto.shouldTerminate
       case Joins(d, n) =>
         && d !in x.proto.subscriptions && x'.proto == x.proto.(subscriptions := x.proto.subscriptions[d := n])
         && x'.registry.channels == Subscribe(x.registry.channels, id, d)
       case Leaves(d) =>
         && d in x.proto.subscriptions && x'.proto == x.proto.(subscriptions := x.proto.subscriptions - {d})
         && x'.registry.channels == Unsubscribe(x.registry.channels, id, d)
       case Quits => x'.registry.channels == x.registry.channels && x'.proto == Proto(false, true, map[])
  }

  function MoveOf(x: Session, m: StompMessage, pick: string): Move
  {
    if m.command == "SUBSCRIBE" then
      var d := SubscribeDestination(m);
      if "id" !in m.headers || d in x.proto.subscriptions then Stays
      else match ParseInt(m.headers["id"]) case None => Stays case Some(n) => Joins(d, n)
    else if m.command == "UNSUBSCRIBE" then
      if "id" !in m.headers then Stays
      else match ParseInt(m.headers["id"])
           case None => Stays
           case Some(n) => if Numbered(x.proto.subscriptions, n) then Leaves(pick) else Stays
    else if m.command == "DISCONNECT" then
      if "receipt" in m.headers && x.proto.isConnected then Quits else Stays
    else Stays
  }

  lemma ConnectStays(x: Session, id: Id, m: StompMessage)
    ensures Moved(x, HandleConnect(x, id, m), id, Stays)
  {
    hide SendTo, ErrorFrame, Get;
  }

  lemma SendStays(x: Session, id: Id, m: StompMessage)
    ensures Moved(x, HandleSend(x, id, m), id, Stays)
  {
    hide SendTo, ErrorFrame, MessageFrame, SendEach;
  }

  lemma SubscribeMoves(x: Session, id: Id, m: StompMessage, pick: string)
    requires m.command == "SUBSCRIBE"
    ensures Moved(x, HandleSubscribe(x, id, m), id, MoveOf(x, m, pick))
  {
    hide SendTo, ErrorFrame, ParseInt, SubscribeDestination, Subscribe;
  }

  lemma UnsubscribeMoves(x: Session, id: Id, m: StompMessage, pick: string)
    requires m.command == "UNSUBSCRIBE" && CanPick(x.proto, m, pick)
    ensures Moved(x, HandleUnsubscribe(x, id, m, pick), id, MoveOf(x, m, pick))
  {
    hide SendTo, ErrorFrame, ParseInt, Numbered, Unsubscribe;
  }

  lemma DisconnectMoves(x: Session, id: Id, m: StompMessage, pick: string)
    requires m.command == "DISCONNECT"
    ensures Moved(x, HandleDisconnect(x, id, m), id, MoveOf(x, m, pick))
  {
    hide SendTo, ErrorFrame, Logout;
  }

  lemma UnknownStays(x: Session, id: Id, f: Fault)
    ensures Moved(x, HandleError(x, id, f), id, Stays)
  {
    hide SendTo, ErrorFrame;
  }

  lemma ProcessMoves(x: Session, id: Id, m: StompMessage, pick: string)
    requires CanPick(x.proto, m, pick)
    ensures Moved(x, Process(x, id, m, pick), id, MoveOf(x, m, pick))
  {
    hide HandleConnect, HandleSend, HandleSubscribe, HandleUnsubscribe, HandleDisconnect, HandleError, Moved, CanPick;
    if m.command == "CONNECT" { ConnectStays(x, id, m); }
    else if m.command == "SEND" { SendStays(x, id, m); }
    else if m.command == "SUBSCRIBE" { SubscribeMoves(x, id, m, pick); }
    else if m.command == "UNSUBSCRIBE" { UnsubscribeMoves(x, id, m, pick); }
    else if m.command == "DISCONNECT" { DisconnectMoves(x, id, m, pick); }
    else { UnknownStays(x, id, UnknownCommand(m.command)); }
  }

  lemma JoinOne(channels: map<string, seq<Id>>, id: Id, d: string, e: string)
    ensures Subscribers(Subscribe(channels, id, d), e)
         == if e == d then Subscribers(channels, d) + [id] else Subscribers(channels, e)
  {
  }

  lemma LeaveOne(channels: map<string, seq<Id>>, id: Id, d: string, e: string)
    ensures Subscribers(Unsubscribe(channels, id, d), e)
         == if e == d then RemoveFirst(Subscribers(channels, d), id) else Subscribers(channels, e)
  {
  }

  lemma AddNew(ids: seq<Id>, id: Id)
    requires NoRepeat(ids) && id !in ids
    ensures NoRepeat(ids + [id])
  {
  }

  lemma MovedRepeats(x: Session, x': Session, id: Id, v: Move)
    requires Moved(x, x', id, v) && NoRepeats(x.registry.channels)
    requires v.Joins? ==> id !in Subscribers(x.registry.channels, v.destination)
    ensures NoRepeats(x'.registry.channels)
  {
    hide NoRepeat;
    if v.Joins? {
      var ids := Subscribers(x.registry.channels, v.destination);
      assert NoRepeat(ids) by { EmptyNoRepeat(); }
      AddNew(ids, id);
    } else if v.Leaves? && v.destination in x.registry.channels {
      RemoveOnly(x.registry.channels[v.destination], id);
    }
  }

  lemma EmptyNoRepeat()
    ensures NoRepeat([])
  {
  }

  // ------------------------------------------------------------------ steps keep the channels

  lemma AcceptMember(s: Server, c: Id, d: string)
    requires RosterInv(s) && MemberInv(s, c, d)
    ensures MemberInv(Step(s, Accept), c, d)
  {
    assert s.nextId !in s.protos;
  }

  /** The session that processed the frame, and the connections it has nothing to do with. */
  lemma ResumedMember(s: Server, id: Id, x': Session, v: Move, c: Id, d: string)
    requires id in s.protos && Moved(SessionOf(s, id), x', id, v) && MemberInv(s, c, d)
    requires NoRepeats(s.registry.channels)
    requires c == id ==> !v.Quits?
    ensures MemberInv(Resumed(s, id, x'), c, d)
  {
    hide Subscribe, Unsubscribe, RemoveFirst, Subscribers, NoRepeat;
    var channels := s.registry.channels;
    match v {
      case Joins(e, _) => JoinOne(channels, id, e, d);
      case Leaves(e) =>
        LeaveOne(channels, id, e, d);
        if c == id { RemoveFrom(channels, id, e); } else { RemoveKeepsOthers(Subscribers(channels, e), id, c); }
      case _ =>
    }
  }

  lemma RemoveFrom(channels: map<string, seq<Id>>, id: Id, d: string)
    requires NoRepeats(channels)
    ensures id !in RemoveFirst(Subscribers(channels, d), id)
  {
    hide RemoveFirst;
    RemoveOnly(Subscribers(channels, d), id);
  }

  lemma CloseMember(s: Server, id: Id, c: Id, d: string)
    requires NoRepeats(s.registry.channels) && (c != id ==> MemberInv(s, c, d))
    ensures MemberInv(Close(s, id), c, d)
  {
    hide Disconnect, Strip, RemoveFirst, Subscribers, NoRepeats;
    var channels := s.registry.channels;
    DisconnectIs(s.registry, id);
    StripOne(channels, id, d);
    if c == id { RemoveFrom(channels, id, d); } else { RemoveKeepsOthers(Subscribers(channels, d), id, c); }
  }

  lemma CloseRepeats(s: Server, id: Id)
    requires NoRepeats(s.registry.channels)
    ensures NoRepeats(Close(s, id).registry.channels)
  {
    hide Disconnect, Strip, NoRepeats;
    DisconnectIs(s.registry, id);
    StripAll(s.registry.channels, id);
  }

  /** The state between the end of `process` and the close that follows it when the session has ended. */
  function AfterProcess(s: Server, l: ServerStep): Server
    requires CanStep(s, l) && l.Frame?
  {
    Resumed(s, l.id, Process(SessionOf(s, l.id), l.id, l.message, l.pick))
  }

  lemma FrameMember(s: Server, l: ServerStep, c: Id, d: string)
    requires CanStep(s, l) && l.Frame? && MemberInv(s, c, d) && NoRepeats(s.registry.channels)
    requires NoRepeats(AfterProcess(s, l).registry.channels)
    ensures MemberInv(Step(s, l), c, d)
  {
    hide Process, MemberInv, MoveOf, Close, CanPick, NoRepeats;
    var x := SessionOf(s, l.id);
    var x' := Process(x, l.id, l.message, l.pick);
    var v := MoveOf(x, l.message, l.pick);
    ProcessMoves(x, l.id, l.message, l.pick);
    if c != l.id || !v.Quits? { ResumedMember(s, l.id, x', v, c, d); }
    if x'.proto.shouldTerminate { CloseMember(AfterProcess(s, l), l.id, c, d); }
  }

  lemma FrameRepeats(s: Server, l: ServerStep)
    requires CanStep(s, l) && l.Frame? && ChannelsInv(s)
    ensures NoRepeats(AfterProcess(s, l).registry.channels) && NoRepeats(Step(s, l).registry.channels)
  {
    hide Process, MoveOf, Close, CanPick, NoRepeats, Subscribers, Subscribe, Unsubscribe;
    var x := SessionOf(s, l.id);
    var v := MoveOf(x, l.message, l.pick);
    ProcessMoves(x, l.id, l.message, l.pick);
    if v.Joins? { assert MemberInv(s, l.id, v.destination); }
    MovedRepeats(x, Process(x, l.id, l.message, l.pick), l.id, v);
    CloseRepeats(AfterProcess(s, l), l.id);
  }

  lemma ChannelsStep(s: Server, l: ServerStep)
    requires CanStep(s, l) && RosterInv(s) && ChannelsInv(s)
    ensures ChannelsInv(Step(s, l))
  {
    hide MemberInv, RosterInv, NoRepeats, Process, Close, CanPick;
    var s' := Step(s, l);
    if l.Frame? { FrameRepeats(s, l); } else if l.Abrupt? { CloseRepeats(s, l.id); }
    forall c, d ensures MemberInv(s', c, d) {
      assert MemberInv(s, c, d);
      match l {
        case Accept => AcceptMember(s, c, d);
        case Abrupt(id) => CloseMember(s, id, c, d);
        case Frame(_, _, _) => FrameMember(s, l, c, d);
      }
    }
    forall c | c in s'.protos && s'.protos[c].shouldTerminate ensures c in s'.closed { EndedIsClosed(s, l, c); }
  }

  /** A session that wants to end is closed in the same step. */
  lemma EndedIsClosed(s: Server, l: ServerStep, c: Id)
    requires CanStep(s, l) && c in Step(s, l).protos && Step(s, l).protos[c].shouldTerminate
    requires forall c <- s.protos :: s.protos[c].shouldTerminate ==> c in s.closed
    ensures c in Step(s, l).closed
  {
    hide Process, Disconnect, CanPick;
  }

  // ------------------------------------------------------------------ who is logged in

  /** What one call of `process` does to the logins and the registered clients. */
  datatype LoginMove = NoMove | LogsIn(login: string, passcode: string) | LogsOut

  predicate MayLogIn(x: Session, m: StompMessage)
  {
    && !x.proto.isConnected
    && Get(m, "accept-version") == Some(SUPPORTED_VERSION) && Get(m, "host") == Some(VALID_HOST)
    && "login" in m.headers && "passcode" in m.headers
    && (m.headers["login"] in x.registry.credentials ==>
          x.registry.credentials[m.headers["login"]] == m.headers["passcode"]
          && m.headers["login"] !in x.registry.loggedIn)
  }

  function LoginMoveOf(x: Session, m: StompMessage): LoginMove
  {
    if m.command == "CONNECT" && MayLogIn(x, m) then LogsIn(m.headers["login"], m.headers["passcode"])
    else if m.command == "DISCONNECT" && "receipt" in m.headers && x.proto.isConnected then LogsOut
    else NoMove
  }

  ghost predicate LoginMoved(x: Session, x': Session, id: Id, v: LoginMove)
  {
    match v
    case NoMove =>
      && x'.registry.credentials == x.registry.credentials && x'.registry.loggedIn == x.registry.loggedIn
      && x'.registry.clients == x.registry.clients && x'.proto.isConnected == x.proto.isConnected
    case LogsIn(login, passcode) =>
      && x'.registry.credentials == PutIfAbsent(x.registry.credentials, login, passcode)
      && x'.registry.loggedIn == PutIfAbsent(x.registry.loggedIn, login, id)
      && x'.registry.clients == x.registry.clients + {id} && x'.proto.isConnected
    case LogsOut =>
      && x'.registry.credentials == x.registry.credentials
      && x'.registry.loggedIn == Logout(x.registry.loggedIn, id)
      && x'.registry.clients == x.registry.clients && !x'.proto.isConnected
  }

  lemma ConnectLogins(x: Session, id: Id, m: StompMessage)
    requires m.command == "CONNECT"
    ensures LoginMoved(x, HandleConnect(x, id, m), id, LoginMoveOf(x, m))
  {
    hide SendTo, ErrorFrame, PutIfAbsent;
  }

  lemma OtherLogins(x: Session, id: Id, m: StompMessage, pick: string)
    ensures LoginMoved(x, HandleSend(x, id, m), id, NoMove)
    ensures LoginMoved(x, HandleSubscribe(x, id, m), id, NoMove)
    ensures LoginMoved(x, HandleUnsubscribe(x, id, m, pick), id, NoMove)
    ensures forall f :: LoginMoved(x, HandleError(x, id, f), id, NoMove)
  {
    hide SendTo, ErrorFrame, SendEach, MessageFrame, Subscribe, Unsubscribe, ParseInt, Numbered, Get;
  }

  lemma DisconnectLogins(x: Session, id: Id, m: StompMessage)
    requires m.command == "DISCONNECT"
    ensures LoginMoved(x, HandleDisconnect(x, id, m), id, LoginMoveOf(x, m))
  {
    hide SendTo, ErrorFrame, Logout;
  }

  lemma ProcessLogins(x: Session, id: Id, m: StompMessage, pick: string)
    ensures LoginMoved(x, Process(x, id, m, pick), id, LoginMoveOf(x, m))
  {
    hide HandleConnect, HandleSend, HandleSubscribe, HandleUnsubscribe, HandleDisconnect, HandleError, LoginMoved,
      MayLogIn;
    if m.command == "CONNECT" { ConnectLogins(x, id, m); }
    else if m.command == "DISCONNECT" { DisconnectLogins(x, id, m); }
    else { OtherLogins(x, id, m, pick); }
  }

  ghost predicate HasLogin(loggedIn: map<string, Id>, c: Id)
  {
    exists login :: login in loggedIn && loggedIn[login] == c
  }

  /** Logged-in names are registered, and no connection has two. */
  ghost predicate LoginsInv(s: Server)
  {
    && (forall login <- s.registry.loggedIn ::
          login in s.registry.credentials && s.registry.loggedIn[login] in s.protos)
    && (forall l, k | l in s.registry.loggedIn && k in s.registry.loggedIn ::
          s.registry.loggedIn[l] == s.registry.loggedIn[k] ==> l == k)
  }

  ghost predicate ConnectedInv(s: Server, c: Id)
  {
    c in s.protos ==> (s.protos[c].isConnected <==> HasLogin(s.registry.loggedIn, c))
  }

  ghost predicate LoginInv(s: Server) { LoginsInv(s) && forall c :: ConnectedInv(s, c) }

  lemma LogInLogins(s: Server, id: Id, x': Session, v: LoginMove)
    requires id in s.protos && LoginMoved(SessionOf(s, id), x', id, v) && LoginsInv(s)
    requires v.LogsIn? ==> v.login !in s.registry.loggedIn && !HasLogin(s.registry.loggedIn, id)
    ensures LoginsInv(Resumed(s, id, x'))
  {
  }

  lemma LogInConnected(s: Server, id: Id, x': Session, v: LoginMove, c: Id)
    requires id in s.protos && LoginMoved(SessionOf(s, id), x', id, v) && ConnectedInv(s, c)
    requires v.LogsIn? ==> v.login !in s.registry.loggedIn
    ensures ConnectedInv(Resumed(s, id, x'), c)
  {
    var before, after := s.registry.loggedIn, x'.registry.loggedIn;
    if HasLogin(before, c) && (c != id || !v.LogsOut?) {
      var login :| login in before && before[login] == c;
      assert login in after && after[login] == c;
    }
    if v.LogsIn? { assert after[v.login] == id; }
  }

  lemma CloseLogin(s: Server, id: Id)
    requires NoRepeats(s.registry.channels)
    ensures var r := Close(s, id);
            && r.registry.loggedIn == s.registry.loggedIn && r.registry.credentials == s.registry.credentials
            && r.registry.outbox == s.registry.outbox && r.registry.clients == s.registry.clients - {id}
            && r.protos == s.protos && r.counter == s.counter && r.nextId == s.nextId
  {
    hide Disconnect, NoRepeats;
    DisconnectIs(s.registry, id);
  }

  lemma LoginFree(s: Server, id: Id, m: StompMessage)
    requires id in s.protos && LoginsInv(s) && ConnectedInv(s, id) && LoginMoveOf(SessionOf(s, id), m).LogsIn?
    ensures LoginMoveOf(SessionOf(s, id), m).login !in s.registry.loggedIn
    ensures !HasLogin(s.registry.loggedIn, id)
  {
    hide HasLogin;
  }

  lemma FrameLogin(s: Server, l: ServerStep)
    requires CanStep(s, l) && l.Frame? && LoginInv(s)
    ensures LoginInv(AfterProcess(s, l))
  {
    hide Process, LoginsInv, ConnectedInv, CanPick, LoginMoved, LoginMoveOf;
    var x := SessionOf(s, l.id);
    var x' := Process(x, l.id, l.message, l.pick);
    var v := LoginMoveOf(x, l.message);
    ProcessLogins(x, l.id, l.message, l.pick);
    assert ConnectedInv(s, l.id);
    if v.LogsIn? { LoginFree(s, l.id, l.message); }
    LogInLogins(s, l.id, x', v);
    forall c ensures ConnectedInv(AfterProcess(s, l), c) {
      assert ConnectedInv(s, c);
      LogInConnected(s, l.id, x', v, c);
    }
  }

  lemma SameLogin(s: Server, s': Server)
    requires LoginInv(s) && s'.registry.loggedIn == s.registry.loggedIn && s'.protos == s.protos
    requires s'.registry.credentials == s.registry.credentials
    ensures LoginInv(s')
  {
    hide HasLogin;
    forall c ensures ConnectedInv(s', c) { assert ConnectedInv(s, c); }
  }

  lemma AcceptLogin(s: Server)
    requires RosterInv(s) && LoginInv(s)
    ensures LoginInv(Step(s, Accept))
  {
    var s' := Step(s, Accept);
    assert s.nextId !in s.protos;
    forall c ensures ConnectedInv(s', c) { assert ConnectedInv(s, c); }
  }

  lemma LoginStep(s: Server, l: ServerStep)
    requires CanStep(s, l) && RosterInv(s) && ChannelsInv(s) && LoginInv(s)
    ensures LoginInv(Step(s, l))
  {
    hide Process, LoginInv, Close, CanPick, RosterInv, NoRepeats, MemberInv;
    match l {
      case Accept => AcceptLogin(s);
      case Abrupt(id) =>
        CloseLogin(s, id);
        SameLogin(s, Close(s, id));
      case Frame(id, _, _) =>
        FrameLogin(s, l);
        FrameRepeats(s, l);
        var s' := AfterProcess(s, l);
        CloseLogin(s', id);
        SameLogin(s', Close(s', id));
    }
  }

  // ------------------------------------------------------------------ the roster

  lemma RosterStep(s: Server, l: ServerStep)
    requires CanStep(s, l) && RosterInv(s) && ChannelsInv(s)
    ensures RosterInv(Step(s, l))
  {
    hide Process, CanPick, NoRepeats, MemberInv, LoginMoveOf, Disconnect;
    match l {
      case Accept =>
      case Abrupt(id) => CloseRoster(s, id);
      case Frame(id, m, pick) =>
        FrameRepeats(s, l);
        ProcessLogins(SessionOf(s, id), id, m, pick);
        CloseRoster(AfterProcess(s, l), id);
    }
  }

  lemma CloseRoster(s: Server, id: Id)
    requires RosterInv(s) && NoRepeats(s.registry.channels) && id in s.protos
    ensures RosterInv(Close(s, id))
  {
    hide Close, NoRepeats;
    CloseLogin(s, id);
    assert Close(s, id).closed == s.closed + {id} by { JustClosed(s, id); }
  }

  lemma JustClosed(s: Server, id: Id)
    ensures Close(s, id).closed == s.closed + {id}
  {
  }

  // ------------------------------------------------------------------ what is delivered

  lemma {:induction false} SendEachOutbox(r: Registry, ids: seq<Id>, m: StompMessage, c: Id)
    requires NoRepeat(ids)
    ensures Outbox(SendEach(r, ids, m), c) == Outbox(r, c) + if c in ids && c in r.clients then [m] else []
    decreases |ids|
  {
    if ids != [] {
      assert NoRepeat(ids[1..]) by { assert forall i, j | 1 <= i < j < |ids| :: ids[i] != ids[j]; }
      assert ids[0] !in ids[1..];
      SendEachOutbox(SendTo(r, ids[0], m), ids[1..], m, c);
    }
  }

  predicate Accepts(x: Session, m: StompMessage) { m.command == "SEND" && Sends(x.proto, m) }

  /** What an accepted SEND gives the handler of `c`. */
  function Receives(x: Session, m: StompMessage, c: Id): seq<StompMessage>
    requires Accepts(x, m)
  {
    if c in Subscribers(x.registry.channels, m.headers["destination"]) && c in x.registry.clients
    then [MessageFrame(x.proto, m, Incremented(x.counter))] else []
  }

  /** An accepted SEND: one MESSAGE for every registered subscriber, and nothing for anybody else. */
  lemma AcceptedSend(x: Session, id: Id, m: StompMessage, pick: string, c: Id)
    requires Accepts(x, m) && NoRepeats(x.registry.channels)
    ensures var x' := Process(x, id, m, pick);
            && Outbox(x'.registry, c) == Outbox(x.registry, c) + Receives(x, m, c)
            && x' == x.(registry := x'.registry, counter := Incremented(x.counter))
            && x'.registry == x.registry.(outbox := x'.registry.outbox)
  {
    hide SendEach, MessageFrame;
    var subscribers := Subscribers(x.registry.channels, m.headers["destination"]);
    assert NoRepeat(subscribers) by { EmptyNoRepeat(); }
    SendEachOutbox(x.registry, subscribers, MessageFrame(x.proto, m, Incremented(x.counter)), c);
  }

  /** At most one frame, and no MESSAGE, is added. */
  ghost predicate Reply(before: seq<StompMessage>, after: seq<StompMessage>)
  {
    after == before || (|after| == |before| + 1 && before <= after && after[|before|].command != "MESSAGE")
  }

  lemma SentToOne(r: Registry, id: Id, m: StompMessage, c: Id)
    ensures Outbox(SendTo(r, id, m), c) == Outbox(r, c) + if c == id && id in r.clients then [m] else []
  {
  }

  /** `c` got at most a reply, and that only if it is the sender. */
  ghost predicate Replied(x: Session, x': Session, id: Id, c: Id)
  {
    && x'.counter == x.counter
    && Reply(Outbox(x.registry, c), Outbox(x'.registry, c))
    && (c != id ==> Outbox(x'.registry, c) == Outbox(x.registry, c))
  }

  lemma ReplyOne(x: Session, x': Session, id: Id, f: StompMessage, c: Id)
    requires f.command != "MESSAGE" && x'.counter == x.counter
    requires Outbox(x'.registry, c) == Outbox(SendTo(x.registry, id, f), c)
    ensures Replied(x, x', id, c)
  {
    hide SendTo, Outbox;
    SentToOne(x.registry, id, f, c);
  }

  lemma ErrorReplies(x: Session, id: Id, f: Fault, c: Id)
    ensures Replied(x, HandleError(x, id, f), id, c)
  {
    hide Replied, SendTo;
    ReplyOne(x, HandleError(x, id, f), id, ErrorFrame(f), c);
  }

  lemma ConnectReplies(x: Session, id: Id, m: StompMessage, c: Id)
    ensures Replied(x, HandleConnect(x, id, m), id, c)
  {
    hide HandleError, Connected, Replied;
    forall f ensures Replied(x, HandleError(x, id, f), id, c) { ErrorReplies(x, id, f, c); }
    forall login, passcode ensures Replied(x, Connected(x, id, login, passcode), id, c) {
      ConnectedReplies(x, id, login, passcode, c);
    }
  }

  lemma ConnectedReplies(x: Session, id: Id, login: string, passcode: string, c: Id)
    ensures Replied(x, Connected(x, id, login, passcode), id, c)
  {
    hide PutIfAbsent;
  }

  lemma OtherReplies(x: Session, id: Id, m: StompMessage, pick: string, c: Id)
    ensures Replied(x, HandleSubscribe(x, id, m), id, c) && Replied(x, HandleUnsubscribe(x, id, m, pick), id, c)
    ensures !Sends(x.proto, m) ==> Replied(x, HandleSend(x, id, m), id, c)
  {
    hide HandleError, ParseInt, Numbered, Subscribe, Unsubscribe, Published;
    forall f ensures Replied(x, HandleError(x, id, f), id, c) { ErrorReplies(x, id, f, c); }
  }

  lemma DisconnectReplies(x: Session, id: Id, m: StompMessage, c: Id)
    ensures Replied(x, HandleDisconnect(x, id, m), id, c)
  {
    hide HandleError, Replied, SendTo, Logout;
    forall f ensures Replied(x, HandleError(x, id, f), id, c) { ErrorReplies(x, id, f, c); }
    if "receipt" in m.headers && x.proto.isConnected {
      ReplyOne(x, HandleDisconnect(x, id, m), id,
               StompMessage("RECEIPT", map["receipt-id" := m.headers["receipt"]], ""), c);
    }
  }

  /** Any other frame only ever answers its sender. */
  lemma OnlyReplies(x: Session, id: Id, m: StompMessage, pick: string, c: Id)
    requires !Accepts(x, m)
    ensures Replied(x, Process(x, id, m, pick), id, c)
  {
    hide HandleConnect, HandleSend, HandleSubscribe, HandleUnsubscribe, HandleDisconnect, HandleError, Replied, Sends;
    if m.command == "CONNECT" { ConnectReplies(x, id, m, c); }
    else if m.command == "DISCONNECT" { DisconnectReplies(x, id, m, c); }
    else if m.command == "SEND" || m.command == "SUBSCRIBE" || m.command == "UNSUBSCRIBE" {
      OtherReplies(x, id, m, pick, c);
    } else { ErrorReplies(x, id, UnknownCommand(m.command), c); }
  }

  /** The first of the four tests of `handleSend` that a frame fails. */
  function SendFault(p: Proto, m: StompMessage): Fault
    requires !Sends(p, m)
  {
    if "destination" !in m.headers || m.headers["destination"] == "" then NoDestination
    else if m.body == "" then NoBody
    else if m.headers["destination"] !in p.subscriptions then NotSubscribed(m.headers["destination"])
    else NoUser
  }

  /** A refused SEND changes nothing but what its sender is told: the first test it failed. */
  lemma RefusedSend(x: Session, id: Id, m: StompMessage, pick: string)
    requires m.command == "SEND" && !Accepts(x, m)
    ensures Process(x, id, m, pick)
         == x.(registry := SendTo(x.registry, id, ErrorFrame(SendFault(x.proto, m))))
  {
    hide SendTo, ErrorFrame, Published;
    assert HandleError(x, id, SendFault(x.proto, m))
        == x.(registry := SendTo(x.registry, id, ErrorFrame(SendFault(x.proto, m))));
  }
}
