/**
 * What every frame is answered, in the server's own words, and what an accepted one does: each test with the
 * text it fails with, and each answer header by header.
 */
module BrokerAnswers {
  import opened Text
  import opened Decimal
  import opened StompFrame
  import opened Broker
  import opened BrokerSteps
  import opened BrokerRuns

  // ------------------------------------------------------------------ the tests and their texts

  /** The `message` header and the body of an ERROR frame. */
  type Words = (string, string)

  /** The first test that a CONNECT frame fails. */
  function ConnectRefusal(x: Session, m: StompMessage): Option<Words>
  {
    var login, passcode := Get(m, "login"), Get(m, "passcode");
    if x.proto.isConnected then
      Some(("Client is already connected", "client is already connected, logout before trying to login"))
    else if Get(m, "accept-version") != Some("1.2") then
      Some(("accept-version is invalid or missing", "version is invalid or missing, expected version: 1.2"))
    else if Get(m, "host") != Some("stomp.cs.bgu.ac.il") then
      Some(("host is invalid or missing", "host is invalid or missing, expected host: stomp.cs.bgu.ac.il"))
    else if login == None || passcode == None then
      Some(("login or passcode are missing", "need to enter login and passcode"))
    else if login.value !in x.registry.credentials then None
    else if x.registry.credentials[login.value] != passcode.value then
      Some(("Incorrect password", "Incorrect password for existing user: " + login.value))
    else if login.value in x.registry.loggedIn then Some(("User is already logged in", "User is already logged in"))
    else None
  }

  function SendRefusal(x: Session, m: StompMessage): Option<Words>
  {
    var d, user := Get(m, "destination"), Get(m, "user");
    if d == None || d == Some("") then
      Some(("destination header is empty in SEND frame", "The SEND frame must contain a destination header"))
    else if m.body == "" then
      Some(("message body is empty in SEND frame", "The SEND frame must contain a non-empty message body"))
    else if d.value !in x.proto.subscriptions then
      Some(("Client is not subscribed to: " + d.value, "Client is not subscribed to: " + d.value))
    else if user == None || user == Some("") then
      Some(("user not found in message body", "The SEND frame must contain a 'user' in the message body"))
    else None
  }

  /** The channel of a SUBSCRIBE frame, which may lack the header. */
  function Channel(m: StompMessage): string
  {
    match Get(m, "destination") case None => "/null" case Some(d) => "/" + d
  }

  function SubscribeRefusal(x: Session, m: StompMessage): Option<Words>
  {
    if Get(m, "id") == None then Some(("destination or id are missing", "destination or id are null"))
    else if Channel(m) in x.proto.subscriptions || ParseInt(Get(m, "id").value).Some? then None
    else Some(("Invalid 'id': must be an integer", "id must be an integer"))
  }

  function UnsubscribeRefusal(m: StompMessage): Option<Words>
  {
    if Get(m, "id") == None then Some(("id is missing", "id is missing"))
    else if ParseInt(Get(m, "id").value).Some? then None
    else Some(("id must be an integer", "id must be an integer"))
  }

  function DisconnectRefusal(x: Session, m: StompMessage): Option<Words>
  {
    if Get(m, "receipt") == None then Some(("receiptID is missing", "receiptID is missing"))
    else if !x.proto.isConnected then
      Some(("user is not logged in", "user is not logged in, need to login first"))
    else None
  }

  /** Why a frame is refused, if it is. */
  function Refusal(x: Session, m: StompMessage): Option<Words>
  {
    match m.command
    case "CONNECT" => ConnectRefusal(x, m)
    case "SEND" => SendRefusal(x, m)
    case "SUBSCRIBE" => SubscribeRefusal(x, m)
    case "UNSUBSCRIBE" => UnsubscribeRefusal(m)
    case "DISCONNECT" => DisconnectRefusal(x, m)
    case _ =>
      Some(("Unknown command: " + m.command, "The command " + m.command + " is not recognized"))
  }

  // ------------------------------------------------------------------ who gets what

  /** The handler of `id`, if there is one, was given exactly these frames, and nobody else anything. */
  ghost predicate Gets(x: Session, x': Session, id: Id, frames: seq<StompMessage>)
  {
    forall c :: Outbox(x'.registry, c)
             == Outbox(x.registry, c) + if c == id && id in x.registry.clients then frames else []
  }

  /** And nothing else has changed at all. */
  ghost predicate OnlyGets(x: Session, x': Session, id: Id, frames: seq<StompMessage>)
  {
    && Gets(x, x', id, frames)
    && x' == x.(registry := x.registry.(outbox := x'.registry.outbox))
  }

  lemma SentIsGot(x: Session, x': Session, id: Id, frame: StompMessage)
    requires x'.registry.outbox == SendTo(x.registry, id, frame).outbox
    ensures Gets(x, x', id, [frame])
  {
    hide SendTo;
    forall c ensures Outbox(x'.registry, c)
                  == Outbox(x.registry, c) + if c == id && id in x.registry.clients then [frame] else [] {
      SentToOne(x.registry, id, frame, c);
      assert Outbox(x'.registry, c) == Outbox(SendTo(x.registry, id, frame), c);
    }
  }

  lemma ErrorIsGot(x: Session, id: Id, f: Fault, words: Words)
    requires Texts(f) == words
    ensures OnlyGets(x, HandleError(x, id, f), id, [StompMessage("ERROR", map["message" := words.0], words.1)])
  {
    hide Texts, Gets;
    SentIsGot(x, HandleError(x, id, f), id, ErrorFrame(f));
  }

  lemma ExpectedWords()
    ensures "version is invalid or missing, expected version: " + SUPPORTED_VERSION
         == "version is invalid or missing, expected version: 1.2"
    ensures "host is invalid or missing, expected host: " + VALID_HOST
         == "host is invalid or missing, expected host: stomp.cs.bgu.ac.il"
  {
  }

  lemma RefusedConnect(x: Session, id: Id, m: StompMessage) returns (f: Fault)
    requires ConnectRefusal(x, m).Some?
    ensures HandleConnect(x, id, m) == HandleError(x, id, f) && Texts(f) == ConnectRefusal(x, m).value
  {
    hide HandleError, Connected;
    ExpectedWords();
    var login, passcode := Get(m, "login"), Get(m, "passcode");
    f := if x.proto.isConnected then AlreadyConnected
         else if Get(m, "accept-version") != Some(SUPPORTED_VERSION) then BadVersion
         else if Get(m, "host") != Some(VALID_HOST) then BadHost
         else if login == None || passcode == None then NoLogin
         else if x.registry.credentials[login.value] != passcode.value then WrongPassword(login.value)
         else LoggedInElsewhere;
  }

  lemma RefusedSendWords(x: Session, id: Id, m: StompMessage) returns (f: Fault)
    requires SendRefusal(x, m).Some?
    ensures HandleSend(x, id, m) == HandleError(x, id, f) && Texts(f) == SendRefusal(x, m).value
    ensures !Sends(x.proto, m)
  {
    hide HandleError, Published;
    f := if Get(m, "destination") == None || Get(m, "destination") == Some("") then NoDestination
         else if m.body == "" then NoBody
         else if m.headers["destination"] !in x.proto.subscriptions then NotSubscribed(m.headers["destination"])
         else NoUser;
  }

  lemma RefusedSubscribe(x: Session, id: Id, m: StompMessage) returns (f: Fault)
    requires SubscribeRefusal(x, m).Some?
    ensures HandleSubscribe(x, id, m) == HandleError(x, id, f) && Texts(f) == SubscribeRefusal(x, m).value
  {
    hide HandleError, ParseInt, Subscribed;
    assert SubscribeDestination(m) == Channel(m) by { ChannelIs(m); }
    f := if "id" in m.headers then BadSubscriptionId else NoSubscriptionId;
  }

  lemma ChannelIs(m: StompMessage)
    ensures SubscribeDestination(m) == Channel(m)
  {
  }

  lemma RefusedUnsubscribe(x: Session, id: Id, m: StompMessage, pick: string) returns (f: Fault)
    requires UnsubscribeRefusal(m).Some?
    ensures HandleUnsubscribe(x, id, m, pick) == HandleError(x, id, f) && Texts(f) == UnsubscribeRefusal(m).value
  {
    hide HandleError, ParseInt, Numbered, Unsubscribed;
    f := if "id" in m.headers then BadUnsubscribeId else NoUnsubscribeId;
  }

  lemma RefusedDisconnect(x: Session, id: Id, m: StompMessage) returns (f: Fault)
    requires DisconnectRefusal(x, m).Some?
    ensures HandleDisconnect(x, id, m) == HandleError(x, id, f) && Texts(f) == DisconnectRefusal(x, m).value
  {
    hide HandleError, SendTo, Logout;
    f := if "receipt" in m.headers then NotLoggedIn else NoReceipt;
  }

  /** A refused frame gives its sender one ERROR frame, with the words of the first test it fails, and that is all. */
  lemma RefusedFrame(x: Session, id: Id, m: StompMessage, pick: string)
    requires Refusal(x, m).Some?
    ensures var (message, description) := Refusal(x, m).value;
            OnlyGets(x, Process(x, id, m, pick), id,
                     [StompMessage("ERROR", map["message" := message], description)])
  {
    hide HandleError, HandleConnect, HandleSend, HandleSubscribe, HandleUnsubscribe, HandleDisconnect, OnlyGets, Sends,
      ConnectRefusal, SendRefusal, SubscribeRefusal, UnsubscribeRefusal, DisconnectRefusal;
    var f := UnknownCommand(m.command);
    if m.command == "CONNECT" { f := RefusedConnect(x, id, m); }
    else if m.command == "SEND" { f := RefusedSendWords(x, id, m); }
    else if m.command == "SUBSCRIBE" { f := RefusedSubscribe(x, id, m); }
    else if m.command == "UNSUBSCRIBE" { f := RefusedUnsubscribe(x, id, m, pick); }
    else if m.command == "DISCONNECT" { f := RefusedDisconnect(x, id, m); }
    ErrorIsGot(x, id, f, Refusal(x, m).value);
  }

  // ------------------------------------------------------------------ accepted frames

  /** An accepted CONNECT: registered, logged in, and told so. */
  lemma AcceptedConnect(x: Session, id: Id, m: StompMessage, pick: string, c: Id)
    requires m.command == "CONNECT" && Refusal(x, m) == None
    ensures var x' := Process(x, id, m, pick);
            && Outbox(x'.registry, c)
               == Outbox(x.registry, c)
                  + (if c == id then [StompMessage("CONNECTED", map["version" := "1.2"], "")] else [])
            && id in x'.registry.clients && x'.proto == x.proto.(isConnected := true)
            && x'.registry.channels == x.registry.channels && x'.counter == x.counter
    ensures var x', login := Process(x, id, m, pick), m.headers["login"];
            && x'.registry.credentials == x.registry.credentials[login := m.headers["passcode"]]
            && (login !in x.registry.loggedIn ==> x'.registry.loggedIn == x.registry.loggedIn[login := id])
  {
    hide SendTo;
    SentToOne(AddClient(x.registry, id), id, StompMessage("CONNECTED", map["version" := "1.2"], ""), c);
    AcceptedSent(x, id, m, c);
  }

  lemma AcceptedSent(x: Session, id: Id, m: StompMessage, c: Id)
    requires ConnectRefusal(x, m) == None
    ensures Outbox(HandleConnect(x, id, m).registry, c)
         == Outbox(x.registry, c)
            + (if c == id then [StompMessage("CONNECTED", map["version" := "1.2"], "")] else [])
  {
    hide PutIfAbsent;
  }

  lemma AcceptedDisconnect(x: Session, id: Id, m: StompMessage, pick: string)
    requires m.command == "DISCONNECT" && Refusal(x, m) == None
    ensures var x' := Process(x, id, m, pick);
            && Gets(x, x', id, [StompMessage("RECEIPT", map["receipt-id" := m.headers["receipt"]], "")])
            && x'.proto == Proto(false, true, map[])
            && (forall login ::
                  login in x'.registry.loggedIn <==> login in x.registry.loggedIn && x.registry.loggedIn[login] != id)
  {
    hide SendTo;
    SentIsGot(x, Process(x, id, m, pick), id,
              StompMessage("RECEIPT", map["receipt-id" := m.headers["receipt"]], ""));
  }

  /** An accepted SUBSCRIBE is not answered; a new channel joins the subscriptions, and the sender the channel. */
  lemma AcceptedSubscribe(x: Session, id: Id, m: StompMessage, pick: string)
    requires m.command == "SUBSCRIBE" && Refusal(x, m) == None
    ensures var x', d := Process(x, id, m, pick), Channel(m);
            && Gets(x, x', id, [])
            && if d in x.proto.subscriptions then x' == x
               else
                 && ParseInt(m.headers["id"]).Some?
                 && x'.proto == x.proto.(subscriptions := x.proto.subscriptions[d := ParseInt(m.headers["id"]).value])
                 && forall e :: Subscribers(x'.registry.channels, e)
                             == Subscribers(x.registry.channels, e) + if e == d then [id] else []
  {
    hide ParseInt;
    assert SubscribeDestination(m) == Channel(m);
    forall e ensures Subscribers(Subscribe(x.registry.channels, id, Channel(m)), e)
                  == Subscribers(x.registry.channels, e) + if e == Channel(m) then [id] else [] {
      JoinOne(x.registry.channels, id, Channel(m), e);
    }
  }

  /**
   * An accepted UNSUBSCRIBE is not answered either; if a subscription has the number, one that has it goes,
   * the sender leaves its channel, and a channel that is left empty goes too.
   */
  lemma AcceptedUnsubscribe(x: Session, id: Id, m: StompMessage, pick: string)
    requires m.command == "UNSUBSCRIBE" && Refusal(x, m) == None && CanPick(x.proto, m, pick)
    requires NoRepeats(x.registry.channels)
    ensures var x', n := Process(x, id, m, pick), ParseInt(m.headers["id"]).value;
            && Gets(x, x', id, [])
            && if forall d <- x.proto.subscriptions :: x.proto.subscriptions[d] != n then x' == x
               else
                 && pick in x.proto.subscriptions && x.proto.subscriptions[pick] == n
                 && x'.proto == x.proto.(subscriptions := x.proto.subscriptions - {pick})
                 && LeftBy(x, x', id, pick)
  {
    hide ParseInt, NoRepeats, Unsubscribe;
    if Numbered(x.proto.subscriptions, ParseInt(m.headers["id"]).value) {
      Leaves(x, Process(x, id, m, pick), id, pick);
    }
  }

  ghost predicate LeftBy(x: Session, x': Session, id: Id, d: string)
  {
    && id !in Subscribers(x'.registry.channels, d)
    && (forall c | c != id :: c in Subscribers(x'.registry.channels, d) <==> c in Subscribers(x.registry.channels, d))
    && (forall e | e != d :: Subscribers(x'.registry.channels, e) == Subscribers(x.registry.channels, e))
    && (d in x'.registry.channels ==> x'.registry.channels[d] != [])
  }

  lemma Leaves(x: Session, x': Session, id: Id, d: string)
    requires x'.registry.channels == Unsubscribe(x.registry.channels, id, d) && NoRepeats(x.registry.channels)
    ensures LeftBy(x, x', id, d)
  {
    hide RemoveFirst, NoRepeat;
    var channels := x.registry.channels;
    RemoveFrom(channels, id, d);
    forall c | c != id ensures c in Subscribers(x'.registry.channels, d) <==> c in Subscribers(channels, d) {
      RemoveKeepsOthers(Subscribers(channels, d), id, c);
      LeaveOne(channels, id, d, d);
    }
    forall e | e != d ensures Subscribers(x'.registry.channels, e) == Subscribers(channels, e) {
      LeaveOne(channels, id, d, e);
    }
    LeaveOne(channels, id, d, d);
  }

  /** An accepted SEND: its MESSAGE, header by header, to every registered subscriber of the channel once. */
  lemma AcceptedSendIs(x: Session, id: Id, m: StompMessage, pick: string, c: Id)
    requires m.command == "SEND" && Refusal(x, m) == None && NoRepeats(x.registry.channels)
    ensures var x', d := Process(x, id, m, pick), m.headers["destination"];
            && d in x.proto.subscriptions
            && x'.counter == Incremented(x.counter) && x'.proto == x.proto
            && Outbox(x'.registry, c) == Outbox(x.registry, c) +
                 if c in Subscribers(x.registry.channels, d) && c in x.registry.clients
                 then [StompMessage("MESSAGE",
                                    map["destination" := d, "subscription" := ToDecimal(x.proto.subscriptions[d]),
                                        "user" := m.headers["user"], "message-id" := ToDecimal(x'.counter)],
                                    m.body)]
                 else []
  {
    hide ToDecimal, Process, NoRepeats;
    assert Accepts(x, m);
    AcceptedSend(x, id, m, pick, c);
  }

  // ------------------------------------------------------------------ over runs

  /** What a frame is answered; an accepted SEND is not, but published. */
  function Answer(x: Session, m: StompMessage): seq<StompMessage>
  {
    match Refusal(x, m)
    case Some((message, description)) => [StompMessage("ERROR", map["message" := message], description)]
    case None =>
      if m.command == "CONNECT" then [StompMessage("CONNECTED", map["version" := "1.2"], "")]
      else if m.command == "DISCONNECT" then [StompMessage("RECEIPT", map["receipt-id" := m.headers["receipt"]], "")]
      else []
  }

  lemma AnswerIsGot(x: Session, id: Id, m: StompMessage, pick: string, c: Id)
    requires CanPick(x.proto, m, pick) && NoRepeats(x.registry.channels)
    requires m.command == "SEND" ==> Refusal(x, m).Some?
    ensures Outbox(Process(x, id, m, pick).registry, c)
         == Outbox(x.registry, c)
            + if c == id && (id in x.registry.clients || (m.command == "CONNECT" && Refusal(x, m) == None))
              then Answer(x, m) else []
  {
    hide Process, Refusal, CanPick, NoRepeats;
    if Refusal(x, m).Some? { RefusedFrame(x, id, m, pick); }
    else if m.command == "CONNECT" { AcceptedConnect(x, id, m, pick, c); }
    else if m.command == "DISCONNECT" { AcceptedDisconnect(x, id, m, pick); }
    else if m.command == "SUBSCRIBE" { AcceptedSubscribe(x, id, m, pick); }
    else if m.command == "UNSUBSCRIBE" { AcceptedUnsubscribe(x, id, m, pick); }
    else { NoOther(x, m); }
  }

  lemma NoOther(x: Session, m: StompMessage)
    requires Refusal(x, m) == None
    ensures m.command in {"CONNECT", "SEND", "SUBSCRIBE", "UNSUBSCRIBE", "DISCONNECT"}
  {
    hide ConnectRefusal, SendRefusal, SubscribeRefusal, UnsubscribeRefusal, DisconnectRefusal;
  }

  /**
   * Every frame is answered, over runs: the sender of a frame, while it is registered, is given exactly its
   * answer, one ERROR frame if it is refused, one RECEIPT for an accepted DISCONNECT, one CONNECTED for an
   * accepted CONNECT, and nothing for SUBSCRIBE and UNSUBSCRIBE; and nobody else is given anything.
   */
  lemma EveryFrameIsAnswered(ss: seq<Server>, ls: seq<ServerStep>, i: nat, c: Id)
    requires IsServerRun(ss, ls) && i < |ls| && ls[i].Frame? && ls[i].id in ss[i].protos
    requires ls[i].message.command == "SEND" ==> Refusal(SessionOf(ss[i], ls[i].id), ls[i].message).Some?
    ensures var x, m, id := SessionOf(ss[i], ls[i].id), ls[i].message, ls[i].id;
            Outbox(ss[i + 1].registry, c)
            == Outbox(ss[i].registry, c)
               + if c == id && (id in ss[i].registry.clients || (m.command == "CONNECT" && Refusal(x, m) == None))
                 then Answer(x, m) else []
    ensures forall d | d in ss[i].protos && d != ls[i].id ::
              d in ss[i + 1].protos && ss[i + 1].protos[d] == ss[i].protos[d]
  {
    hide Process, Refusal, Answer, CanPick, NoRepeats, RosterInv, LoginInv, MemberInv, Disconnect;
    var l := ls[i];
    ServerRunInv(ss, ls, i);
    AnswerIsGot(SessionOf(ss[i], l.id), l.id, l.message, l.pick, c);
    FrameRepeats(ss[i], l);
    CloseLogin(AfterProcess(ss[i], l), l.id);
  }
}
