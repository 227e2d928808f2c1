/**
 * The STOMP server of the reactor, one frame at a time: the registry of ConnectionsImpl, the session of
 * StompMessagingProtocolImpl, and the steps that the handler of a connection makes with them.
 */
module Broker {
  import opened Text
  import opened Decimal
  import opened StompFrame

  type Id = int

  // ------------------------------------------------------------------ the registry

  /**
   * `clients` are the ids with a registered handler, `channels` the subscriber lists, `outbox` what each
   * handler was ever given to send.
   */
  datatype Registry = Registry(
    clients: set<Id>,
    channels: map<string, seq<Id>>,
    credentials: map<string, string>,
    loggedIn: map<string, Id>,
    outbox: map<Id, seq<StompMessage>>)

  function Outbox(r: Registry, id: Id): seq<StompMessage> { if id in r.outbox then r.outbox[id] else [] }

  function Subscribers(channels: map<string, seq<Id>>, d: string): seq<Id>
  {
    if d in channels then channels[d] else []
  }

  /** A message to one connection; it is dropped when no handler is registered. */
  function SendTo(r: Registry, id: Id, m: StompMessage): (r': Registry)
    ensures r'.clients == r.clients && r'.channels == r.channels
    ensures r'.credentials == r.credentials && r'.loggedIn == r.loggedIn
  {
    if id in r.clients then r.(outbox := r.outbox[id := Outbox(r, id) + [m]]) else r
  }

  function SendEach(r: Registry, ids: seq<Id>, m: StompMessage): (r': Registry)
    ensures r'.clients == r.clients && r'.channels == r.channels
    ensures r'.credentials == r.credentials && r'.loggedIn == r.loggedIn
    decreases |ids|
  {
    if ids == [] then r else SendEach(SendTo(r, ids[0], m), ids[1..], m)
  }

  function RemoveFirst(ids: seq<Id>, id: Id): seq<Id>
  {
    if ids == [] then [] else if ids[0] == id then ids[1..] else [ids[0]] + RemoveFirst(ids[1..], id)
  }

  function Strip(channels: map<string, seq<Id>>, id: Id): map<string, seq<Id>>
  {
    map d | d in channels :: RemoveFirst(channels[d], id)
  }

  /** `disconnect` takes the handler out and closes it, and closing a handler disconnects it again. */
  function Disconnect(r: Registry, id: Id): Registry
    decreases |r.clients|
  {
    var stripped := r.(channels := Strip(r.channels, id));
    if id in r.clients then Disconnect(stripped.(clients := r.clients - {id}), id) else stripped
  }

  function Subscribe(channels: map<string, seq<Id>>, id: Id, d: string): map<string, seq<Id>>
  {
    channels[d := Subscribers(channels, d) + [id]]
  }

  function Unsubscribe(channels: map<string, seq<Id>>, id: Id, d: string): map<string, seq<Id>>
  {
    if d !in channels then channels else
    var left := RemoveFirst(channels[d], id);
    if left == [] then channels - {d} else channels[d := left]
  }

  function PutIfAbsent<V>(m: map<string, V>, k: string, v: V): map<string, V> { if k in m then m else m[k := v] }

  function Logout(loggedIn: map<string, Id>, id: Id): map<string, Id>
  {
    map login | login in loggedIn && loggedIn[login] != id :: loggedIn[login]
  }

  function AddClient(r: Registry, id: Id): Registry
  {
    r.(clients := r.clients + {id}, outbox := r.outbox[id := Outbox(r, id)])
  }

  // ------------------------------------------------------------------ one session

  datatype Proto = Proto(isConnected: bool, shouldTerminate: bool, subscriptions: map<string, int>)

  /** What one call of `process` can read and change: the registry, the session and the message counter. */
  datatype Session = Session(registry: Registry, proto: Proto, counter: int)

  const SUPPORTED_VERSION := "1.2"
  const VALID_HOST := "stomp.cs.bgu.ac.il"

  function Get(m: StompMessage, key: string): Option<string>
  {
    if key in m.headers then Some(m.headers[key]) else None
  }

  /** Why a frame is refused. */
  datatype Fault =
    | AlreadyConnected | BadVersion | BadHost | NoLogin | WrongPassword(login: string) | LoggedInElsewhere
    | NoSubscriptionId | BadSubscriptionId | NoUnsubscribeId | BadUnsubscribeId
    | NoDestination | NoBody | NotSubscribed(destination: string) | NoUser
    | NoReceipt | NotLoggedIn | UnknownCommand(command: string)

  /** The `message` header and the body of the ERROR frame. */
  function Texts(f: Fault): (string, string)
  {
    match f
    case AlreadyConnected =>
      ("Client is already connected", "client is already connected, logout before trying to login")
    case BadVersion =>
      ("accept-version is invalid or missing", "version is invalid or missing, expected version: " + SUPPORTED_VERSION)
    case BadHost => ("host is invalid or missing", "host is invalid or missing, expected host: " + VALID_HOST)
    case NoLogin => ("login or passcode are missing", "need to enter login and passcode")
    case WrongPassword(login) => ("Incorrect password", "Incorrect password for existing user: " + login)
    case LoggedInElsewhere => ("User is already logged in", "User is already logged in")
    case NoSubscriptionId => ("destination or id are missing", "destination or id are null")
    case BadSubscriptionId => ("Invalid 'id': must be an integer", "id must be an integer")
    case NoUnsubscribeId => ("id is missing", "id is missing")
    case BadUnsubscribeId => ("id must be an integer", "id must be an integer")
    case NoDestination =>
      ("destination header is empty in SEND frame", "The SEND frame must contain a destination header")
    case NoBody => ("message body is empty in SEND frame", "The SEND frame must contain a non-empty message body")
    case NotSubscribed(d) => ("Client is not subscribed to: " + d, "Client is not subscribed to: " + d)
    case NoUser => ("user not found in message body", "The SEND frame must contain a 'user' in the message body")
    case NoReceipt => ("receiptID is missing", "receiptID is missing")
    case NotLoggedIn => ("user is not logged in", "user is not logged in, need to login first")
    case UnknownCommand(command) =>
      ("Unknown command: " + command, "The command " + command + " is not recognized")
  }

  function ErrorFrame(f: Fault): StompMessage
  {
    StompMessage("ERROR", map["message" := Texts(f).0], Texts(f).1)
  }

  function HandleError(x: Session, id: Id, f: Fault): Session
  {
    x.(registry := SendTo(x.registry, id, ErrorFrame(f)))
  }

  function Connected(x: Session, id: Id, login: string, passcode: string): Session
  {
    var r := x.registry.(credentials := PutIfAbsent(x.registry.credentials, login, passcode),
                         loggedIn := PutIfAbsent(x.registry.loggedIn, login, id));
    var frame := StompMessage("CONNECTED", map["version" := SUPPORTED_VERSION], "");
    x.(registry := SendTo(AddClient(r, id), id, frame), proto := x.proto.(isConnected := true))
  }

  function HandleConnect(x: Session, id: Id, m: StompMessage): Session
  {
    var login, passcode := Get(m, "login"), Get(m, "passcode");
    if x.proto.isConnected then HandleError(x, id, AlreadyConnected)
    else if Get(m, "accept-version") != Some(SUPPORTED_VERSION) then HandleError(x, id, BadVersion)
    else if Get(m, "host") != Some(VALID_HOST) then HandleError(x, id, BadHost)
    else if login == None || passcode == None then HandleError(x, id, NoLogin)
    else if login.value in x.registry.credentials && x.registry.credentials[login.value] != passcode.value then
      HandleError(x, id, WrongPassword(login.value))
    else if login.value in x.registry.credentials && login.value in x.registry.loggedIn then
      HandleError(x, id, LoggedInElsewhere)
    else Connected(x, id, login.value, passcode.value)
  }

  /** The destination a SUBSCRIBE frame names; a missing header is the text "null". */
  function SubscribeDestination(m: StompMessage): string
  {
    "/" + if "destination" in m.headers then m.headers["destination"] else "null"
  }

  function Subscribed(x: Session, id: Id, d: string, n: int): Session
  {
    x.(proto := x.proto.(subscriptions := x.proto.subscriptions[d := n]),
       registry := x.registry.(channels := Subscribe(x.registry.channels, id, d)))
  }

  function HandleSubscribe(x: Session, id: Id, m: StompMessage): Session
  {
    var d := SubscribeDestination(m);
    if "id" !in m.headers then HandleError(x, id, NoSubscriptionId)
    else if d in x.proto.subscriptions then x
    else
      match ParseInt(m.headers["id"])
      case None => HandleError(x, id, BadSubscriptionId)
      case Some(n) => Subscribed(x, id, d, n)
  }

  /** Some destination is subscribed with this number. */
  predicate Numbered(subscriptions: map<string, int>, n: int)
  {
    exists d :: d in subscriptions && subscriptions[d] == n
  }

  function Unsubscribed(x: Session, id: Id, d: string): Session
  {
    x.(proto := x.proto.(subscriptions := x.proto.subscriptions - {d}),
       registry := x.registry.(channels := Unsubscribe(x.registry.channels, id, d)))
  }

  /** `pick` is the destination the iteration over the subscriptions meets first. */
  function HandleUnsubscribe(x: Session, id: Id, m: StompMessage, pick: string): Session
  {
    if "id" !in m.headers then HandleError(x, id, NoUnsubscribeId)
    else
      match ParseInt(m.headers["id"])
      case None => HandleError(x, id, BadUnsubscribeId)
      case Some(n) => if Numbered(x.proto.subscriptions, n) then Unsubscribed(x, id, pick) else x
  }

  /** `pick` is a destination the loop of `handleUnsubscribe` can stop at. */
  predicate CanPick(p: Proto, m: StompMessage, pick: string)
  {
    m.command == "UNSUBSCRIBE" && "id" in m.headers ==>
      match ParseInt(m.headers["id"])
      case None => true
      case Some(n) => Numbered(p.subscriptions, n) ==> pick in p.subscriptions && p.subscriptions[pick] == n
  }

  /** The four tests of `handleSend`. */
  predicate Sends(p: Proto, m: StompMessage)
  {
    && "destination" in m.headers && m.headers["destination"] != ""
    && m.body != ""
    && m.headers["destination"] in p.subscriptions
    && "user" in m.headers && m.headers["user"] != ""
  }

  /** The MESSAGE frame for an accepted SEND; it carries the sender's subscription number. */
  function MessageFrame(p: Proto, m: StompMessage, messageId: int): StompMessage
    requires Sends(p, m)
  {
    var d := m.headers["destination"];
    StompMessage("MESSAGE",
                 map["destination" := d, "subscription" := ToDecimal(p.subscriptions[d]),
                     "user" := m.headers["user"], "message-id" := ToDecimal(messageId)],
                 m.body)
  }

  function Published(x: Session, m: StompMessage): Session
    requires Sends(x.proto, m)
  {
    var n := Incremented(x.counter);
    var d := m.headers["destination"];
    x.(counter := n,
       registry := SendEach(x.registry, Subscribers(x.registry.channels, d), MessageFrame(x.proto, m, n)))
  }

  function HandleSend(x: Session, id: Id, m: StompMessage): Session
  {
    var d := Get(m, "destination");
    if d == None || d.value == "" then HandleError(x, id, NoDestination)
    else if m.body == "" then HandleError(x, id, NoBody)
    else if d.value !in x.proto.subscriptions then HandleError(x, id, NotSubscribed(d.value))
    else if Get(m, "user") == None || Get(m, "user").value == "" then HandleError(x, id, NoUser)
    else Published(x, m)
  }

  function HandleDisconnect(x: Session, id: Id, m: StompMessage): Session
  {
    if "receipt" !in m.headers then HandleError(x, id, NoReceipt)
    else if !x.proto.isConnected then HandleError(x, id, NotLoggedIn)
    else
      var frame := StompMessage("RECEIPT", map["receipt-id" := m.headers["receipt"]], "");
      var r := SendTo(x.registry, id, frame);
      x.(registry := r.(loggedIn := Logout(r.loggedIn, id)), proto := Proto(false, true, map[]))
  }

  function Process(x: Session, id: Id, m: StompMessage, pick: string): Session
  {
    if m.command == "CONNECT" then HandleConnect(x, id, m)
    else if m.command == "SEND" then HandleSend(x, id, m)
    else if m.command == "SUBSCRIBE" then HandleSubscribe(x, id, m)
    else if m.command == "UNSUBSCRIBE" then HandleUnsubscribe(x, id, m, pick)
    else if m.command == "DISCONNECT" then HandleDisconnect(x, id, m)
    else HandleError(x, id, UnknownCommand(m.command))
  }

  // ------------------------------------------------------------------ the server

  /** `closed` are the connections whose handler was closed; frames read before may still be processed. */
  datatype Server = Server(
    registry: Registry,
    protos: map<Id, Proto>,
    closed: set<Id>,
    counter: int,
    nextId: Id)

  datatype ServerStep =
    | Accept                                             // handleAccept
    | Frame(id: Id, message: StompMessage, pick: string) // process, then close if the session wants to end
    | Abrupt(id: Id)                                     // read returned -1: close

  predicate CanStep(s: Server, l: ServerStep)
  {
    match l
    case Accept => true
    case Frame(id, m, pick) => id in s.protos && CanPick(s.protos[id], m, pick)
    case Abrupt(id) => id in s.protos
  }

  function SessionOf(s: Server, id: Id): Session
    requires id in s.protos
  {
    Session(s.registry, s.protos[id], s.counter)
  }

  function Resumed(s: Server, id: Id, x: Session): Server
  {
    s.(registry := x.registry, protos := s.protos[id := x.proto], counter := x.counter)
  }

  function Close(s: Server, id: Id): Server
  {
    s.(registry := Disconnect(s.registry, id), closed := s.closed + {id})
  }

  function Step(s: Server, l: ServerStep): Server
    requires CanStep(s, l)
  {
    match l
    case Accept =>
      s.(registry := AddClient(s.registry, s.nextId), protos := s.protos[s.nextId := Proto(false, false, map[])],
         nextId := s.nextId + 1)
    case Frame(id, m, pick) =>
      var x := Process(SessionOf(s, id), id, m, pick);
      var s' := Resumed(s, id, x);
      if x.proto.shouldTerminate then Close(s', id) else s'
    case Abrupt(id) => Close(s, id)
  }

  ghost predicate Initial(s: Server)
  {
    s == Server(Registry({}, map[], map[], map[], map[]), map[], {}, 0, 0)
  }
}
