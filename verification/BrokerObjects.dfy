/**
 * The server's objects: the registry, the handlers it closes and that disconnect themselves again, the
 * sessions and the reactor's part in them, each method against the specification in Broker.
 */
module BrokerObjects {
  import opened Text
  import opened Decimal
  import opened StompFrame
  import opened Broker

  // ------------------------------------------------------------------ handlers and registry

  /** A connection handler as the registry sees it; `sent` is what it was given to send. */
  class ConnectionHandler {
    const connectionId: Id
    const connections: ConnectionsImpl
    var sent: seq<StompMessage>
    var open: bool

    constructor (connectionId: Id, connections: ConnectionsImpl)
      ensures this.connectionId == connectionId && this.connections == connections && sent == [] && open
    {
      this.connectionId, this.connections, sent, open := connectionId, connections, [], true;
    }

    method Send(msg: StompMessage)
      modifies `sent
      ensures sent == old(sent) + [msg]
    {
      sent := sent + [msg];
    }

    method Close()
      requires connections.Valid()
      requires connectionId in connections.handlers && connections.handlers[connectionId] == this
      modifies this`open, connections`clients, connections`channels, connections.handlers.Values`open
      ensures connections.Valid()
      ensures connections.View() == Disconnect(old(connections.View()), connectionId)
      ensures connections.Closed() == old(connections.Closed()) + {connectionId}
      decreases |connections.clients|, 1
    {
      hide Disconnect, ConnectionsImpl.View, ConnectionsImpl.Closed;
      open := false;
      connections.OneClosed(connectionId);
      connections.Disconnect(connectionId);
    }
  }

  class ConnectionsImpl {
    var clients: map<Id, ConnectionHandler>
    var channels: map<string, seq<Id>>
    var validCredentials: map<string, string>
    var currentlyLoggedIn: map<string, Id>
    /** History: every handler ever added. */
    ghost var handlers: map<Id, ConnectionHandler>

    constructor ()
      ensures Valid() && View() == Registry({}, map[], map[], map[], map[]) && handlers == map[]
    {
      clients, channels, validCredentials, currentlyLoggedIn, handlers := map[], map[], map[], map[], map[];
    }

    /** `clients[id]` is the handler that carries `id`. */
    ghost predicate Valid()
      reads this
    {
      && (forall id <- clients :: id in handlers && handlers[id] == clients[id])
      && (forall id <- handlers :: handlers[id].connectionId == id && handlers[id].connections == this)
    }

    ghost function View(): Registry
      reads this, handlers.Values
    {
      Registry(clients.Keys, channels, validCredentials, currentlyLoggedIn,
               map id | id in handlers :: handlers[id].sent)
    }

    ghost function Closed(): set<Id>
      reads this, handlers.Values
    {
      set id | id in handlers && !handlers[id].open
    }

    twostate predicate SameSent()
      reads this, handlers.Values
    {
      handlers == old(handlers) && forall c <- handlers :: handlers[c].sent == old(handlers[c].sent)
    }

    twostate predicate SameOpen(except: set<Id>)
      reads this, handlers.Values
    {
      && handlers == old(handlers)
      && forall c <- handlers :: c !in except ==> handlers[c].open == old(handlers[c].open)
    }

    twostate lemma OneClosed(id: Id)
      requires SameSent() && SameOpen({id}) && id in handlers && !handlers[id].open
      requires clients == old(clients) && channels == old(channels)
      requires validCredentials == old(validCredentials) && currentlyLoggedIn == old(currentlyLoggedIn)
      ensures View() == old(View()) && Closed() == old(Closed()) + {id}
    {
      SameOutbox();
      forall c ensures c in Closed() <==> c in old(Closed()) + {id} {
        if c in handlers && c != id { assert handlers[c].open == old(handlers[c].open); }
      }
    }

    twostate lemma SameOutbox()
      requires SameSent()
      ensures View().outbox == old(View()).outbox
    {
      forall c | c in View().outbox ensures View().outbox[c] == old(View()).outbox[c] {
        assert handlers[c].sent == old(handlers[c].sent);
      }
    }

    twostate lemma SameClosed()
      requires SameOpen({})
      ensures Closed() == old(Closed())
    {
      forall c ensures c in Closed() <==> c in old(Closed()) {
        if c in handlers { assert handlers[c].open == old(handlers[c].open); }
      }
    }

    twostate lemma TakenOut(id: Id)
      requires old(Valid()) && SameSent() && SameOpen({})
      requires clients == old(clients) - {id} && channels == Strip(old(channels), id)
      requires validCredentials == old(validCredentials) && currentlyLoggedIn == old(currentlyLoggedIn)
      ensures Valid() && Closed() == old(Closed())
      ensures View() == old(View()).(clients := old(View()).clients - {id}, channels := Strip(old(channels), id))
      ensures old(View()).clients == old(clients).Keys && old(View()).channels == old(channels)
    {
      hide Strip;
      SameOutbox();
      SameClosed();
    }

    method Send(connectionId: Id, msg: StompMessage) returns (found: bool)
      requires Valid()
      modifies handlers.Values`sent
      ensures View() == SendTo(old(View()), connectionId, msg)
      ensures found <==> connectionId in clients
    {
      if connectionId in clients {
        var handler := clients[connectionId];
        handler.Send(msg);
        assert forall c <- handlers :: c != connectionId ==> handlers[c].sent == old(handlers[c].sent);
        assert View().outbox == old(View()).outbox[connectionId := handler.sent];
        return true;
      }
      return false;
    }

    method SendToChannel(channel: string, msg: StompMessage)
      requires Valid()
      modifies handlers.Values`sent
      ensures View() == SendEach(old(View()), Subscribers(channels, channel), msg)
    {
      if channel in channels {
        var subscribers := channels[channel];
        var i := 0;
        assert subscribers[0..] == subscribers;
        while i < |subscribers|
          invariant 0 <= i <= |subscribers|
          invariant SendEach(View(), subscribers[i..], msg) == SendEach(old(View()), subscribers, msg)
        {
          assert subscribers[i..][1..] == subscribers[i + 1..];
          var _ := Send(subscribers[i], msg);
          i := i + 1;
        }
      }
    }

    method Disconnect(connectionId: Id)
      requires Valid()
      modifies `clients, `channels, handlers.Values`open
      ensures Valid() && View() == Broker.Disconnect(old(View()), connectionId)
      ensures Closed() == old(Closed()) + if connectionId in old(clients) then {connectionId} else {}
      decreases |clients|, 0
    {
      hide Strip, RemoveFirst, View, Closed;
      RemoveSubscriber(connectionId);
      if connectionId in clients {
        var connection := clients[connectionId];
        assert connection.connections == this;
        OneLess(clients, connectionId);
        clients := clients - {connectionId};
        TakenOut(connectionId);
        connection.Close();
      } else {
        TakenOut(connectionId);
      }
    }

    /** The loop over the subscriber lists. */
    method RemoveSubscriber(connectionId: Id)
      modifies `channels
      ensures channels == Strip(old(channels), connectionId)
    {
      var names := channels.Keys;
      while names != {}
        invariant names <= old(channels).Keys == channels.Keys
        invariant forall d <- channels ::
            channels[d] == if d in names then old(channels)[d] else RemoveFirst(old(channels)[d], connectionId)
        decreases |names|
      {
        var d :| d in names;
        channels := channels[d := RemoveFirst(channels[d], connectionId)];
        names := names - {d};
      }
    }

    method SubscribeToChannel(connectionId: Id, channel: string)
      modifies `channels
      ensures channels == Subscribe(old(channels), connectionId, channel)
    {
      if channel !in channels {
        channels := channels[channel := []];
      }
      channels := channels[channel := channels[channel] + [connectionId]];
    }

    method UnsubscribeFromChannel(connectionId: Id, destination: string)
      modifies `channels
      ensures channels == Unsubscribe(old(channels), connectionId, destination)
    {
      if destination in channels {
        var subscribers := RemoveFirst(channels[destination], connectionId);
        channels := channels[destination := subscribers];
        if subscribers == [] {
          channels := channels - {destination};
        }
      }
    }

    method LoginUser(login: string, connectionId: Id)
      modifies `currentlyLoggedIn
      ensures currentlyLoggedIn == PutIfAbsent(old(currentlyLoggedIn), login, connectionId)
    {
      if login !in currentlyLoggedIn {
        currentlyLoggedIn := currentlyLoggedIn[login := connectionId];
      }
    }

    method LogoutUser(connectionId: Id)
      modifies `currentlyLoggedIn
      ensures currentlyLoggedIn == Logout(old(currentlyLoggedIn), connectionId)
    {
      currentlyLoggedIn :=
        map login | login in currentlyLoggedIn && currentlyLoggedIn[login] != connectionId :: currentlyLoggedIn[login];
    }

    method AddValidCredentials(login: string, passcode: string)
      modifies `validCredentials
      ensures validCredentials == PutIfAbsent(old(validCredentials), login, passcode)
    {
      if login !in validCredentials {
        validCredentials := validCredentials[login := passcode];
      }
    }

    method AddClient(connectionId: Id, handler: ConnectionHandler)
      requires Valid() && handler.connectionId == connectionId && handler.connections == this
      requires connectionId in handlers ==> handlers[connectionId] == handler
      requires connectionId !in handlers ==> handler.sent == []
      modifies `clients, `handlers
      ensures Valid() && View() == Broker.AddClient(old(View()), connectionId)
      ensures handlers == old(handlers)[connectionId := handler]
    {
      hide View;
      clients := clients[connectionId := handler];
      handlers := handlers[connectionId := handler];
      HandlerAdded(connectionId, handler);
    }

    twostate lemma HandlerAdded(id: Id, new handler: ConnectionHandler)
      requires handlers == old(handlers)[id := handler] && clients == old(clients)[id := handler]
      requires forall c <- old(handlers) :: handlers[c].sent == old(handlers[c].sent)
      requires id !in old(handlers) ==> handler.sent == []
      requires channels == old(channels)
      requires validCredentials == old(validCredentials) && currentlyLoggedIn == old(currentlyLoggedIn)
      ensures View() == Broker.AddClient(old(View()), id)
    {
      var before, after := old(View()).outbox, View().outbox;
      forall c | c in after ensures after[c] == before[id := Outbox(old(View()), id)][c] {
        if c != id { assert handlers[c].sent == old(handlers[c].sent); }
      }
    }
  }

  lemma OneLess<V>(m: map<Id, V>, id: Id)
    requires id in m
    ensures |m - {id}| < |m|
  {
    assert m == (m - {id})[id := m[id]];
  }

  // ------------------------------------------------------------------ sessions

  class MessageCounter {
    var value: int

    constructor ()
      ensures value == 0
    {
      value := 0;
    }

    method IncrementAndGet() returns (r: int)
      modifies this
      ensures r == value == Incremented(old(value))
    {
      value := if value == MAX_INT then MIN_INT else value + 1;
      return value;
    }
  }

  class StompMessagingProtocolImpl {
    const connectionId: Id
    const connections: ConnectionsImpl
    const handler: ConnectionHandler
    const messageCounter: MessageCounter
    var shouldTerminate: bool
    var isConnected: bool
    var subscriptions: map<string, int>

    constructor (connectionId: Id, connections: ConnectionsImpl, handler: ConnectionHandler,
                 messageCounter: MessageCounter)
      ensures this.connectionId == connectionId && this.connections == connections && this.handler == handler
      ensures this.messageCounter == messageCounter && View() == Proto(false, false, map[])
    {
      this.connectionId, this.connections, this.handler := connectionId, connections, handler;
      this.messageCounter, shouldTerminate, isConnected, subscriptions := messageCounter, false, false, map[];
    }

    ghost function View(): Proto
      reads this
    {
      Proto(isConnected, shouldTerminate, subscriptions)
    }

    ghost function SessionView(): Session
      reads this, connections, connections.handlers.Values, messageCounter
    {
      Session(connections.View(), View(), messageCounter.value)
    }

    ghost predicate Valid()
      reads connections
    {
      && connections.Valid()
      && connectionId in connections.handlers && connections.handlers[connectionId] == handler
    }

    method HandleError(f: Fault)
      requires Valid()
      modifies connections.handlers.Values`sent
      ensures SessionView() == Broker.HandleError(old(SessionView()), connectionId, f)
    {
      var (message, description) := Texts(f);
      var errorFrame := StompMessage("ERROR", map["message" := message], description);
      var _ := connections.Send(connectionId, errorFrame);
    }

    method HandleConnect(msg: StompMessage)
      requires Valid()
      modifies this, connections, connections.handlers.Values`sent
      ensures Valid() && connections.handlers == old(connections.handlers)
      ensures SessionView() == Broker.HandleConnect(old(SessionView()), connectionId, msg)
    {
      if isConnected {
        HandleError(AlreadyConnected);
        return;
      }
      if Get(msg, "accept-version") != Some(SUPPORTED_VERSION) {
        HandleError(BadVersion);
        return;
      }
      if Get(msg, "host") != Some(VALID_HOST) {
        HandleError(BadHost);
        return;
      }
      var login, passcode := Get(msg, "login"), Get(msg, "passcode");
      if login == None || passcode == None {
        HandleError(NoLogin);
        return;
      }
      if login.value in connections.validCredentials {
        if connections.validCredentials[login.value] != passcode.value {
          HandleError(WrongPassword(login.value));
          return;
        }
        if login.value in connections.currentlyLoggedIn {
          HandleError(LoggedInElsewhere);
          return;
        }
      }
      LogIn(login.value, passcode.value);
    }

    /** The end of `handleConnect`, once nothing speaks against the login. */
    method LogIn(login: string, passcode: string)
      requires Valid()
      modifies this, connections, connections.handlers.Values`sent
      ensures Valid() && connections.handlers == old(connections.handlers)
      ensures SessionView() == Connected(old(SessionView()), connectionId, login, passcode)
    {
      hide PutIfAbsent, Broker.AddClient, SendTo, ConnectionsImpl.View, ConnectionsImpl.Valid;
      Register(login, passcode);
      isConnected := true;
      var connectedFrame := StompMessage("CONNECTED", map["version" := SUPPORTED_VERSION], "");
      var _ := connections.Send(connectionId, connectedFrame);
    }

    method Register(login: string, passcode: string)
      requires Valid()
      modifies connections
      ensures Valid() && connections.handlers == old(connections.handlers)
      ensures connections.View() == Broker.AddClient(
                old(connections.View()).(
                  credentials := PutIfAbsent(old(connections.validCredentials), login, passcode),
                  loggedIn := PutIfAbsent(old(connections.currentlyLoggedIn), login, connectionId)),
                connectionId)
      ensures old(connections.View()).credentials == old(connections.validCredentials)
      ensures old(connections.View()).loggedIn == old(connections.currentlyLoggedIn)
    {
      hide PutIfAbsent, Broker.AddClient;
      connections.AddValidCredentials(login, passcode);
      connections.LoginUser(login, connectionId);
      assert connections.View().outbox == old(connections.View()).outbox;
      connections.AddClient(connectionId, handler);
    }

    method HandleSubscribe(msg: StompMessage)
      requires Valid()
      modifies this, connections, connections.handlers.Values`sent
      ensures Valid() && connections.handlers == old(connections.handlers)
      ensures SessionView() == Broker.HandleSubscribe(old(SessionView()), connectionId, msg)
    {
      var destination := SubscribeDestination(msg);
      if "id" !in msg.headers {
        HandleError(NoSubscriptionId);
        return;
      }
      if destination in subscriptions {
        return;
      }
      var subscriptionId := ParseInt(msg.headers["id"]);
      if subscriptionId == None {
        HandleError(BadSubscriptionId);
        return;
      }
      subscriptions := subscriptions[destination := subscriptionId.value];
      connections.SubscribeToChannel(connectionId, destination);
    }

    /** The subscriptions are iterated in an order of their own. */
    method FindSubscription(subscriptionId: int) returns (destination: Option<string>)
      ensures destination.Some? ==>
                destination.value in subscriptions && subscriptions[destination.value] == subscriptionId
      ensures destination == None <==> !Numbered(subscriptions, subscriptionId)
    {
      var keys := subscriptions.Keys;
      while keys != {}
        invariant keys <= subscriptions.Keys
        invariant forall d | d in subscriptions && d !in keys :: subscriptions[d] != subscriptionId
        decreases |keys|
      {
        var d :| d in keys;
        if subscriptions[d] == subscriptionId {
          return Some(d);
        }
        keys := keys - {d};
      }
      return None;
    }

    method HandleUnsubscribe(msg: StompMessage)
      requires Valid() && msg.command == "UNSUBSCRIBE"
      modifies this, connections, connections.handlers.Values`sent
      ensures Valid() && connections.handlers == old(connections.handlers)
      ensures exists pick ::
          && CanPick(old(View()), msg, pick)
          && SessionView() == Broker.HandleUnsubscribe(old(SessionView()), connectionId, msg, pick)
    {
      if "id" !in msg.headers {
        HandleError(NoUnsubscribeId);
        assert CanPick(old(View()), msg, "");
        return;
      }
      var subscriptionId := ParseInt(msg.headers["id"]);
      if subscriptionId == None {
        HandleError(BadUnsubscribeId);
        assert CanPick(old(View()), msg, "");
        return;
      }
      var destination := FindSubscription(subscriptionId.value);
      if destination == None {
        assert CanPick(old(View()), msg, "");
        return;
      }
      subscriptions := subscriptions - {destination.value};
      connections.UnsubscribeFromChannel(connectionId, destination.value);
      assert CanPick(old(View()), msg, destination.value);
    }

    method HandleSend(msg: StompMessage)
      requires Valid()
      modifies messageCounter, connections.handlers.Values`sent
      ensures SessionView() == Broker.HandleSend(old(SessionView()), connectionId, msg)
    {
      var destination := Get(msg, "destination");
      if destination == None || destination.value == "" {
        HandleError(NoDestination);
        return;
      }
      if msg.body == "" {
        HandleError(NoBody);
        return;
      }
      if destination.value !in subscriptions {
        HandleError(NotSubscribed(destination.value));
        return;
      }
      var user := Get(msg, "user");
      if user == None || user.value == "" {
        HandleError(NoUser);
        return;
      }
      var mesgId := messageCounter.IncrementAndGet();
      var messageHeaders := map["destination" := destination.value];
      messageHeaders := messageHeaders["subscription" := ToDecimal(subscriptions[destination.value])];
      messageHeaders := messageHeaders["user" := user.value];
      messageHeaders := messageHeaders["message-id" := ToDecimal(mesgId)];
      var message := StompMessage("MESSAGE", messageHeaders, msg.body);
      assert message == MessageFrame(View(), msg, mesgId);
      connections.SendToChannel(destination.value, message);
    }

    method HandleDisconnect(msg: StompMessage)
      requires Valid()
      modifies this, connections, connections.handlers.Values`sent
      ensures Valid() && connections.handlers == old(connections.handlers)
      ensures SessionView() == Broker.HandleDisconnect(old(SessionView()), connectionId, msg)
    {
      hide SendTo, Logout, ConnectionsImpl.View;
      if "receipt" !in msg.headers {
        HandleError(NoReceipt);
        return;
      }
      if !isConnected {
        HandleError(NotLoggedIn);
        return;
      }
      var receiptFrame := StompMessage("RECEIPT", map["receipt-id" := msg.headers["receipt"]], "");
      var _ := connections.Send(connectionId, receiptFrame);
      shouldTerminate := true;
      LogOut();
      isConnected := false;
      subscriptions := map[];
    }

    method LogOut()
      requires Valid()
      modifies connections`currentlyLoggedIn
      ensures Valid()
      ensures connections.View()
           == old(connections.View()).(loggedIn := Logout(old(connections.currentlyLoggedIn), connectionId))
      ensures old(connections.View()).loggedIn == old(connections.currentlyLoggedIn)
    {
      hide Logout;
      connections.LogoutUser(connectionId);
      assert connections.View().outbox == old(connections.View()).outbox;
    }

    method Process(frame: StompMessage)
      requires Valid()
      modifies this, connections, messageCounter, connections.handlers.Values`sent
      ensures Valid() && connections.handlers == old(connections.handlers)
      ensures exists pick ::
          && CanPick(old(View()), frame, pick)
          && SessionView() == Broker.Process(old(SessionView()), connectionId, frame, pick)
    {
      hide Broker.HandleConnect, Broker.HandleSend, Broker.HandleSubscribe, Broker.HandleUnsubscribe,
        Broker.HandleDisconnect, Broker.HandleError;
      if frame.command == "UNSUBSCRIBE" {
        HandleUnsubscribe(frame);
        return;
      }
      assert CanPick(old(View()), frame, "");
      match frame.command
      case "CONNECT" => HandleConnect(frame);
      case "SEND" => HandleSend(frame);
      case "SUBSCRIBE" => HandleSubscribe(frame);
      case "DISCONNECT" => HandleDisconnect(frame);
      case _ => HandleError(UnknownCommand(frame.command));
    }
  }

  // ------------------------------------------------------------------ the reactor's part

  class Reactor {
    const connections: ConnectionsImpl
    const messageCounter: MessageCounter
    var connectionIdCounter: int
    /** History: the session of every connection ever accepted. */
    ghost var protocols: map<Id, StompMessagingProtocolImpl>

    constructor ()
      ensures Valid() && Initial(View())
    {
      connections := new ConnectionsImpl();
      messageCounter := new MessageCounter();
      connectionIdCounter := 0;
      protocols := map[];
    }

    ghost predicate Valid()
      reads this, connections
    {
      && connections.Valid() && protocols.Keys == connections.handlers.Keys
      && (forall id <- protocols :: id < connectionIdCounter && Serves(protocols[id], id))
    }

    ghost predicate Serves(p: StompMessagingProtocolImpl, id: Id)
      reads this, connections
    {
      && p.connectionId == id && p.connections == connections && p.messageCounter == messageCounter
      && id in connections.handlers && p.handler == connections.handlers[id]
    }

    ghost function Protos(): map<Id, Proto>
      reads this, protocols.Values
    {
      map id | id in protocols :: protocols[id].View()
    }

    ghost function View(): Server
      reads this, connections, connections.handlers.Values, protocols.Values, messageCounter
    {
      Server(connections.View(), Protos(), connections.Closed(), messageCounter.value, connectionIdCounter)
    }

    ghost predicate Knows(protocol: StompMessagingProtocolImpl)
      reads this
    {
      protocol.connectionId in protocols && protocols[protocol.connectionId] == protocol
    }

    /** Only the session of `id`, the registry and the counter have changed. */
    twostate lemma SessionChanged(id: Id)
      requires id in old(protocols) && protocols == old(protocols) && connections.handlers == old(connections.handlers)
      requires forall c <- protocols :: c != id ==> protocols[c].View() == old(protocols[c].View())
      requires connections.SameOpen({})
      requires connectionIdCounter == old(connectionIdCounter)
      ensures View()
           == Resumed(old(View()), id, Session(connections.View(), protocols[id].View(), messageCounter.value))
    {
      SameProtos(id);
      connections.SameClosed();
    }

    twostate lemma SameProtos(id: Id)
      requires id in old(protocols) && protocols == old(protocols)
      requires forall c <- protocols :: c != id ==> protocols[c].View() == old(protocols[c].View())
      ensures Protos() == old(Protos())[id := protocols[id].View()]
    {
      var before, after := old(Protos()), Protos();
      forall c | c in after ensures after[c] == before[id := protocols[id].View()][c] {
        if c != id {
          assert protocols[c].View() == old(protocols[c].View());
        }
      }
    }

    twostate lemma HandlerClosed(id: Id)
      requires protocols == old(protocols) && id in old(protocols)
      requires forall c <- protocols :: protocols[c].View() == old(protocols[c].View())
      requires connections.Closed() == old(connections.Closed()) + {id}
      requires connections.View() == Disconnect(old(connections.View()), id)
      requires connectionIdCounter == old(connectionIdCounter) && messageCounter.value == old(messageCounter.value)
      ensures View() == Close(old(View()), id)
    {
      SameProtos(id);
      assert old(Protos())[id := protocols[id].View()] == old(Protos());
    }

    lemma KnownSession(protocol: StompMessagingProtocolImpl)
      requires Valid() && Knows(protocol)
      ensures protocol.Valid() && Serves(protocol, protocol.connectionId) && protocol.connectionId in View().protos
      ensures SessionOf(View(), protocol.connectionId) == protocol.SessionView()
      ensures View().protos[protocol.connectionId] == protocol.View()
      ensures forall c <- protocols :: c != protocol.connectionId ==> protocols[c] != protocol
    {
      assert Serves(protocol, protocol.connectionId);
    }

    twostate lemma SessionAdded(new protocol: StompMessagingProtocolImpl)
      requires var id := protocol.connectionId;
               && id !in old(protocols) && protocols == old(protocols)[id := protocol]
               && id !in old(connections.handlers)
               && connections.handlers == old(connections.handlers)[id := protocol.handler]
      requires protocol.View() == Proto(false, false, map[]) && protocol.handler.open
      requires forall c <- old(protocols) :: protocols[c].View() == old(protocols[c].View())
      requires forall c <- old(connections.handlers) ::
          connections.handlers[c].open == old(connections.handlers[c].open)
      ensures Protos() == old(Protos())[protocol.connectionId := Proto(false, false, map[])]
      ensures connections.Closed() == old(connections.Closed())
    {
      var before, after := old(Protos()), Protos();
      forall c | c in after ensures after[c] == before[protocol.connectionId := Proto(false, false, map[])][c] {
        if c != protocol.connectionId { assert protocols[c].View() == old(protocols[c].View()); }
      }
      forall c ensures c in connections.Closed() <==> c in old(connections.Closed()) {
        if c in old(connections.handlers) {
          assert connections.handlers[c].open == old(connections.handlers[c].open);
        }
      }
    }

    /** Creates and registers the handler of a new connection. */
    method Register(connectionId: Id) returns (protocol: StompMessagingProtocolImpl)
      requires connections.Valid() && connectionId !in connections.handlers
      modifies connections
      ensures fresh(protocol) && fresh(protocol.handler) && protocol.View() == Proto(false, false, map[])
      ensures protocol.connectionId == connectionId && protocol.connections == connections
      ensures protocol.messageCounter == messageCounter && protocol.handler.open
      ensures connections.Valid() && connections.View() == AddClient(old(connections.View()), connectionId)
      ensures connections.handlers == old(connections.handlers)[connectionId := protocol.handler]
    {
      hide AddClient, ConnectionsImpl.View;
      var handler := new ConnectionHandler(connectionId, connections);
      protocol := new StompMessagingProtocolImpl(connectionId, connections, handler, messageCounter);
      connections.AddClient(connectionId, handler);
    }

    method HandleAccept() returns (protocol: StompMessagingProtocolImpl)
      requires Valid()
      modifies this, connections
      ensures Valid() && Knows(protocol) && View() == Step(old(View()), Accept)
    {
      hide AddClient, View, Valid, ConnectionsImpl.View, ConnectionsImpl.Valid, Protos, ConnectionsImpl.Closed, Step;
      NextIdIsNew();
      var connectionId := connectionIdCounter;
      connectionIdCounter := connectionIdCounter + 1;
      protocol := Register(connectionId);
      protocols := protocols[connectionId := protocol];
      SessionAdded(protocol);
      AcceptedView(protocol);
      AcceptedValid(protocol);
    }

    lemma NextIdIsNew()
      requires Valid()
      ensures connections.Valid()
      ensures connectionIdCounter !in connections.handlers && connectionIdCounter !in protocols
    {
      hide ConnectionsImpl.Valid;
      assert forall id | id in protocols :: id < connectionIdCounter && Serves(protocols[id], id);
      assert connectionIdCounter !in protocols.Keys;
    }

    /** The registry has grown by one client. */
    twostate predicate Grown(new protocol: StompMessagingProtocolImpl)
      reads this, connections
    {
      var id := protocol.connectionId;
      && id == old(connectionIdCounter) && connectionIdCounter == id + 1
      && protocols == old(protocols)[id := protocol]
      && connections.handlers == old(connections.handlers)[id := protocol.handler]
      && protocol.connections == connections && protocol.messageCounter == messageCounter
    }

    twostate lemma AcceptedView(new protocol: StompMessagingProtocolImpl)
      requires Grown(protocol) && messageCounter.value == old(messageCounter.value)
      requires connections.View() == AddClient(old(connections.View()), protocol.connectionId)
      requires Protos() == old(Protos())[protocol.connectionId := Proto(false, false, map[])]
      requires connections.Closed() == old(connections.Closed())
      ensures View() == Step(old(View()), Accept)
    {
      hide AddClient, ConnectionsImpl.View, Protos, ConnectionsImpl.Closed, Process, CanPick, Close;
    }

    twostate lemma AcceptedValid(new protocol: StompMessagingProtocolImpl)
      requires old(Valid()) && connections.Valid() && Grown(protocol)
      ensures Valid() && Knows(protocol)
    {
      hide ConnectionsImpl.Valid;
      forall id | id in protocols ensures id < connectionIdCounter && Serves(protocols[id], id) {
        if id != protocol.connectionId { assert old(Serves(protocols[id], id)); }
      }
    }

    method CloseHandler(protocol: StompMessagingProtocolImpl)
      requires Valid() && Knows(protocol)
      modifies connections, connections.handlers.Values
      ensures Valid() && View() == Close(old(View()), protocol.connectionId)
    {
      hide Disconnect, View, ConnectionsImpl.View, Close, Protos, ConnectionsImpl.Closed;
      KnownSession(protocol);
      protocol.handler.Close();
      HandlerClosed(protocol.connectionId);
    }

    method CallProcess(protocol: StompMessagingProtocolImpl, message: StompMessage)
      requires Valid() && Knows(protocol)
      modifies protocol, connections, messageCounter, connections.handlers.Values`sent
      ensures Valid() && connections.handlers == old(connections.handlers)
      ensures protocol.connectionId in old(View()).protos
      ensures exists pick ::
          && CanPick(old(View()).protos[protocol.connectionId], message, pick)
          && View() == Resumed(old(View()), protocol.connectionId,
                               Process(SessionOf(old(View()), protocol.connectionId), protocol.connectionId,
                                       message, pick))
    {
      hide Process, CanPick, View, Resumed, SessionOf, ConnectionsImpl.View, Protos, ConnectionsImpl.Closed;
      var id := protocol.connectionId;
      KnownSession(protocol);
      ghost var x := protocol.SessionView();
      assert x == SessionOf(View(), id);
      protocol.Process(message);
      ghost var pick :| CanPick(x.proto, message, pick) && protocol.SessionView() == Process(x, id, message, pick);
      SessionChanged(id);
      assert protocol.SessionView() == Session(connections.View(), protocols[id].View(), messageCounter.value);
      assert View() == Resumed(old(View()), id, Process(SessionOf(old(View()), id), id, message, pick));
    }

    /** One message in the task of `continueRead`: process it, then close if the session has ended. */
    method ProcessMessage(protocol: StompMessagingProtocolImpl, message: StompMessage)
      requires Valid() && Knows(protocol)
      modifies protocol, connections, messageCounter, connections.handlers.Values
      ensures Valid()
      ensures exists pick ::
          && CanStep(old(View()), Frame(protocol.connectionId, message, pick))
          && View() == Step(old(View()), Frame(protocol.connectionId, message, pick))
    {
      hide Process, CanPick, Close, View, Valid;
      var id := protocol.connectionId;
      CallProcess(protocol, message);
      ghost var pick :| CanPick(old(View()).protos[id], message, pick)
                     && View() == Resumed(old(View()), id, Process(SessionOf(old(View()), id), id, message, pick));
      KnownSession(protocol);
      if protocol.shouldTerminate {
        CloseHandler(protocol);
      }
      assert CanStep(old(View()), Frame(id, message, pick));
      assert View() == Step(old(View()), Frame(id, message, pick));
    }

    /** The other way out of `continueRead`: the read returned -1 or failed. */
    method ReadFailed(protocol: StompMessagingProtocolImpl)
      requires Valid() && Knows(protocol)
      modifies connections, connections.handlers.Values
      ensures Valid() && View() == Step(old(View()), Abrupt(protocol.connectionId))
    {
      CloseHandler(protocol);
    }
  }
}
