/**
 * Logging in: the client's CONNECT frame, the server's answer to it, and what the client reads from the
 * answer, which it searches for the text CONNECTED.
 */
module Handshake {
  import opened Text
  import opened Search
  import opened StompFrame
  import opened CreateFrames
  import opened StompCodec
  import opened SessionWire
  import opened Broker

  const WORD := "CONNECTED"

  /** `connectToServer` takes the answer for a success when the word occurs anywhere in it. */
  ghost predicate LooksConnected(response: string) { Contains(response, WORD) }

  lemma ConnectFrameParses(username: string, password: string)
    requires OneLine(username) && OneLine(password)
    ensures ParseFrame(CreateConnectFrame(VALID_HOST, username, password)) == Ok(ConnectMessage(username, password))
  {
    hide ParseFrame, Line;
    FourHeaderFrame("CONNECT", ("accept-version", "1.2"), ("host", VALID_HOST), ("login", username),
                    ("passcode", password));
  }

  function ConnectMessage(username: string, password: string): StompMessage
  {
    StompMessage("CONNECT", map["accept-version" := "1.2", "host" := VALID_HOST, "login" := username,
                                "passcode" := password], "")
  }

  /**
   * As bytes the frame arrives whole, one message and the decoder ready for the next frame, if and only if
   * neither the user name nor the password has a NUL in it.
   */
  lemma ConnectArrivesIff(d: Decoding, username: string, password: string)
    requires d.ok && d.buffer == "" && OneLine(username) && OneLine(password) && Ascii(username) && Ascii(password)
    ensures var r := DecodeFrom(d, FrameBytes(CreateConnectFrame(VALID_HOST, username, password)));
            && (r.ok && r.buffer == "" && |r.messages| == |d.messages| + 1 <==> '\0' !in username && '\0' !in password)
            && ('\0' !in username && '\0' !in password ==>
                  r == d.(messages := d.messages + [ConnectMessage(username, password)]))
  {
    hide ParseFrame, CreateConnectFrame, ConnectMessage, FrameBytes, Ascii;
    ConnectFrameParses(username, password);
    ConnectText(username, password);
    ArrivesIff(d, CreateConnectFrame(VALID_HOST, username, password));
  }

  lemma ConnectText(username: string, password: string)
    requires Ascii(username) && Ascii(password)
    ensures Sane(CreateConnectFrame(VALID_HOST, username, password), '\0' in username || '\0' in password)
  {
    hide Sane, Line, Ascii;
    SaneMarks();
    SaneConnect();
    SaneText(username);
    SaneText(password);
    var (u, p) := ('\0' in username, '\0' in password);
    SaneLine("accept-version", "1.2", false);
    SaneLine("host", VALID_HOST, false);
    SaneLine("login", username, u);
    SaneLine("passcode", password, p);
    var a := "CONNECT" + "\n" + Line("accept-version", "1.2");
    var b := a + Line("host", VALID_HOST);
    var c := b + Line("login", username);
    SanePlus("CONNECT", "\n", false, false);
    SanePlus("CONNECT" + "\n", Line("accept-version", "1.2"), false, false);
    SanePlus(a, Line("host", VALID_HOST), false, false);
    SanePlus(b, Line("login", username), false, u);
    SanePlus(c, Line("passcode", password), u, p);
    SanePlus(c + Line("passcode", password), "\n", u || p, false);
  }

  lemma SaneConnect()
    ensures Sane("CONNECT", false) && Sane("accept-version", false) && Sane("1.2", false) && Sane("host", false)
    ensures Sane(VALID_HOST, false) && Sane("login", false) && Sane("passcode", false)
  {
    SaneHost();
  }

  lemma SaneHost()
    ensures Sane(VALID_HOST, false)
  {
  }

  lemma FourHeaderFrame(command: string, x: Header, y: Header, z: Header, t: Header)
    requires OneLine(command) && GoodHeader(x) && GoodHeader(y) && GoodHeader(z) && GoodHeader(t)
    ensures ParseFrame(command + "\n" + Line(x.0, x.1) + Line(y.0, y.1) + Line(z.0, z.1) + Line(t.0, t.1) + "\n")
         == Ok(StompMessage(command, map[x.0 := x.1][y.0 := y.1][z.0 := z.1][t.0 := t.1], ""))
  {
    hide ParseFrame, MapOf, HeaderLines, Lines, Line;
    var three := [x] + [y] + [z];
    LinesOfOne(x);
    LinesOfMore([x], y);
    LinesOfMore([x] + [y], z);
    LinesOfMore(three, t);
    PrintedFrameParses(command, three + [t], "");
    var text := FrameText(command, three + [t], "");
    assert text == command + "\n" + (Line(x.0, x.1) + Line(y.0, y.1) + Line(z.0, z.1) + Line(t.0, t.1)) + "\n" + "";
    assert text == command + "\n" + Line(x.0, x.1) + Line(y.0, y.1) + Line(z.0, z.1) + Line(t.0, t.1) + "\n";
  }

  // ------------------------------------------------------------------ the word in the answers

  /** The text of a frame with one header. */
  function AnswerText(m: StompMessage, key: string): string
    requires key in m.headers
  {
    FrameText(m.command, [(key, m.headers[key])], m.body)
  }

  lemma AnswerLines(command: string, key: string, value: string, body: string)
    ensures Contains(FrameText(command, [(key, value)], body), WORD)
       <==> Contains(command, WORD) || Contains(HeaderLine((key, value)), WORD) || Contains(body, WORD)
  {
    hide Contains;
    var h := (key, value);
    LinesOfOne(h);
    var tail := HeaderLine(h) + "\n" + ("" + "\n" + body);
    assert FrameText(command, [h], body) == command + "\n" + tail;
    ContainsLine(command, tail, WORD);
    ContainsLine(HeaderLine(h), "" + "\n" + body, WORD);
    ContainsLine("", body, WORD);
    assert !Contains("", WORD) by { NotWithoutN(""); }
  }

  /** The word has an N in it, which the texts of the server's errors do not. */
  lemma NotWithoutN(s: string)
    requires 'N' !in s
    ensures !Contains(s, WORD)
  {
    if Contains(s, WORD) {
      var i: nat :| OccursAt(s, WORD, i);
      Meets(s, WORD, i, 2);
    }
  }

  lemma NotBefore(prefix: string, s: string, i: nat)
    requires 'N' !in prefix && prefix != "" && prefix[|prefix| - 1] == ' ' && OccursAt(prefix + s, WORD, i)
    ensures i >= |prefix|
  {
    Meets(prefix + s, WORD, i, 0);
    Meets(prefix + s, WORD, i, 1);
    Meets(prefix + s, WORD, i, 2);
  }

  lemma DropPrefix(prefix: string, s: string, w: string, i: nat)
    ensures OccursAt(prefix + s, w, |prefix| + i) <==> OccursAt(s, w, i)
  {
    if i + |w| <= |s| {
      assert (prefix + s)[|prefix| + i..|prefix| + i + |w|] == s[i..i + |w|];
    }
  }

  /** After a text without N that does not end like the start of the word, the word is in the rest or nowhere. */
  lemma WordAfter(prefix: string, s: string)
    requires 'N' !in prefix && prefix != "" && prefix[|prefix| - 1] == ' '
    ensures Contains(prefix + s, WORD) <==> Contains(s, WORD)
  {
    if Contains(prefix + s, WORD) {
      var i: nat :| OccursAt(prefix + s, WORD, i);
      NotBefore(prefix, s, i);
      DropPrefix(prefix, s, WORD, i - |prefix|);
    }
    if Contains(s, WORD) {
      var i: nat :| OccursAt(s, WORD, i);
      DropPrefix(prefix, s, WORD, i);
    }
  }

  lemma HeaderWithoutN(key: string, value: string)
    requires 'N' !in key && 'N' !in value
    ensures !Contains(HeaderLine((key, value)), WORD)
  {
    NotWithoutN(HeaderLine((key, value)));
  }

  lemma WrongPasswordAnswer(login: string)
    ensures LooksConnected(AnswerText(ErrorFrame(WrongPassword(login)), "message")) <==> Contains(login, WORD)
  {
    hide Contains;
    var prefix := "Incorrect password for existing user: ";
    AnswerLines("ERROR", "message", "Incorrect password", prefix + login);
    NotWithoutN("ERROR");
    HeaderWithoutN("message", "Incorrect password");
    WordAfter(prefix, login);
  }

  lemma LoggedInAnswer()
    ensures !LooksConnected(AnswerText(ErrorFrame(LoggedInElsewhere), "message"))
  {
    hide Contains;
    AnswerLines("ERROR", "message", "User is already logged in", "User is already logged in");
    NotWithoutN("ERROR");
    HeaderWithoutN("message", "User is already logged in");
    NotWithoutN("User is already logged in");
  }

  lemma ConnectedAnswer()
    ensures LooksConnected(AnswerText(ConnectedFrame(), "version"))
  {
    hide Contains;
    AnswerLines("CONNECTED", "version", SUPPORTED_VERSION, "");
    assert Contains("CONNECTED", WORD) by { WordInItself(); }
  }

  lemma WordInItself()
    ensures Contains(WORD, WORD)
  {
    assert OccursAt(WORD, WORD, 0);
  }

  function ConnectedFrame(): StompMessage { StompMessage("CONNECTED", map["version" := SUPPORTED_VERSION], "") }

  // ------------------------------------------------------------------ the handshake

  /** The server's answer to a CONNECT frame of a session that is not connected yet. */
  function Answer(x: Session, username: string, password: string): StompMessage
  {
    if username in x.registry.credentials && x.registry.credentials[username] != password
    then ErrorFrame(WrongPassword(username))
    else if username in x.registry.credentials && username in x.registry.loggedIn then ErrorFrame(LoggedInElsewhere)
    else ConnectedFrame()
  }

  lemma AnswerIsSent(x: Session, id: Id, username: string, password: string, pick: string)
    requires !x.proto.isConnected && id in x.registry.clients
    ensures var x' := Process(x, id, ConnectMessage(username, password), pick);
            && Outbox(x'.registry, id) == Outbox(x.registry, id) + [Answer(x, username, password)]
            && (x'.proto.isConnected <==> Answer(x, username, password) == ConnectedFrame())
  {
    hide Texts, PutIfAbsent;
  }

  /**
   * The client's view after the handshake is the server's, whatever else is in the registry, if and only
   * if it is not the case that a wrong password was given for a user name with CONNECTED in it: the error
   * text quotes the name, and the client takes it for the answer it is waiting for.
   */
  lemma HandshakeAgreesIff(x: Session, id: Id, username: string, password: string, pick: string)
    requires !x.proto.isConnected && id in x.registry.clients && OneLine(username) && OneLine(password)
    ensures var message := ParseFrame(CreateConnectFrame(VALID_HOST, username, password));
            && message.Ok?
            && var x' := Process(x, id, message.message, pick);
               var answer := Answer(x, username, password);
               var key := if answer == ConnectedFrame() then "version" else "message";
               && Outbox(x'.registry, id) == Outbox(x.registry, id) + [answer]
               && key in answer.headers
               && ((LooksConnected(AnswerText(answer, key)) <==> x'.proto.isConnected) <==>
                     !(username in x.registry.credentials && x.registry.credentials[username] != password
                       && Contains(username, WORD)))
  {
    hide ParseFrame, CreateConnectFrame, Process, Texts, Contains, AnswerText;
    ConnectFrameParses(username, password);
    AnswerIsSent(x, id, username, password, pick);
    WrongPasswordAnswer(username);
    LoggedInAnswer();
    ConnectedAnswer();
  }
}
