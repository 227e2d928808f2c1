/** The frames the client writes, as the server parses them, and the client's own parser of frames. */
module CreateFrames {
  import opened Text
  import opened Decimal
  import opened Search
  import opened StompFrame

  function Line(key: string, value: string): string { key + ":" + value + "\n" }

  function CreateSubscribeFrame(destination: string, id: string, receiptId: string): string
  {
    "SUBSCRIBE" + "\n" + Line("destination", destination) + Line("id", id) + Line("receipt", receiptId) + "\n"
  }

  function CreateUnsubscribeFrame(id: string, receiptId: string): string
  {
    "UNSUBSCRIBE" + "\n" + Line("id", id) + Line("receipt", receiptId) + "\n"
  }

  function CreateDisconnectFrame(receiptId: string): string
  {
    "DISCONNECT" + "\n" + Line("receipt", receiptId) + "\n"
  }

  function CreateConnectFrame(host: string, username: string, passcode: string): string
  {
    "CONNECT" + "\n" + Line("accept-version", "1.2") + Line("host", host) + Line("login", username)
      + Line("passcode", passcode) + "\n"
  }

  /** The user a body names: what follows the first "user:", up to a semicolon. */
  function UserOf(body: string): string
  {
    match Find(body, "user:")
    case None => ""
    case Some(i) => var rest := body[i + 5..]; rest[..IndexOf(rest, ';')]
  }

  function CreateSendFrame(destination: string, body: string, receiptId: string): string
  {
    "SEND" + "\n" + Line("destination", destination) + Line("receipt", receiptId)
      + (if UserOf(body) != "" then Line("user", UserOf(body)) else "")
      + "\n" + body + "\n"
  }

  // ------------------------------------------------------------------ the client's frames as the server reads them

  ghost predicate GoodHeader(h: Header) { OneLine(h.0) && ':' !in h.0 && OneLine(h.1) }

  lemma LinesOfOne(x: Header)
    ensures HeaderLines([x]) == [HeaderLine(x)] && MapOf([x]) == map[x.0 := x.1]
    ensures Lines(HeaderLines([x])) == Line(x.0, x.1)
  {
    LinesOne(HeaderLine(x));
    assert [x][..0] == [];
  }

  lemma LinesOfMore(entries: seq<Header>, x: Header)
    ensures Lines(HeaderLines(entries + [x])) == Lines(HeaderLines(entries)) + Line(x.0, x.1)
    ensures MapOf(entries + [x]) == MapOf(entries)[x.0 := x.1]
  {
    LinesAppend(HeaderLines(entries), [HeaderLine(x)]);
    assert HeaderLines(entries + [x]) == HeaderLines(entries) + [HeaderLine(x)];
    LinesOne(HeaderLine(x));
    assert (entries + [x])[..|entries|] == entries;
  }

  lemma OneHeaderFrame(command: string, x: Header)
    requires OneLine(command) && GoodHeader(x)
    ensures ParseFrame(command + "\n" + Line(x.0, x.1) + "\n") == Ok(StompMessage(command, map[x.0 := x.1], ""))
  {
    hide ParseFrame, MapOf, HeaderLines, Lines, Line;
    LinesOfOne(x);
    PrintedFrameParses(command, [x], "");
    assert FrameText(command, [x], "") == command + "\n" + Line(x.0, x.1) + "\n";
  }

  lemma TwoHeaderFrame(command: string, x: Header, y: Header)
    requires OneLine(command) && GoodHeader(x) && GoodHeader(y)
    ensures ParseFrame(command + "\n" + Line(x.0, x.1) + Line(y.0, y.1) + "\n")
         == Ok(StompMessage(command, map[x.0 := x.1][y.0 := y.1], ""))
  {
    hide ParseFrame, MapOf, HeaderLines, Lines, Line;
    LinesOfOne(x);
    LinesOfMore([x], y);
    PrintedFrameParses(command, [x] + [y], "");
    assert FrameText(command, [x] + [y], "") == command + "\n" + (Line(x.0, x.1) + Line(y.0, y.1)) + "\n" + "";
    assert FrameText(command, [x] + [y], "") == command + "\n" + Line(x.0, x.1) + Line(y.0, y.1) + "\n";
  }

  lemma ThreeHeaderFrame(command: string, x: Header, y: Header, z: Header)
    requires OneLine(command) && GoodHeader(x) && GoodHeader(y) && GoodHeader(z)
    ensures ParseFrame(command + "\n" + Line(x.0, x.1) + Line(y.0, y.1) + Line(z.0, z.1) + "\n")
         == Ok(StompMessage(command, map[x.0 := x.1][y.0 := y.1][z.0 := z.1], ""))
  {
    hide ParseFrame, MapOf, HeaderLines, Lines, Line;
    LinesOfOne(x);
    LinesOfMore([x], y);
    LinesOfMore([x] + [y], z);
    PrintedFrameParses(command, [x] + [y] + [z], "");
    assert FrameText(command, [x] + [y] + [z], "")
        == command + "\n" + (Line(x.0, x.1) + Line(y.0, y.1) + Line(z.0, z.1)) + "\n" + "";
    assert FrameText(command, [x] + [y] + [z], "")
        == command + "\n" + Line(x.0, x.1) + Line(y.0, y.1) + Line(z.0, z.1) + "\n";
  }

  lemma DecimalIsOneLine(n: int)
    ensures OneLine(ToDecimal(n))
  {
    PrintedCharacters(n);
  }

  lemma SubscribeFrameParses(destination: string, n: int, r: int)
    requires OneLine(destination)
    ensures ParseFrame(CreateSubscribeFrame(destination, ToDecimal(n), ToDecimal(r))) == Ok(
              StompMessage("SUBSCRIBE",
                           map["destination" := destination, "id" := ToDecimal(n), "receipt" := ToDecimal(r)], ""))
  {
    hide ParseFrame, ToDecimal, Line;
    DecimalIsOneLine(n);
    DecimalIsOneLine(r);
    ThreeHeaderFrame("SUBSCRIBE", ("destination", destination), ("id", ToDecimal(n)), ("receipt", ToDecimal(r)));
  }

  lemma UnsubscribeFrameParses(n: int, r: int)
    ensures ParseFrame(CreateUnsubscribeFrame(ToDecimal(n), ToDecimal(r)))
         == Ok(StompMessage("UNSUBSCRIBE", map["id" := ToDecimal(n), "receipt" := ToDecimal(r)], ""))
  {
    hide ParseFrame, ToDecimal, Line;
    DecimalIsOneLine(n);
    DecimalIsOneLine(r);
    TwoHeaderFrame("UNSUBSCRIBE", ("id", ToDecimal(n)), ("receipt", ToDecimal(r)));
  }

  lemma DisconnectFrameParses(r: int)
    ensures ParseFrame(CreateDisconnectFrame(ToDecimal(r)))
         == Ok(StompMessage("DISCONNECT", map["receipt" := ToDecimal(r)], ""))
  {
    hide ParseFrame, ToDecimal, Line;
    DecimalIsOneLine(r);
    OneHeaderFrame("DISCONNECT", ("receipt", ToDecimal(r)));
  }

  /** Whatever follows the first line, the command is the first line. */
  lemma CommandIsFirstLine(command: string, rest: string)
    requires OneLine(command) && command != ""
    ensures match ParseFrame(command + "\n" + rest) case Ok(m) => m.command == command case Throws => true
  {
    hide ParseHeaders, BodyFrom;
    var text := command + "\n" + rest;
    SplitAllStep(command, '\n', rest);
    var pieces := SplitAll(text, '\n');
    assert pieces == [command] + SplitAll(rest, '\n');
    assert text[|command|] == '\n';
    FirstSurvives(pieces);
  }

  lemma {:induction false} FirstSurvives(pieces: seq<string>)
    requires pieces != [] && pieces[0] != ""
    ensures DropTrailingEmpty(pieces) != [] && DropTrailingEmpty(pieces)[0] == pieces[0]
  {
    if pieces[|pieces| - 1] == "" {
      FirstSurvives(pieces[..|pieces| - 1]);
    }
  }

  // ------------------------------------------------------------------ the client's parser

  /** What successive calls of `std::getline` return. */
  function GetLines(s: string): seq<string>
  {
    var pieces := SplitAll(s, '\n');
    if pieces[|pieces| - 1] == "" then pieces[..|pieces| - 1] else pieces
  }

  /** The header loop of `parseMessage`, from line `i` on; a line without a colon is skipped. */
  function CollectHeaders(lines: seq<string>, i: nat, headers: map<string, string>): map<string, string>
    decreases |lines| - i
  {
    if i < |lines| && lines[i] != "" then
      var colon := IndexOf(lines[i], ':');
      CollectHeaders(lines, i + 1,
                     if colon == |lines[i]| then headers
                     else headers[lines[i][..colon] := lines[i][colon + 1..]])
    else headers
  }

  function ParseMessage(message: string): map<string, string>
  {
    var lines := GetLines(message);
    if lines == [] then map[] else CollectHeaders(lines, 1, map["command" := lines[0]])
  }

  method ParseMessageLoop(message: string) returns (headers: map<string, string>)
    ensures headers == ParseMessage(message)
  {
    var lines := GetLines(message);
    headers := map[];
    if |lines| == 0 {
      return;
    }
    headers := headers["command" := lines[0]];
    var i := 1;
    while i < |lines| && lines[i] != ""
      invariant 1 <= i <= |lines|
      invariant CollectHeaders(lines, i, headers) == ParseMessage(message)
    {
      var separator := IndexOf(lines[i], ':');
      if separator < |lines[i]| {
        headers := headers[lines[i][..separator] := lines[i][separator + 1..]];
      }
      i := i + 1;
    }
  }
}
