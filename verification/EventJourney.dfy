/**
 * An event all the way as bytes: the SEND frame into the server's decoder, one step of a server run, and
 * the MESSAGE frame out of the stream that a client reads.
 */
module EventJourney {
  import opened Text
  import opened Decimal
  import opened StompFrame
  import opened StompCodec
  import opened CreateFrames
  import opened Events
  import opened EventPipeline
  import opened EventDelivery
  import opened EventMeaning
  import opened Broker
  import opened BrokerSteps
  import opened BrokerRuns
  import opened ClientSession
  import opened SessionWire

  // ------------------------------------------------------------------ reading a frame

  /** A byte as the client's `char`. */
  function CharOf(b: Byte): char { Unsigned(b) as char }

  function Chars(bytes: seq<Byte>): (s: string)
    ensures |s| == |bytes|
  {
    seq(|bytes|, i requires 0 <= i < |bytes| => CharOf(bytes[i]))
  }

  /** The position of the first NUL, or the length. */
  function FirstNul(bytes: seq<Byte>): (n: nat)
    ensures n <= |bytes| && 0 !in bytes[..n] && (n < |bytes| ==> bytes[n] == 0)
  {
    if bytes == [] || bytes[0] == 0 then 0 else
    assert bytes[..FirstNul(bytes[1..]) + 1] == [bytes[0]] + bytes[1..][..FirstNul(bytes[1..])];
    FirstNul(bytes[1..]) + 1
  }

  lemma NulIsFirst(bytes: seq<Byte>, n: nat)
    requires n < |bytes| && bytes[n] == 0 && 0 !in bytes[..n]
    ensures FirstNul(bytes) == n
  {
    var m := FirstNul(bytes);
    NulBefore(bytes, m, n);
    NulBefore(bytes, n, m);
  }

  lemma NulBefore(bytes: seq<Byte>, m: nat, n: nat)
    requires m < n <= |bytes| ==> bytes[m] == 0
    ensures m < n <= |bytes| ==> 0 in bytes[..n]
  {
    if m < n <= |bytes| {
      assert bytes[..n][m] == 0;
    }
  }

  /** One frame and what is left of the stream, or nothing when the stream ends first. */
  function ReadFrame(bytes: seq<Byte>): Option<(string, seq<Byte>)>
  {
    var n := FirstNul(bytes);
    if n == |bytes| then None else Some((Chars(bytes[..n]), bytes[n + 1..]))
  }

  /** `getFrameAscii` up to a NUL, byte by byte; `bytes` is all that the connection ever delivers. */
  method GetFrame(bytes: seq<Byte>) returns (found: bool, frame: string, rest: seq<Byte>)
    ensures found <==> ReadFrame(bytes).Some?
    ensures found ==> (frame, rest) == ReadFrame(bytes).value
  {
    frame, rest := "", bytes;
    var done := false;
    while !done
      invariant |rest| <= |bytes| && rest == bytes[|bytes| - |rest|..]
      invariant !done ==> 0 !in bytes[..|bytes| - |rest|] && frame == Chars(bytes[..|bytes| - |rest|])
      invariant done ==> ReadFrame(bytes) == Some((frame, rest))
      decreases |rest| + if done then 0 else 1
    {
      if rest == [] {
        assert bytes[..|bytes| - |rest|] == bytes;
        return false, frame, rest;
      }
      var n, ch := |bytes| - |rest|, rest[0];
      assert bytes[..n + 1] == bytes[..n] + [ch];
      if ch == 0 {
        NulIsFirst(bytes, n);
        done := true;
      } else {
        frame := frame + [CharOf(ch)];
      }
      rest := rest[1..];
    }
    return true, frame, rest;
  }

  /** An ASCII text and its terminator at the head of a stream: it is read as itself if and only if it has no NUL. */
  lemma FrameIsReadIff(text: string, more: seq<Byte>)
    requires Ascii(text)
    ensures ReadFrame(Utf8(text + "\0") + more) == Some((text, more)) <==> '\0' !in text
  {
    hide Utf8;
    WireBytes(text);
    var w := Utf8(text + "\0");
    var bytes := w + more;
    if '\0' in text {
      assert FirstNul(bytes) != |text| by {
        var i :| 0 <= i < |text| && text[i] == '\0';
        assert bytes[..|text|][i] == 0;
      }
    } else {
      assert forall i | 0 <= i < |text| :: bytes[..|text|][i] == text[i] as int != 0;
      NulIsFirst(bytes, |text|);
      assert Chars(bytes[..|text|]) == text;
      assert bytes[|text| + 1..] == more;
    }
  }

  // ------------------------------------------------------------------ the characters of the frames

  ghost predicate AsciiHeaders(hs: seq<Header>) { forall h <- hs :: Ascii(h.0) && Ascii(h.1) }

  ghost predicate NulIn(hs: seq<Header>) { exists h <- hs :: '\0' in h.0 || '\0' in h.1 }

  lemma {:induction false} HeadersText(hs: seq<Header>)
    requires AsciiHeaders(hs)
    ensures Sane(Lines(HeaderLines(hs)), NulIn(hs))
  {
    hide Lines, HeaderLines, Sane;
    if hs == [] {
      NoHeaders();
      SaneText("");
    } else {
      var front, x := hs[..|hs| - 1], hs[|hs| - 1];
      assert hs == front + [x];
      HeadersText(front);
      LinesOfMore(front, x);
      AsciiLineOf(x);
      SanePlus(Lines(HeaderLines(front)), Line(x.0, x.1), NulIn(front), '\0' in x.0 || '\0' in x.1);
      assert NulIn(hs) <==> NulIn(front) || '\0' in x.0 || '\0' in x.1;
    }
  }

  lemma NoHeaders()
    ensures Lines(HeaderLines([])) == "" && Ascii("")
  {
  }

  lemma AsciiLineOf(x: Header)
    requires Ascii(x.0) && Ascii(x.1)
    ensures Sane(Line(x.0, x.1), '\0' in x.0 || '\0' in x.1)
  {
    hide Ascii;
    Characters(x.0, ":");
    Characters(x.0 + ":", x.1);
    Characters(x.0 + ":" + x.1, "\n");
    SaneMarks();
  }

  /** An event whose texts are ASCII. */
  ghost predicate AsciiEvent(d: Delivery)
  {
    AsciiHeaders(d.info) && forall i | 0 <= i < 5 :: Ascii(FixedFields(d)[i])
  }

  /** An event with a NUL in one of its texts. */
  ghost predicate NulInEvent(d: Delivery)
  {
    NulIn(d.info) || exists i :: 0 <= i < 5 && '\0' in FixedFields(d)[i]
  }

  /** `hs` with the keys and the values of two lists. */
  ghost predicate Zipped(hs: seq<Header>, keys: seq<string>, values: seq<string>)
  {
    |hs| == |keys| == |values| && forall i | 0 <= i < |hs| :: hs[i] == (keys[i], values[i])
  }

  lemma ZippedText(hs: seq<Header>, keys: seq<string>, values: seq<string>)
    requires Zipped(hs, keys, values) && forall i | 0 <= i < |keys| :: Sane(keys[i], false)
    ensures AsciiHeaders(hs) <==> forall i | 0 <= i < |values| :: Ascii(values[i])
    ensures NulIn(hs) <==> exists i :: 0 <= i < |values| && '\0' in values[i]
  {
    hide Ascii;
    forall i | 0 <= i < |hs| ensures Ascii(keys[i]) && '\0' !in keys[i] && hs[i] in hs {
      SaneIsAscii(keys[i], false);
      assert Sane(keys[i], false);
    }
  }

  lemma SaneBodyKeys()
    ensures forall i | 0 <= i < |BODY_KEYS| :: Sane(BODY_KEYS[i], false)
  {
    hide Sane;
    SaneKeys();
    SaneNameKeys();
    SaneOtherKeys();
    SaneInformation();
    assert BODY_KEYS[0] == "user" && BODY_KEYS[1] == "channel name" && BODY_KEYS[2] == "city";
  }

  lemma SaneNameKeys()
    ensures Sane("channel name", false) && Sane("city", false) && Sane("event name", false)
  {
  }

  lemma SaneOtherKeys()
    ensures Sane("date time", false) && Sane("description", false)
  {
  }

  lemma SaneInformation()
    ensures Sane("general information", false)
  {
  }

  function FixedFields(d: Delivery): seq<string>
  {
    [d.username, d.channel, d.event.city, d.event.name, d.event.description]
  }

  function FixedValues(d: Delivery): seq<string>
  {
    [d.username, d.channel, d.event.city, d.event.name, ToDecimal(d.event.dateTime), d.event.description, ""]
  }

  lemma SameFields(d: Delivery)
    requires forall i | 0 <= i < 5 :: Ascii(FixedFields(d)[i])
    ensures forall i | 0 <= i < 7 :: Ascii(FixedValues(d)[i])
    ensures (exists i :: 0 <= i < 7 && '\0' in FixedValues(d)[i]) <==>
            (exists i :: 0 <= i < 5 && '\0' in FixedFields(d)[i])
  {
    hide ToDecimal, Ascii;
    SaneNumber(d.event.dateTime);
    SaneIsAscii(ToDecimal(d.event.dateTime), false);
    EmptyIsAscii();
    var f, v := FixedFields(d), FixedValues(d);
    assert f[0] == v[0] && f[1] == v[1] && f[2] == v[2] && f[3] == v[3] && f[4] == v[5];
  }

  lemma FixedText(d: Delivery)
    requires forall i | 0 <= i < 5 :: Ascii(FixedFields(d)[i])
    ensures var b := BodyEntries(d.username, d.channel, d.event);
            AsciiHeaders(b) && (NulIn(b) <==> exists i :: 0 <= i < 5 && '\0' in FixedFields(d)[i])
  {
    hide ToDecimal, AsciiHeaders, NulIn, Ascii, Sane;
    var b := BodyEntries(d.username, d.channel, d.event);
    SaneBodyKeys();
    SameFields(d);
    assert Zipped(b, BODY_KEYS, FixedValues(d));
    ZippedText(b, BODY_KEYS, FixedValues(d));
  }

  lemma TabbedText(d: Delivery)
    requires AsciiHeaders(d.info)
    ensures AsciiHeaders(InfoEntries(d.info)) && (NulIn(InfoEntries(d.info)) <==> NulIn(d.info))
  {
    var t := InfoEntries(d.info);
    forall h <- t ensures Ascii(h.0) && Ascii(h.1) {
      var i :| 0 <= i < |t| && t[i] == h;
      assert d.info[i] in d.info;
      assert h.0 == "\t" + d.info[i].0;
    }
    if NulIn(t) {
      var i :| 0 <= i < |t| && ('\0' in t[i].0 || '\0' in t[i].1);
      assert d.info[i] in d.info;
    }
    if NulIn(d.info) {
      var i :| 0 <= i < |t| && ('\0' in d.info[i].0 || '\0' in d.info[i].1);
      assert t[i] in t && t[i].0 == "\t" + d.info[i].0;
    }
  }

  lemma BodyText(d: Delivery)
    requires AsciiEvent(d)
    ensures Sane(Body(d.username, d.channel, d.event, d.info), NulInEvent(d))
  {
    hide Lines, HeaderLines, NulIn, AsciiHeaders, Sane, BodyEntries, InfoEntries, Ascii, FixedFields;
    var b, t := BodyEntries(d.username, d.channel, d.event), InfoEntries(d.info);
    FixedText(d);
    TabbedText(d);
    HeadersText(b);
    HeadersText(t);
    LinesAppend(HeaderLines(b), HeaderLines(t));
    SanePlus(Lines(HeaderLines(b)), Lines(HeaderLines(t)), NulIn(b), NulIn(t));
  }

  lemma SlashText(d: Delivery)
    requires AsciiEvent(d)
    ensures Sane("/" + d.channel, '\0' in d.channel) && ('\0' in d.channel || '\0' in d.username ==> NulInEvent(d))
    ensures Ascii(d.username)
  {
    assert FixedFields(d)[0] == d.username && FixedFields(d)[1] == d.channel;
    SaneMarks();
    SanePlus("/", d.channel, false, '\0' in d.channel);
  }

  function SendFrame(d: Delivery, r: int): string
  {
    CreateSendFrame("/" + d.channel, Body(d.username, d.channel, d.event, d.info), ToDecimal(r))
  }

  lemma SendFrameIs(d: Delivery, r: int)
    requires PlainEvent(d.username, d.channel, d.event, d.info)
    ensures var b := Body(d.username, d.channel, d.event, d.info);
            SendFrame(d, r)
            == "SEND" + "\n" + (Line("destination", "/" + d.channel) + Line("receipt", ToDecimal(r)) + b)
               + "\n" + "\n" + b + "\n"
  {
    hide BodyLines, Lines, FrameOf, CreateSendFrame, ToDecimal, PlainEvent, Line, HeaderLine;
    var b := BodyLines(d.username, d.channel, d.event, d.info);
    SendFrameLines(d.username, d.channel, d.event, d.info, ToDecimal(r));
    LinesOfFrame("SEND", SendLines(d.username, d.channel, d.event, d.info, ToDecimal(r)), b);
    TwoMore("destination", "/" + d.channel, "receipt", ToDecimal(r), b);
  }

  lemma SendFrameCharacters(d: Delivery, r: int)
    requires PlainEvent(d.username, d.channel, d.event, d.info) && AsciiEvent(d)
    ensures Sane(SendFrame(d, r), NulInEvent(d))
  {
    hide Sane, Body, SendFrame, ToDecimal, Line, NulInEvent, AsciiEvent, PlainEvent;
    var nul, c := NulInEvent(d), '\0' in d.channel;
    SendFrameIs(d, r);
    BodyText(d);
    SlashText(d);
    SaneNames();
    SaneMarks();
    SaneNumber(r);
    var body := Body(d.username, d.channel, d.event, d.info);
    var x, y := Line("destination", "/" + d.channel), Line("receipt", ToDecimal(r));
    SaneLine("destination", "/" + d.channel, c);
    SaneLine("receipt", ToDecimal(r), false);
    SanePlus(x, y, c, false);
    SanePlus(x + y, body, c, nul);
    SanePlus("SEND", "\n", false, false);
    SanePlus("SEND" + "\n", x + y + body, false, nul);
    SanePlus("SEND" + "\n" + (x + y + body), "\n", nul, false);
    SanePlus("SEND" + "\n" + (x + y + body) + "\n", "\n", nul, false);
    SanePlus("SEND" + "\n" + (x + y + body) + "\n" + "\n", body, nul, nul);
    SanePlus("SEND" + "\n" + (x + y + body) + "\n" + "\n" + body, "\n", nul, false);
  }

  /**
   * The SEND frame for an event, as bytes into a decoder that is ready for a frame: one message, the one
   * the server publishes, with the decoder ready again, if and only if no text of the event has a NUL.
   */
  lemma EventArrivesIff(decoder: Decoding, d: Delivery, r: int)
    requires decoder.ok && decoder.buffer == ""
    requires PlainEvent(d.username, d.channel, d.event, d.info) && AsciiEvent(d)
    ensures var after := DecodeFrom(decoder, FrameBytes(SendFrame(d, r)));
            var m := EventMessage(d.username, d.channel, d.event, d.info, r);
            && (after.ok && after.buffer == "" && |after.messages| == |decoder.messages| + 1 <==> !NulInEvent(d))
            && (!NulInEvent(d) ==> after == decoder.(messages := decoder.messages + [m]))
  {
    hide NulInEvent, AsciiEvent, PlainEvent, FrameBytes, ParseFrame, CreateSendFrame, Body, ToDecimal, Ascii,
      SendLines, CutLines, MapOf, SentBody;
    SendFrameCharacters(d, r);
    SendFrameParses(d.username, d.channel, d.event, d.info, r);
    ArrivesIff(decoder, SendFrame(d, r));
  }

  // ------------------------------------------------------------------ the MESSAGE frame

  lemma {:induction false} TrimRightIsPrefix(s: string)
    ensures TrimRight(s) <= s
  {
    if s != "" && Blank(s[|s| - 1]) {
      TrimRightIsPrefix(s[..|s| - 1]);
    }
  }

  lemma SentBodyCharacters(d: Delivery, c: char)
    requires c in SentBody(d.username, d.channel, d.event, d.info)
    ensures c in Body(d.username, d.channel, d.event, d.info)
  {
    hide BodyLines, Lines, TrimRight;
    var b := BodyLines(d.username, d.channel, d.event, d.info);
    var front, last := b[..|b| - 1], b[|b| - 1];
    assert b == front + [last];
    TrimRightIsPrefix(last);
    LinesAppend(front, [last]);
    LinesOne(last);
    assert last[..|TrimRight(last)|] == TrimRight(last);
  }

  lemma HeaderMapText(d: Delivery)
    requires Enumerates(d.headers, HeaderMap(d)) && AsciiEvent(d) && !NulInEvent(d)
    ensures AsciiHeaders(d.headers) && !NulIn(d.headers)
  {
    hide ToDecimal, Sane, AsciiEvent, NulInEvent;
    forall h <- d.headers ensures Ascii(h.0) && Ascii(h.1) && '\0' !in h.0 && '\0' !in h.1 {
      var i :| 0 <= i < |d.headers| && d.headers[i] == h;
      assert h.0 in HeaderMap(d) && h.1 == HeaderMap(d)[h.0];
      OneHeader(d, h.0);
    }
  }

  lemma OneHeader(d: Delivery, key: string)
    requires key in HeaderMap(d) && AsciiEvent(d) && !NulInEvent(d)
    ensures Ascii(key) && '\0' !in key && Ascii(HeaderMap(d)[key]) && '\0' !in HeaderMap(d)[key]
  {
    hide ToDecimal, AsciiEvent, NulInEvent;
    SlashText(d);
    SaneNumber(d.subscription);
    SaneNumber(d.messageId);
    SaneMessageKeys();
  }

  lemma SaneMessageKeys()
    ensures Sane("destination", false) && Sane("subscription", false) && Sane("user", false)
    ensures Sane("message-id", false)
  {
  }

  lemma MessageWord()
    ensures Sane("MESSAGE" + "\n", false)
  {
  }

  lemma MessageCharacters(d: Delivery)
    requires Enumerates(d.headers, HeaderMap(d)) && AsciiEvent(d) && !NulInEvent(d)
    ensures Sane(MessageText(d), false)
  {
    hide Sane, Body, SentBody, HeaderMap, AsciiEvent, NulInEvent, HeaderLines, Lines, Enumerates, AsciiHeaders, NulIn;
    var hs, body := Lines(HeaderLines(d.headers)), SentBody(d.username, d.channel, d.event, d.info);
    HeaderMapText(d);
    HeadersText(d.headers);
    SentBodyText(d);
    MessageWord();
    SaneMarks();
    SanePlus("MESSAGE" + "\n", hs, false, false);
    SanePlus("MESSAGE" + "\n" + hs, "\n", false, false);
    SanePlus("MESSAGE" + "\n" + hs + "\n", body, false, false);
  }

  lemma SentBodyText(d: Delivery)
    requires AsciiEvent(d) && !NulInEvent(d)
    ensures Sane(SentBody(d.username, d.channel, d.event, d.info), false)
  {
    hide Body, SentBody, AsciiEvent, NulInEvent;
    BodyText(d);
    var body := SentBody(d.username, d.channel, d.event, d.info);
    forall c | c in body ensures c < 128 as char && c != '\0' { SentBodyCharacters(d, c); }
  }

  /** What the server sends for the event. */
  function Reply(d: Delivery): StompMessage
  {
    StompMessage("MESSAGE", HeaderMap(d), SentBody(d.username, d.channel, d.event, d.info))
  }

  /** The bytes of the MESSAGE frame, in any order of its headers, read back off any stream they are at the head of. */
  lemma MessageIsRead(d: Delivery, more: seq<Byte>)
    requires Enumerates(d.headers, HeaderMap(d)) && AsciiEvent(d) && !NulInEvent(d)
    ensures ReadFrame(Wire(Reply(d), d.headers) + more) == Some((MessageText(d), more))
  {
    hide HeaderMap, AsciiEvent, NulInEvent, Enumerates, SentBody, ReadFrame, FrameText, Utf8;
    MessageCharacters(d);
    FrameIsReadIff(MessageText(d), more);
  }

  // ------------------------------------------------------------------ the whole way

  /** Step `i` of the run takes the event's SEND frame, from a sender that has subscribed to its channel. */
  ghost predicate TakesEvent(ss: seq<Server>, ls: seq<ServerStep>, i: nat, d: Delivery, r: int)
    requires IsServerRun(ss, ls) && i < |ls|
  {
    && ls[i].Frame? && ls[i].message == EventMessage(d.username, d.channel, d.event, d.info, r)
    && CanStep(ss[i], ls[i])
    && (var p := ss[i].protos[ls[i].id];
        "/" + d.channel in p.subscriptions && p.subscriptions["/" + d.channel] == d.subscription)
    && d.messageId == Incremented(ss[i].counter)
  }

  lemma EventIsSend(d: Delivery, r: int)
    ensures EventMessage(d.username, d.channel, d.event, d.info, r).command == "SEND"
  {
    hide MapOf, CutLines, SendLines, SentBody, ToDecimal;
  }

  lemma EventIsPublished(ss: seq<Server>, ls: seq<ServerStep>, i: nat, c: Id, d: Delivery, r: int)
    requires IsServerRun(ss, ls) && i < |ls| && TakesEvent(ss, ls, i, d, r) && Deliverable(d)
    requires c in ss[i].protos && c !in ss[i].closed
    ensures Outbox(ss[i + 1].registry, c)
         == Outbox(ss[i].registry, c)
            + if "/" + d.channel in ss[i].protos[c].subscriptions then [Reply(d)] else []
  {
    hide EventMessage, MessageFrame, HeaderMap, SentBody, ToDecimal, PlainEvent, Unmarked, Enumerates, Step,
      Initial, NoRepeats, Delivers, ParseFrame, CreateSendFrame, Body, CanPick;
    var x, m := SessionOf(ss[i], ls[i].id), ls[i].message;
    PublishedText(d, r, x.proto);
    EventReachesServer(d.username, d.channel, d.event, d.info, r, x.proto);
    assert m.command == "SEND" by { EventIsSend(d, r); }
    assert m.headers["destination"] == "/" + d.channel;
    ExactFanOut(ss, ls, i, c);
  }

  /** What `sendMessage` hands over for the event is that frame. */
  lemma FrameOfClient(client: Client, d: Delivery)
    requires client.isConnected && d.channel in client.subscriptions
    ensures SendMessage(client, d.channel, Body(d.username, d.channel, d.event, d.info)).frame
         == Some(SendFrame(d, client.receiptID + 1))
  {
    hide CreateSendFrame, Body, ToDecimal;
  }

  /**
   * An event's whole way, as bytes and in any run of the server. What the client hands over for the event goes
   * into the decoder of its connection and comes out as the message of one step; with that step every open
   * connection gets the MESSAGE frame exactly if it has subscribed to the channel; the frame's bytes, headers
   * in any order and anything behind them, are read as one text; and the receiving client stores from it an
   * event with the sender's values, each flag as it was set if and only if the information has it read right.
   */
  lemma EventTravels(ss: seq<Server>, ls: seq<ServerStep>, i: nat, c: Id, d: Delivery, client: Client,
                     decoder: Decoding, more: seq<Byte>, events: Store)
    requires IsServerRun(ss, ls) && i < |ls| && TakesEvent(ss, ls, i, d, client.receiptID + 1)
    requires client.isConnected && d.channel in client.subscriptions
    requires Deliverable(d) && AsciiEvent(d) && !NulInEvent(d)
    requires decoder.ok && decoder.buffer == "" && c in ss[i].protos && c !in ss[i].closed
    ensures var sent := SendMessage(client, d.channel, Body(d.username, d.channel, d.event, d.info)).frame;
            && sent.Some?
            && DecodeFrom(decoder, FrameBytes(sent.value))
               == decoder.(messages := decoder.messages + [ls[i].message])
    ensures Outbox(ss[i + 1].registry, c)
         == Outbox(ss[i].registry, c)
            + if "/" + d.channel in ss[i].protos[c].subscriptions then [Reply(d)] else []
    ensures Enumerates(d.headers, Reply(d).headers)
    ensures ReadFrame(Wire(Reply(d), d.headers) + more) == Some((MessageText(d), more))
    ensures var key, e := "/" + d.channel, ParseEvent(MessageText(d)).(owner := d.username);
            && HandleReceivedMessage(events, MessageText(d)) == events[key := Stored(events, key) + [e]]
            && e.channel == key && e.city == d.event.city && e.name == d.event.name
            && e.dateTime == d.event.dateTime && e.description == d.event.description
            && ((IsActive(e) <==> IsActive(d.event)) <==> ReadRight(d.event.info, "active"))
            && ((ForcesArrival(e) <==> ForcesArrival(d.event)) <==>
                  ReadRight(d.event.info, "forces_arrival_at_scene"))
  {
    hide Step, CanStep, EventMessage, SendFrame, SendMessage, Body, FrameBytes, DecodeFrom, AsciiEvent, NulInEvent,
      HeaderMap, Wire, ReadFrame, MessageText, ParseEvent, HandleReceivedMessage, ReadRight, PlainEvent, Unmarked,
      Enumerates, SentBody, IsActive, ForcesArrival;
    FrameOfClient(client, d);
    EventArrivesIff(decoder, d, client.receiptID + 1);
    EventIsPublished(ss, ls, i, c, d, client.receiptID + 1);
    MessageIsRead(d, more);
    StoredEvent(d, events);
  }
}
