/** The way back: the MESSAGE frame the server makes of an event's SEND frame, and what a client parses out of it. */
module EventDelivery {
  import opened Text
  import opened Decimal
  import opened Search
  import opened StompFrame
  import opened CreateFrames
  import opened Events
  import opened EventPipeline
  import opened Broker

  // ------------------------------------------------------------------ markers

  /** The texts `parseEvent` searches for: a field, a colon, and for the flags a value. */
  const MARKERS: seq<(string, string)> :=
    [("city", ""), ("event name", ""), ("date time", ""), ("description", ""), ("general information", ""),
     ("destination", ""), ("active", "true"), ("forces_arrival_at_scene", "true")]

  function Marker(w: string, t: string): string { w + ":" + t }

  ghost predicate Unmarked(text: string)
  {
    forall i | 0 <= i < |MARKERS| :: !Contains(text, Marker(MARKERS[i].0, MARKERS[i].1))
  }

  lemma NoColonNoMarker(text: string, w: string, t: string)
    requires ':' !in text
    ensures !Contains(text, Marker(w, t))
  {
    if Contains(text, Marker(w, t)) {
      var i: nat :| OccursAt(text, Marker(w, t), i);
      Meets(text, Marker(w, t), i, |w|);
    }
  }

  lemma NumberUnmarked(n: int, w: string, t: string)
    ensures !Contains(ToDecimal(n), Marker(w, t))
  {
    hide ToDecimal;
    PrintedCharacters(n);
    NoColonNoMarker(ToDecimal(n), w, t);
  }

  lemma SlashUnmarked(text: string, w: string, t: string)
    requires !Contains(text, Marker(w, t)) && w != "" && w[0] != '/'
    ensures !Contains("/" + text, Marker(w, t))
  {
    var s, marker := "/" + text, Marker(w, t);
    if Contains(s, marker) {
      var i: nat :| OccursAt(s, marker, i);
      Meets(s, marker, i, 0);
      assert s[1..] == text;
      assert s[1..][i - 1..i - 1 + |marker|] == s[i..i + |marker|];
      assert OccursAt(text, marker, i - 1);
    }
  }

  lemma LineUnmarked(h: Header, w: string, t: string)
    requires ':' !in h.0 && ':' !in w && !EndsWith(h.0, w) && !Contains(h.1, Marker(w, t))
    ensures !Contains(HeaderLine(h), Marker(w, t))
  {
    hide Contains, EndsWith;
    MarkerInLine(h.0, h.1, w, t);
  }

  /** Two texts that differ `k` characters before their ends. */
  lemma DiffersAt(s: string, w: string, k: nat)
    requires k < |w| && (|w| <= |s| ==> s[|s| - 1 - k] != w[|w| - 1 - k])
    ensures !EndsWith(s, w)
  {
    if |w| <= |s| {
      assert s[|s| - |w|..][|w| - 1 - k] == s[|s| - 1 - k];
    }
  }

  ghost predicate AvoidsKey(key: string, w: string) { ':' !in key && !EndsWith(key, w) }

  ghost predicate Avoids(keys: seq<string>, w: string)
  {
    ':' !in w && w != "" && w[0] != '/' && forall i | 0 <= i < |keys| :: AvoidsKey(keys[i], w)
  }

  const HEADER_KEYS := ["subscription", "user", "message-id"]
  const BODY_KEYS := ["user", "channel name", "city", "event name", "date time", "description", "general information"]

  lemma AvoidsCity()
    ensures AvoidsKey("destination", "city") && Avoids(HEADER_KEYS, "city") && Avoids(BODY_KEYS[..2], "city")
  {
    hide EndsWith;
    var w := "city";
    DiffersAt("destination", w, 0);
    DiffersAt("subscription", w, 0);
    DiffersAt("user", w, 0);
    DiffersAt("message-id", w, 0);
    DiffersAt("channel name", w, 0);
  }

  lemma AvoidsEventName()
    ensures AvoidsKey("destination", "event name") && Avoids(HEADER_KEYS, "event name")
    ensures Avoids(BODY_KEYS[..3], "event name")
  {
    hide EndsWith;
    var w := "event name";
    DiffersAt("destination", w, 0);
    DiffersAt("subscription", w, 0);
    DiffersAt("user", w, 0);
    DiffersAt("message-id", w, 0);
    DiffersAt("channel name", w, 5);
    DiffersAt("city", w, 0);
  }

  lemma AvoidsDateTime()
    ensures AvoidsKey("destination", "date time") && Avoids(HEADER_KEYS, "date time")
    ensures Avoids(BODY_KEYS[..4], "date time")
  {
    hide EndsWith;
    var w := "date time";
    DiffersAt("destination", w, 0);
    DiffersAt("subscription", w, 0);
    DiffersAt("user", w, 0);
    DiffersAt("message-id", w, 0);
    DiffersAt("channel name", w, 2);
    DiffersAt("city", w, 0);
    DiffersAt("event name", w, 2);
  }

  lemma AvoidsDescription()
    ensures AvoidsKey("destination", "description") && Avoids(HEADER_KEYS, "description")
    ensures Avoids(BODY_KEYS[..5], "description")
  {
    hide EndsWith;
    var w := "description";
    DiffersAt("destination", w, 4);
    DiffersAt("subscription", w, 9);
    DiffersAt("user", w, 0);
    DiffersAt("message-id", w, 0);
    DiffersAt("channel name", w, 0);
    DiffersAt("city", w, 0);
    DiffersAt("event name", w, 0);
    DiffersAt("date time", w, 0);
  }

  /** A marker longer than every key. */
  lemma AvoidsLong(w: string)
    requires ':' !in w && |w| >= 19 && w[0] != '/'
    ensures AvoidsKey("destination", w) && Avoids(HEADER_KEYS, w) && Avoids(BODY_KEYS[..6], w)
    ensures |w| > 19 ==> Avoids(BODY_KEYS, w)
  {
  }

  lemma AvoidsActive()
    ensures AvoidsKey("destination", "active") && Avoids(HEADER_KEYS, "active") && Avoids(BODY_KEYS, "active")
  {
    hide EndsWith;
    var w := "active";
    DiffersAt("destination", w, 0);
    DiffersAt("subscription", w, 0);
    DiffersAt("user", w, 0);
    DiffersAt("message-id", w, 0);
    DiffersAt("channel name", w, 1);
    DiffersAt("city", w, 0);
    DiffersAt("event name", w, 1);
    DiffersAt("date time", w, 1);
    DiffersAt("description", w, 0);
    DiffersAt("general information", w, 0);
  }

  lemma AvoidsDestination()
    ensures Avoids(HEADER_KEYS, "destination")
  {
    hide EndsWith;
    var w := "destination";
    DiffersAt("subscription", w, 4);
    DiffersAt("user", w, 0);
    DiffersAt("message-id", w, 0);
  }

  // ------------------------------------------------------------------ the MESSAGE frame

  /** Everything a theorem about one delivery talks about: the event, its sender, and the server's choices. */
  datatype Delivery = Delivery(
    username: string,
    channel: string,
    event: Event,
    info: seq<Header>,         // the general information in the order of its map
    subscription: int,         // the sender's subscription number
    messageId: int,
    headers: seq<Header>)      // the MESSAGE frame's headers in the order they are printed

  function HeaderMap(d: Delivery): map<string, string>
  {
    map["destination" := "/" + d.channel, "subscription" := ToDecimal(d.subscription), "user" := d.username,
        "message-id" := ToDecimal(d.messageId)]
  }

  /** What is asked of an event: plain texts without markers, and a sender with a name. */
  ghost predicate Deliverable(d: Delivery)
  {
    && PlainEvent(d.username, d.channel, d.event, d.info) && d.username != ""
    && Unmarked(d.username) && Unmarked(d.channel) && Unmarked(d.event.city) && Unmarked(d.event.name)
    && Unmarked(d.event.description)
    && Enumerates(d.headers, HeaderMap(d))
  }

  function Lined(d: Delivery): seq<string> { BodyLines(d.username, d.channel, d.event, d.info) }

  function MessageText(d: Delivery): string
  {
    FrameText("MESSAGE", d.headers, SentBody(d.username, d.channel, d.event, d.info))
  }

  /** The lines of the frame but the last, and the last as it was trimmed. */
  function Heads(d: Delivery): seq<string>
  {
    ["MESSAGE"] + HeaderLines(d.headers) + [""] + Lined(d)[..if Lined(d) == [] then 0 else |Lined(d)| - 1]
  }

  function Tail(d: Delivery): string { if Lined(d) == [] then "" else TrimRight(Lined(d)[|Lined(d)| - 1]) }

  lemma TextOfLines(d: Delivery)
    ensures Lined(d) != [] && MessageText(d) == Lines(Heads(d)) + Tail(d)
  {
    hide Lines, BodyLines, TrimRight, HeaderLines;
    BodyShape(d.username, d.channel, d.event, d.info);
    var b := Lined(d);
    var front := b[..|b| - 1];
    assert Heads(d) == ["MESSAGE"] + (HeaderLines(d.headers) + ([""] + front));
    LinesCons("MESSAGE", HeaderLines(d.headers) + ([""] + front));
    LinesAppend(HeaderLines(d.headers), [""] + front);
    LinesCons("", front);
    assert "MESSAGE" + "\n" + Lines(HeaderLines(d.headers)) + "\n" + (Lines(front) + Tail(d))
        == "MESSAGE" + "\n" + (Lines(HeaderLines(d.headers)) + ("" + "\n" + Lines(front))) + Tail(d);
  }

  /** The frame the server sends is that text. */
  lemma PublishedText(d: Delivery, r: int, p: Proto)
    requires "/" + d.channel in p.subscriptions && p.subscriptions["/" + d.channel] == d.subscription
    requires PlainEvent(d.username, d.channel, d.event, d.info) && d.username != ""
    ensures var m := EventMessage(d.username, d.channel, d.event, d.info, r);
            && Sends(p, m)
            && MessageFrame(p, m, d.messageId)
               == StompMessage("MESSAGE", HeaderMap(d), SentBody(d.username, d.channel, d.event, d.info))
  {
    hide EventMessage, ToDecimal, SentBody, PlainEvent, ParseFrame, CreateSendFrame, Body;
    EventReachesServer(d.username, d.channel, d.event, d.info, r, p);
  }

  // ------------------------------------------------------------------ lines without a marker

  lemma HeaderUnmarked(d: Delivery, i: nat, w: string, t: string)
    requires Enumerates(d.headers, HeaderMap(d)) && i < |d.headers|
    requires !Contains(d.username, Marker(w, t)) && !Contains(d.channel, Marker(w, t))
    requires Avoids(HEADER_KEYS, w) && (d.headers[i].0 == "destination" ==> AvoidsKey("destination", w))
    ensures !Contains(HeaderLine(d.headers[i]), Marker(w, t))
  {
    hide Contains, EndsWith, ToDecimal, HeaderLine, Marker;
    var h := d.headers[i];
    SlashUnmarked(d.channel, w, t);
    NumberUnmarked(d.subscription, w, t);
    NumberUnmarked(d.messageId, w, t);
    assert h.0 in HeaderMap(d) && HeaderMap(d)[h.0] == h.1;
    assert h.0 == "destination" || h.0 == "subscription" || h.0 == "user" || h.0 == "message-id";
    assert !EndsWith(h.0, w) && ':' !in h.0 by {
      assert HEADER_KEYS[0] == "subscription" && HEADER_KEYS[1] == "user" && HEADER_KEYS[2] == "message-id";
    }
    LineUnmarked(h, w, t);
  }

  ghost predicate IsMarker(w: string, t: string) { exists k :: 0 <= k < |MARKERS| && MARKERS[k] == (w, t) }

  lemma MarkerUnmarked(text: string, w: string, t: string)
    requires Unmarked(text) && IsMarker(w, t)
    ensures !Contains(text, Marker(w, t))
  {
    hide Contains, Marker;
    var k :| 0 <= k < |MARKERS| && MARKERS[k] == (w, t);
    assert !Contains(text, Marker(MARKERS[k].0, MARKERS[k].1));
  }

  lemma FieldUnmarked(d: Delivery, i: nat, w: string, t: string)
    requires Deliverable(d) && i < 7 && IsMarker(w, t)
    requires !EndsWith(BODY_KEYS[i], w) && ':' !in w
    ensures !Contains(Lined(d)[i], Marker(w, t)) && i < |Lined(d)|
  {
    hide Contains, EndsWith, ToDecimal, HeaderLine, Marker, PlainEvent, BodyLines, Enumerates;
    var fixed := BodyEntries(d.username, d.channel, d.event);
    BodyShape(d.username, d.channel, d.event, d.info);
    NumberUnmarked(d.event.dateTime, w, t);
    NoColonNoMarker("", w, t);
    KeysOfBody(d.username, d.channel, d.event, i);
    LineUnmarked(fixed[i], w, t);
  }

  lemma KeysOfBody(username: string, channel: string, e: Event, i: nat)
    requires i < 7
    ensures BodyEntries(username, channel, e)[i].0 == BODY_KEYS[i] && ':' !in BODY_KEYS[i]
  {
    hide ToDecimal;
  }

  /** No line of the frame before the body's line `k` has the marker. */
  lemma UnmarkedBefore(d: Delivery, k: nat, w: string, t: string)
    requires Deliverable(d) && IsMarker(w, t) && k <= 7
    requires AvoidsKey("destination", w) && Avoids(HEADER_KEYS, w) && Avoids(BODY_KEYS[..k], w)
    ensures forall j | 0 <= j < 2 + |d.headers| + k && j < |Heads(d)| :: !Contains(Heads(d)[j], Marker(w, t))
    ensures 2 + |d.headers| + 6 <= |Heads(d)|
  {
    hide Contains, EndsWith, ToDecimal, HeaderLine, Marker, PlainEvent, BodyLines, Enumerates, Unmarked, IsMarker;
    BodyShape(d.username, d.channel, d.event, d.info);
    MarkerUnmarked(d.username, w, t);
    MarkerUnmarked(d.channel, w, t);
    forall j | 0 <= j < 2 + |d.headers| + k && j < |Heads(d)| ensures !Contains(Heads(d)[j], Marker(w, t)) {
      if j == 0 {
        NoColonNoMarker("MESSAGE", w, t);
      } else if j <= |d.headers| {
        HeaderUnmarked(d, j - 1, w, t);
      } else if j == 1 + |d.headers| {
        NoColonNoMarker("", w, t);
      } else {
        var i := j - 2 - |d.headers|;
        assert BODY_KEYS[..k][i] == BODY_KEYS[i];
        FieldUnmarked(d, i, w, t);
        assert Heads(d)[j] == Lined(d)[i];
      }
    }
  }

  // ------------------------------------------------------------------ the fields

  /** The field on the body's line `k`. */
  lemma FieldSurvives(d: Delivery, k: nat, w: string, value: string)
    requires Deliverable(d) && IsMarker(w, "") && k < 6 && w == BODY_KEYS[k] && OneLine(value) && '\n' !in w
    requires BodyEntries(d.username, d.channel, d.event)[k] == (w, value)
    requires AvoidsKey("destination", w) && Avoids(HEADER_KEYS, w) && Avoids(BODY_KEYS[..k], w)
    ensures Extract(MessageText(d), w + ":") == value
  {
    hide Contains, EndsWith, ToDecimal, PlainEvent, BodyLines, Enumerates, Unmarked, IsMarker, Extract, Lines,
      HeaderLines, MessageText, Tail, Avoids, Deliverable;
    TextOfLines(d);
    BodyShape(d.username, d.channel, d.event, d.info);
    UnmarkedBefore(d, k, w, "");
    assert Marker(w, "") == w + ":";
    var n := 2 + |d.headers| + k;
    assert Heads(d)[n] == Lined(d)[k] == w + ":" + value;
    ExtractFromLines(Heads(d), n, w + ":", value, Tail(d));
  }

  lemma CitySurvives(d: Delivery)
    requires Deliverable(d)
    ensures Extract(MessageText(d), "city:") == d.event.city
  {
    hide Extract, MessageText, Avoids, Unmarked, ToDecimal, Enumerates;
    AvoidsCity();
    assert MARKERS[0] == ("city", "");
    FieldSurvives(d, 2, "city", d.event.city);
    assert "city" + ":" == "city:";
  }

  lemma NameSurvives(d: Delivery)
    requires Deliverable(d)
    ensures Extract(MessageText(d), "event name:") == d.event.name
  {
    hide Extract, MessageText, Avoids, Unmarked, ToDecimal, Enumerates;
    AvoidsEventName();
    assert MARKERS[1] == ("event name", "");
    FieldSurvives(d, 3, "event name", d.event.name);
    assert "event name" + ":" == "event name:";
  }

  lemma DateSurvives(d: Delivery)
    requires Deliverable(d)
    ensures DateTime(Extract(MessageText(d), "date time:")) == d.event.dateTime
  {
    hide Extract, MessageText, Avoids, Unmarked, ToDecimal, Enumerates, Stol;
    AvoidsDateTime();
    assert MARKERS[2] == ("date time", "");
    DecimalIsOneLine(d.event.dateTime);
    FieldSurvives(d, 4, "date time", ToDecimal(d.event.dateTime));
    assert "date time" + ":" == "date time:";
    StolPrinted(d.event.dateTime);
  }

  lemma DescriptionSurvives(d: Delivery)
    requires Deliverable(d)
    ensures Extract(MessageText(d), "description:") == d.event.description
  {
    hide Extract, MessageText, Avoids, Unmarked, ToDecimal, Enumerates;
    AvoidsDescription();
    assert MARKERS[3] == ("description", "");
    FieldSurvives(d, 5, "description", d.event.description);
    assert "description" + ":" == "description:";
  }

  /** The headers are printed in any order; those before the destination do not have its marker. */
  lemma BeforeDestination(d: Delivery, i: nat)
    requires Deliverable(d) && i < |d.headers| && d.headers[i].0 == "destination"
    ensures forall j | 0 <= j < 1 + i :: !Contains(Heads(d)[j], Marker("destination", ""))
  {
    hide Contains, Deliverable, Marker, Lined;
    NoColonNoMarker("MESSAGE", "destination", "");
    assert Heads(d)[0] == "MESSAGE";
    forall j | 0 < j < 1 + i ensures !Contains(Heads(d)[j], Marker("destination", "")) {
      OneBeforeDestination(d, i, j - 1);
      assert Heads(d)[j] == HeaderLine(d.headers[j - 1]);
    }
  }

  lemma OneBeforeDestination(d: Delivery, i: nat, j: nat)
    requires Deliverable(d) && j < i < |d.headers| && d.headers[i].0 == "destination"
    ensures !Contains(HeaderLine(d.headers[j]), Marker("destination", ""))
  {
    hide Contains, EndsWith, ToDecimal, BodyLines, Unmarked, Avoids, Marker, HeaderLine, PlainEvent;
    assert MARKERS[5] == ("destination", "") && IsMarker("destination", "");
    MarkerUnmarked(d.username, "destination", "");
    MarkerUnmarked(d.channel, "destination", "");
    AvoidsDestination();
    assert d.headers[j].0 != "destination";
    HeaderUnmarked(d, j, "destination", "");
  }

  lemma DestinationHeader(d: Delivery) returns (i: nat)
    requires Deliverable(d)
    ensures i < |d.headers| && d.headers[i] == ("destination", "/" + d.channel) && OneLine("/" + d.channel)
  {
    hide Unmarked, ToDecimal;
    assert "destination" in HeaderMap(d);
    i :| 0 <= i < |d.headers| && d.headers[i].0 == "destination";
    PlainSlash(d.channel);
  }

  lemma DestinationSurvives(d: Delivery)
    requires Deliverable(d)
    ensures Extract(MessageText(d), "destination:") == "/" + d.channel
  {
    hide Contains, BodyLines, Extract, Lines, MessageText, Tail, Marker, HeaderLine, Deliverable;
    var i := DestinationHeader(d);
    BeforeDestination(d, i);
    TextOfLines(d);
    DestinationLine(d.headers[i], d.channel);
    assert Heads(d)[1 + i] == HeaderLine(d.headers[i]);
    ExtractFromLines(Heads(d), 1 + i, "destination:", "/" + d.channel, Tail(d));
  }

  lemma DestinationLine(h: Header, channel: string)
    requires h == ("destination", "/" + channel)
    ensures HeaderLine(h) == "destination:" + ("/" + channel) && Marker("destination", "") == "destination:"
    ensures '\n' !in "destination:"
  {
  }
}
