/** What a client has stored after any frames: exactly the events of the MESSAGE frames, in order, and nothing goes. */
module EventHistory {
  import opened Text
  import opened Decimal
  import opened Search
  import opened StompFrame
  import opened CreateFrames
  import opened Events
  import opened EventMeaning

  /** The channel a frame is stored under, if it is: a MESSAGE with a destination and a user, and no receipt. */
  function StoredUnder(text: string): Option<string>
  {
    var h := ParseMessage(text);
    if "command" in h && h["command"] == "MESSAGE" && "receipt-id" !in h
       && "destination" in h && h["destination"] != "" && "user" in h && h["user"] != ""
    then Some(h["destination"]) else None
  }

  /** The event stored for it. */
  function EventOf(text: string): Event
    requires StoredUnder(text).Some?
  {
    ParseEvent(text).(owner := ParseMessage(text)["user"])
  }

  function StoreAfter(events: Store, texts: seq<string>): Store
    decreases |texts|
  {
    if texts == [] then events else StoreAfter(HandleReceivedMessage(events, texts[0]), texts[1..])
  }

  /** The events of some frames that are stored under `d`, in the order of the frames. */
  function EventsFor(texts: seq<string>, d: string): seq<Event>
  {
    if texts == [] then []
    else (if StoredUnder(texts[0]) == Some(d) then [EventOf(texts[0])] else []) + EventsFor(texts[1..], d)
  }

  lemma OneFrame(events: Store, text: string, d: string)
    ensures Stored(HandleReceivedMessage(events, text), d)
         == Stored(events, d) + if StoredUnder(text) == Some(d) then [EventOf(text)] else []
  {
    hide ParseMessage, ParseEvent;
  }

  /**
   * After any frames at all, in any order, a channel has the events it had before and then those of the
   * MESSAGE frames for it, one each and in order: no frame removes, changes or repeats a stored event.
   */
  lemma {:induction false} StoreIsHistory(events: Store, texts: seq<string>, d: string)
    ensures Stored(StoreAfter(events, texts), d) == Stored(events, d) + EventsFor(texts, d)
    decreases |texts|
  {
    hide HandleReceivedMessage, StoredUnder, EventOf;
    if texts != [] {
      var next := HandleReceivedMessage(events, texts[0]);
      OneFrame(events, texts[0], d);
      StoreIsHistory(next, texts[1..], d);
      Assoc(Stored(events, d), if StoredUnder(texts[0]) == Some(d) then [EventOf(texts[0])] else [],
            EventsFor(texts[1..], d));
    }
  }

  /** The store is the same after a frame if and only if the frame is not one that is stored. */
  lemma UnchangedIff(events: Store, text: string)
    ensures HandleReceivedMessage(events, text) == events <==> StoredUnder(text) == None
  {
    hide ParseMessage, ParseEvent;
    if StoredUnder(text).Some? {
      OneFrame(events, text, StoredUnder(text).value);
    }
  }

  // ------------------------------------------------------------------ the server's other frames

  /** What the client makes of the headers of a printed frame, whatever its body. */
  lemma PrintedHeaders(command: string, entries: seq<Header>, body: string)
    requires OneLine(command)
    requires forall e <- entries :: ':' !in e.0 && OneLine(e.0) && OneLine(e.1)
    ensures ParseMessage(FrameText(command, entries, body)) == map["command" := command] + MapOf(entries)
  {
    hide SplitAll, Lines, HeaderLines, MapOf, CollectHeaders;
    var front := [command] + HeaderLines(entries) + [""];
    FrontIsOneLine(command, entries);
    FrameIsLines(command, entries, body);
    SplitLines(front, body);
    var pieces := front + SplitAll(body, '\n');
    var lines := GetLines(FrameText(command, entries, body));
    assert front <= lines;
    assert lines[1..1 + |entries|] == front[1..1 + |entries|] == HeaderLines(entries);
    assert lines[1 + |entries|] == front[1 + |entries|] == "";
    EmptyMap(entries);
    assert map["command" := command] + map[] == map["command" := command];
    CollectPrinted(lines, entries, 0, map["command" := command]);
  }

  lemma FrontIsOneLine(command: string, entries: seq<Header>)
    requires OneLine(command) && forall e <- entries :: OneLine(e.0) && OneLine(e.1)
    ensures var front := [command] + HeaderLines(entries) + [""];
            forall i | 0 <= i < |front| :: '\n' !in front[i]
  {
    HeaderLinesAreLines(entries);
  }

  lemma FrameIsLines(command: string, entries: seq<Header>, body: string)
    ensures FrameText(command, entries, body) == Lines([command] + HeaderLines(entries) + [""]) + body
  {
    hide Lines, HeaderLines;
    var hs := HeaderLines(entries);
    assert [command] + hs + [""] == [command] + (hs + [""]);
    LinesCons(command, hs + [""]);
    LinesAppend(hs, [""]);
    LinesOne("");
    assert command + "\n" + Lines(hs) + "\n" + body == command + "\n" + (Lines(hs) + ("" + "\n")) + body;
  }

  /** A frame of the server that is not a MESSAGE, with whatever body, stores nothing. */
  lemma OtherFramesStoreNothing(events: Store, m: StompMessage, entries: seq<Header>)
    requires Enumerates(entries, m.headers) && OneLine(m.command) && m.command != "MESSAGE"
    requires forall k <- m.headers :: ':' !in k && OneLine(k) && OneLine(m.headers[k]) && k != "command"
    ensures HandleReceivedMessage(events, FrameText(m.command, entries, m.body)) == events
  {
    hide ParseMessage, HandleReceivedMessage, MapOf;
    PrintedHeaders(m.command, entries, m.body);
    MapOfEnumeration(entries, m.headers);
    UnchangedIff(events, FrameText(m.command, entries, m.body));
  }

  // ------------------------------------------------------------------ any message at all

  const DATE_MARKER := "date time:"
  const INFO_MARKER := "general information:"

  lemma MarkersAreOneLine()
    ensures DATE_MARKER != "" && '\n' !in DATE_MARKER && INFO_MARKER != "" && '\n' !in INFO_MARKER
  {
  }

  /** The two flags, by whether their markers occur. */
  ghost function FlagsOf(text: string): map<string, string>
  {
    map["active" := if Contains(text, "active:true") then "true" else "false",
        "forces_arrival_at_scene" := if Contains(text, "forces_arrival_at_scene:true") then "true" else "false"]
  }

  lemma PartsOfEvent(text: string)
    ensures ParseEvent(text).dateTime == DateTime(Extract(text, DATE_MARKER))
    ensures ParseEvent(text).info == WithSection(FlagsOf(text), Extract(text, INFO_MARKER))
  {
    hide Extract, Contains, DateTime, Find, ParseMessage, WithSection;
    FindIffContains(text, "active:true");
    FindIffContains(text, "forces_arrival_at_scene:true");
  }

  lemma DateOf(value: string)
    ensures var date := DateTime(value);
            && IsInt(date)
            && (forall n | MIN_LONG <= n <= MAX_LONG && StartsWith(value, n) :: (date - n) % 0x1_0000_0000 == 0)
            && ((forall n | MIN_LONG <= n <= MAX_LONG :: !StartsWith(value, n)) ==> date == 0)
  {
    hide Stol, StartsWith;
    forall n | MIN_LONG <= n <= MAX_LONG && StartsWith(value, n) ensures Stol(value) == Some(n) { StolIff(value, n); }
    if Stol(value).Some? { StolIff(value, Stol(value).value); }
  }

  /** The date of whatever is parsed: the number its text starts with, kept modulo 2^32, or zero without one. */
  lemma DateIsRead(lines: seq<string>, k: nat, value: string, rest: string)
    requires k < |lines| && lines[k] == DATE_MARKER + value && OneLine(value)
    requires forall j | 0 <= j < k :: !Contains(lines[j], DATE_MARKER)
    ensures var date := ParseEvent(Lines(lines) + rest).dateTime;
            && IsInt(date)
            && (forall n | MIN_LONG <= n <= MAX_LONG && StartsWith(value, n) :: (date - n) % 0x1_0000_0000 == 0)
            && ((forall n | MIN_LONG <= n <= MAX_LONG :: !StartsWith(value, n)) ==> date == 0)
  {
    hide Extract, Contains, DateTime, StartsWith, ParseEvent, Lines, WithSection, FlagsOf, DATE_MARKER;
    MarkersAreOneLine();
    ExtractFromLines(lines, k, DATE_MARKER, value, rest);
    PartsOfEvent(Lines(lines) + rest);
    DateOf(value);
  }

  lemma CutOfSection(info: map<string, string>, key: string, v: string)
    requires ':' !in key
    ensures WithSection(info, HeaderLine((key, v))) == info[key := v]
  {
    var value := HeaderLine((key, v));
    IndexOfSkips(key, ':', ":" + v);
    assert value == key + (":" + v);
    assert value[..|key|] == key && value[|key| + 1..] == v;
  }

  lemma NoSection(info: map<string, string>, value: string)
    requires ':' !in value
    ensures WithSection(info, value) == info
  {
    assert IndexOf(value, ':') == |value|;
  }

  /** The general information of whatever is parsed: the two flags, and what stands behind its marker with a colon. */
  lemma SectionIsRead(lines: seq<string>, k: nat, value: string, rest: string)
    requires k < |lines| && lines[k] == INFO_MARKER + value && OneLine(value)
    requires forall j | 0 <= j < k :: !Contains(lines[j], INFO_MARKER)
    ensures var text := Lines(lines) + rest;
            && (':' !in value ==> ParseEvent(text).info == FlagsOf(text))
            && (forall key, v | ':' !in key && value == HeaderLine((key, v)) ::
                  ParseEvent(text).info == FlagsOf(text)[key := v])
  {
    hide Extract, Contains, DateTime, ParseEvent, Lines, WithSection, FlagsOf, INFO_MARKER;
    var text := Lines(lines) + rest;
    MarkersAreOneLine();
    ExtractFromLines(lines, k, INFO_MARKER, value, rest);
    PartsOfEvent(text);
    if ':' !in value { NoSection(FlagsOf(text), value); }
    forall key, v | ':' !in key && value == HeaderLine((key, v))
      ensures ParseEvent(text).info == FlagsOf(text)[key := v] {
      CutOfSection(FlagsOf(text), key, v);
    }
  }
}
