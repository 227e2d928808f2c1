/** Emergency events: how `reportEvents` writes one into a message body and `parseEvent` reads it back. */
module Events {
  import opened Text
  import opened Decimal
  import opened Search
  import opened StompFrame
  import opened CreateFrames

  datatype Event = Event(
    channel: string,
    city: string,
    name: string,
    dateTime: int,
    description: string,
    info: map<string, string>,
    owner: string)

  predicate IsActive(e: Event) { "active" in e.info && e.info["active"] == "true" }

  predicate ForcesArrival(e: Event)
  {
    "forces_arrival_at_scene" in e.info && e.info["forces_arrival_at_scene"] == "true"
  }

  // ------------------------------------------------------------------ writing

  function BodyEntries(username: string, channel: string, e: Event): seq<Header>
  {
    [("user", username), ("channel name", channel), ("city", e.city), ("event name", e.name),
     ("date time", ToDecimal(e.dateTime)), ("description", e.description), ("general information", "")]
  }

  function InfoEntries(entries: seq<Header>): (tabbed: seq<Header>)
    ensures |tabbed| == |entries|
    ensures forall i | 0 <= i < |entries| :: tabbed[i] == ("\t" + entries[i].0, entries[i].1)
  {
    seq(|entries|, i requires 0 <= i < |entries| => ("\t" + entries[i].0, entries[i].1))
  }

  /** The lines of a body; `entries` is the general information in the order of the map. */
  function BodyLines(username: string, channel: string, e: Event, entries: seq<Header>): seq<string>
  {
    HeaderLines(BodyEntries(username, channel, e)) + HeaderLines(InfoEntries(entries))
  }

  function Body(username: string, channel: string, e: Event, entries: seq<Header>): string
  {
    Lines(BodyLines(username, channel, e, entries))
  }

  /** The body of the loop of `reportEvents`. */
  method BuildBody(username: string, channel: string, e: Event, entries: seq<Header>) returns (messageBody: string)
    requires Enumerates(entries, e.info)
    ensures messageBody == Body(username, channel, e, entries)
  {
    hide Line, BodyEntries, Lines, HeaderLines, InfoEntries;
    messageBody := Line("user", username) + Line("channel name", channel) + Line("city", e.city)
      + Line("event name", e.name) + Line("date time", ToDecimal(e.dateTime)) + Line("description", e.description)
      + Line("general information", "");
    ghost var fixed := Lines(HeaderLines(BodyEntries(username, channel, e)));
    assert messageBody == fixed by { FixedLines(username, channel, e); }
    NoInfo(entries);
    var i := 0;
    while i < |entries|
      invariant 0 <= i <= |entries|
      invariant messageBody == fixed + Lines(HeaderLines(InfoEntries(entries[..i])))
    {
      var (key, value) := entries[i];
      InfoOneMore(entries, i);
      Assoc(fixed, Lines(HeaderLines(InfoEntries(entries[..i]))), Line("\t" + key, value));
      messageBody := messageBody + Line("\t" + key, value);
      i := i + 1;
    }
    assert entries[..i] == entries;
    LinesAppend(HeaderLines(BodyEntries(username, channel, e)), HeaderLines(InfoEntries(entries)));
  }

  lemma NoInfo(entries: seq<Header>)
    ensures Lines(HeaderLines(InfoEntries(entries[..0]))) == ""
  {
  }

  lemma InfoOneMore(entries: seq<Header>, i: nat)
    requires i < |entries|
    ensures Lines(HeaderLines(InfoEntries(entries[..i + 1])))
         == Lines(HeaderLines(InfoEntries(entries[..i]))) + Line("\t" + entries[i].0, entries[i].1)
  {
    var x := ("\t" + entries[i].0, entries[i].1);
    assert InfoEntries(entries[..i + 1]) == InfoEntries(entries[..i]) + [x];
    LinesOfMore(InfoEntries(entries[..i]), x);
  }

  lemma FixedLines(username: string, channel: string, e: Event)
    ensures Lines(HeaderLines(BodyEntries(username, channel, e)))
         == Line("user", username) + Line("channel name", channel) + Line("city", e.city) + Line("event name", e.name)
            + Line("date time", ToDecimal(e.dateTime)) + Line("description", e.description)
            + Line("general information", "")
  {
    hide Lines, HeaderLines, Line, ToDecimal;
    var b := BodyEntries(username, channel, e);
    LinesOfOne(b[0]);
    LinesOfMore(b[..1], b[1]);
    LinesOfMore(b[..2], b[2]);
    LinesOfMore(b[..3], b[3]);
    LinesOfMore(b[..4], b[4]);
    LinesOfMore(b[..5], b[5]);
    LinesOfMore(b[..6], b[6]);
    assert [b[0]] == b[..1] && b[..1] + [b[1]] == b[..2] && b[..2] + [b[2]] == b[..3] && b[..3] + [b[3]] == b[..4];
    assert b[..4] + [b[4]] == b[..5] && b[..5] + [b[5]] == b[..6] && b[..6] + [b[6]] == b;
  }

  // ------------------------------------------------------------------ reading

  /** Conversion of a long to an int. */
  function Narrow(n: int): (r: int)
    ensures IsInt(n) ==> r == n
  {
    (n + 0x8000_0000) % 0x1_0000_0000 - 0x8000_0000
  }

  function DateTime(text: string): int
  {
    match Stol(text) case None => 0 case Some(n) => Narrow(n)
  }

  function Flag(b: bool): string { if b then "true" else "false" }

  /** The general information that `parseEvent` finds on the line of its marker, which it splits at a colon. */
  function WithSection(info: map<string, string>, section: string): map<string, string>
  {
    var colon := IndexOf(section, ':');
    if colon == |section| then info else info[section[..colon] := section[colon + 1..]]
  }

  function ParseEvent(message: string): Event
  {
    var headers := ParseMessage(message);
    var flags := map["active" := Flag(Find(message, "active:true").Some?),
                     "forces_arrival_at_scene" := Flag(Find(message, "forces_arrival_at_scene:true").Some?)];
    Event(Extract(message, "destination:"),
          Extract(message, "city:"),
          Extract(message, "event name:"),
          DateTime(Extract(message, "date time:")),
          Extract(message, "description:"),
          WithSection(flags, Extract(message, "general information:")),
          if "user" in headers then headers["user"] else "")
  }

  /** The events a client has stored, by destination. */
  type Store = map<string, seq<Event>>

  function Stored(events: Store, d: string): seq<Event> { if d in events then events[d] else [] }

  function HandleReceivedMessage(events: Store, message: string): Store
  {
    var headers := ParseMessage(message);
    if "command" in headers && headers["command"] == "ERROR" then events
    else if "receipt-id" in headers then events
    else if "command" in headers && headers["command"] == "MESSAGE" then
      var destination := if "destination" in headers then headers["destination"] else "";
      var user := if "user" in headers then headers["user"] else "";
      if destination == "" || user == "" then events
      else events[destination := Stored(events, destination) + [ParseEvent(message).(owner := user)]]
    else events
  }
}
