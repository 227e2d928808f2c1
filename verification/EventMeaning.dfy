/** What a client stores for a delivered event means what the sender's event meant. */
module EventMeaning {
  import opened Text
  import opened Decimal
  import opened Search
  import opened StompFrame
  import opened CreateFrames
  import opened Events
  import opened EventPipeline
  import opened EventDelivery
  import opened Broker

  // ------------------------------------------------------------------ the general information's marker

  lemma {:induction false} ExtractFromRest(lines: seq<string>, rest: string, w: string)
    requires '\n' !in w && w != "" && forall j | 0 <= j < |lines| :: !Contains(lines[j], w)
    ensures Extract(Lines(lines) + rest, w) == Extract(rest, w)
  {
    hide Extract, Contains;
    if lines == [] {
      assert Lines(lines) + rest == rest;
    } else {
      var tail := Lines(lines[1..]) + rest;
      assert Lines(lines) + rest == lines[0] + "\n" + tail;
      ExtractSkipsLine(lines[0], tail, w);
      ExtractFromRest(lines[1..], rest, w);
    }
  }

  lemma NothingAfter(w: string)
    ensures Extract(w, w) == ""
  {
    assert Find(w, w) == Some(0);
    assert w[|w|..] == "";
  }

  lemma SectionLine()
    ensures HeaderLine(("general information", "")) == "general information:" + ""
    ensures HeaderLine(("general information", "")) == "general information:"
    ensures Marker("general information", "") == "general information:" && '\n' !in "general information:"
    ensures TrimRight("general information:") == "general information:"
  {
  }

  /** The line of the marker has nothing after it, so the general information is lost. */
  lemma SectionIsEmpty(d: Delivery)
    requires Deliverable(d)
    ensures Extract(MessageText(d), "general information:") == ""
  {
    hide Contains, ToDecimal, BodyLines, Unmarked, Extract, Lines, MessageText, Marker, HeaderLine, HeaderLines,
      Deliverable, TrimRight, Avoids, AvoidsKey;
    var w := "general information:";
    SectionLine();
    AvoidsLong("general information");
    assert MARKERS[4] == ("general information", "") && IsMarker("general information", "");
    UnmarkedBefore(d, 6, "general information", "");
    BodyShape(d.username, d.channel, d.event, d.info);
    SectionEntry(d);
    TextOfLines(d);
    var n := 2 + |d.headers| + 6;
    if d.info == [] {
      assert Tail(d) == w;
      ExtractFromRest(Heads(d), Tail(d), w);
      NothingAfter(w);
    } else {
      assert Heads(d)[n] == Lined(d)[6];
      ExtractFromLines(Heads(d), n, w, "", Tail(d));
    }
  }

  lemma SectionEntry(d: Delivery)
    ensures BodyEntries(d.username, d.channel, d.event)[6] == ("general information", "")
  {
    hide ToDecimal;
  }

  // ------------------------------------------------------------------ the flags

  /** Some line of the general information has the flag's marker. */
  ghost predicate FlagLine(info: seq<Header>, w: string)
  {
    exists i :: 0 <= i < |info| && Contains(HeaderLine(("\t" + info[i].0, info[i].1)), Marker(w, "true"))
  }

  lemma TailContains(d: Delivery, w: string)
    requires Lined(d) != []
    ensures Contains(Tail(d), Marker(w, "true")) <==> Contains(Lined(d)[|Lined(d)| - 1], Marker(w, "true"))
  {
    hide BodyLines, TrimRight, Contains;
    var m := Marker(w, "true");
    assert m[|m| - 1] == 'e';
    TrimKeepsMarkers(Lined(d)[|Lined(d)| - 1], m);
  }

  lemma MarkerIsLine(w: string)
    requires '\n' !in w
    ensures '\n' !in Marker(w, "true") && Marker(w, "true") != ""
  {
  }

  /** The marker of a flag is in the frame exactly when a line of the general information has it. */
  lemma FlagInText(d: Delivery, w: string)
    requires Deliverable(d) && IsMarker(w, "true") && '\n' !in w
    requires AvoidsKey("destination", w) && Avoids(HEADER_KEYS, w) && Avoids(BODY_KEYS, w)
    ensures Find(MessageText(d), Marker(w, "true")).Some? <==> FlagLine(d.info, w)
  {
    hide Contains, ToDecimal, BodyLines, Unmarked, Lines, MessageText, Marker, HeaderLine, HeaderLines, Tail, Find,
      Deliverable, Avoids, AvoidsKey, IsMarker;
    var m := Marker(w, "true");
    MarkerIsLine(w);
    TextOfLines(d);
    FindIffContains(MessageText(d), m);
    ContainsInLines(Heads(d), m, Tail(d));
    TailContains(d, w);
    assert BODY_KEYS[..7] == BODY_KEYS;
    UnmarkedBefore(d, 7, w, "true");
    BodyShape(d.username, d.channel, d.event, d.info);
    if d.info == [] { LastFieldUnmarked(d, w); }
    FlagLines(d, w);
  }

  lemma LastFieldUnmarked(d: Delivery, w: string)
    requires Deliverable(d) && IsMarker(w, "true") && Avoids(BODY_KEYS, w) && d.info == []
    ensures |Lined(d)| == 7 && !Contains(Lined(d)[6], Marker(w, "true"))
  {
    hide Contains, EndsWith, ToDecimal, BodyLines, Unmarked, Marker, Deliverable, IsMarker;
    BodyShape(d.username, d.channel, d.event, d.info);
    FieldUnmarked(d, 6, w, "true");
  }

  /** A line of the frame with the marker is a line of the general information. */
  lemma FlagLines(d: Delivery, w: string)
    requires |Lined(d)| == 7 + |d.info|
    requires forall i | 0 <= i < |d.info| :: Lined(d)[7 + i] == HeaderLine(("\t" + d.info[i].0, d.info[i].1))
    requires forall j | 0 <= j < 2 + |d.headers| + 7 && j < |Heads(d)| :: !Contains(Heads(d)[j], Marker(w, "true"))
    requires d.info == [] ==> !Contains(Lined(d)[6], Marker(w, "true"))
    ensures (Contains(Lined(d)[|Lined(d)| - 1], Marker(w, "true"))
             || exists i :: 0 <= i < |Heads(d)| && Contains(Heads(d)[i], Marker(w, "true")))
       <==> FlagLine(d.info, w)
  {
    hide Contains, BodyLines, Marker, HeaderLine, HeaderLines;
    var n := 2 + |d.headers|;
    var m := Marker(w, "true");
    assert forall i | 0 <= i < |Lined(d)| - 1 :: Heads(d)[n + i] == Lined(d)[i];
    if i :| 0 <= i < |Heads(d)| && Contains(Heads(d)[i], m) {
      var k := i - n - 7;
      assert Lined(d)[7 + k] == Heads(d)[i];
      assert Contains(HeaderLine(("\t" + d.info[k].0, d.info[k].1)), m);
    }
    if Contains(Lined(d)[|Lined(d)| - 1], m) {
      var k := |d.info| - 1;
      assert Lined(d)[7 + k] == Lined(d)[|Lined(d)| - 1];
      assert Contains(HeaderLine(("\t" + d.info[k].0, d.info[k].1)), m);
    }
    if i :| 0 <= i < |d.info| && Contains(HeaderLine(("\t" + d.info[i].0, d.info[i].1)), m) {
      if i < |d.info| - 1 { assert Heads(d)[n + 7 + i] == Lined(d)[7 + i]; }
    }
  }

  // ------------------------------------------------------------------ when a flag line means the flag

  predicate IsSet(info: map<string, string>, w: string) { w in info && info[w] == "true" }

  /** The printed line of an entry has the flag's marker in it. */
  ghost predicate LineReads(k: string, v: string, w: string)
  {
    Contains(HeaderLine(("\t" + k, v)), Marker(w, "true"))
  }

  /** The flag is set, or no line of the general information looks as if it were. */
  ghost predicate ReadRight(info: map<string, string>, w: string)
  {
    IsSet(info, w) || forall k <- info :: !LineReads(k, info[k], w)
  }

  lemma TabEnds(k: string, w: string)
    requires w != "" && w[0] != '\t'
    ensures EndsWith("\t" + k, w) <==> EndsWith(k, w)
  {
    var s := "\t" + k;
    if |w| <= |k| {
      assert s[|s| - |w|..] == k[|k| - |w|..];
    } else if |w| == |k| + 1 {
      assert s[0..][0] == '\t';
    }
  }

  /**
   * When a line has the marker, whatever colons its key has: cut at its first colon, the left part ends
   * in the flag's name and the right part starts with true, or the marker is inside the right part.
   */
  lemma LineReadsIff(k: string, v: string, w: string)
    requires ':' !in w
    ensures var h := CutLine(HeaderLine(("\t" + k, v)));
            LineReads(k, v, w) <==> (EndsWith(h.0, w) && "true" <= h.1) || Contains(h.1, Marker(w, "true"))
  {
    hide Contains, EndsWith;
    var line := HeaderLine(("\t" + k, v));
    assert line[|k| + 1] == ':';
    CutBack(line);
    MarkerInLine(CutLine(line).0, CutLine(line).1, w, "true");
  }

  /** For a key without colon the two parts are the key and the value. */
  lemma PlainKeyReadsIff(k: string, v: string, w: string)
    requires ':' !in k && ':' !in w && w != "" && w[0] != '\t'
    ensures LineReads(k, v, w) <==> (EndsWith(k, w) && "true" <= v) || Contains(v, Marker(w, "true"))
  {
    hide Contains, EndsWith, CutLine, LineReads;
    LineReadsIff(k, v, w);
    assert ':' !in "\t" + k;
    CutOfHeader("\t" + k, v);
    TabEnds(k, w);
  }

  lemma SetReads(w: string)
    ensures LineReads(w, "true", w)
  {
    var line := HeaderLine(("\t" + w, "true"));
    assert line[1..1 + |Marker(w, "true")|] == Marker(w, "true");
    assert OccursAt(line, Marker(w, "true"), 1);
  }

  lemma FlagLineIff(info: seq<Header>, m: map<string, string>, w: string)
    requires Enumerates(info, m)
    ensures FlagLine(info, w) <==> exists k :: k in m && LineReads(k, m[k], w)
  {
    hide Contains, Marker, HeaderLine;
    if FlagLine(info, w) {
      var i :| 0 <= i < |info| && Contains(HeaderLine(("\t" + info[i].0, info[i].1)), Marker(w, "true"));
      assert LineReads(info[i].0, m[info[i].0], w);
    }
    if k :| k in m && LineReads(k, m[k], w) {
      var i :| 0 <= i < |info| && info[i].0 == k;
      assert Contains(HeaderLine(("\t" + info[i].0, info[i].1)), Marker(w, "true"));
    }
  }

  /**
   * The flag that is read is the flag that was set if and only if it was set, or no entry's line has its
   * marker; for keys without colon, if and only if it was set, or no key that ends in its name has a
   * value that starts with true and no value has the marker inside.
   */
  lemma FlagMeansSet(info: seq<Header>, m: map<string, string>, w: string)
    requires Enumerates(info, m) && ':' !in w && w != "" && w[0] != '\t'
    ensures (FlagLine(info, w) <==> IsSet(m, w)) <==> ReadRight(m, w)
    ensures (forall k <- m :: ':' !in k) ==>
              ((FlagLine(info, w) <==> IsSet(m, w)) <==>
                 IsSet(m, w)
                 || forall k <- m :: !(EndsWith(k, w) && "true" <= m[k]) && !Contains(m[k], Marker(w, "true")))
  {
    hide Contains, EndsWith, Marker, FlagLine, LineReads;
    FlagLineIff(info, m, w);
    SetReads(w);
    if forall k <- m :: ':' !in k {
      forall k | k in m ensures LineReads(k, m[k], w) <==>
                                  (EndsWith(k, w) && "true" <= m[k]) || Contains(m[k], Marker(w, "true")) {
        PlainKeyReadsIff(k, m[k], w);
      }
    }
  }

  // ------------------------------------------------------------------ the headers as the client parses them

  lemma {:induction false} CollectPrinted(
      lines: seq<string>, entries: seq<Header>, done: nat, base: map<string, string>)
    requires forall e <- entries :: ':' !in e.0
    requires |lines| > 1 + |entries| && lines[1..1 + |entries|] == HeaderLines(entries) && lines[1 + |entries|] == ""
    requires done <= |entries|
    ensures CollectHeaders(lines, 1 + done, base + MapOf(entries[..done])) == base + MapOf(entries)
    decreases |entries| - done
  {
    hide IndexOf, MapOf;
    if done == |entries| {
      assert entries[..done] == entries;
    } else {
      var e := entries[done];
      assert lines[1 + done] == lines[1..1 + |entries|][done] == HeaderLine(e);
      assert ':' !in e.0;
      HeaderCuts(e);
      PutMerges(base, entries, done);
      CollectPrinted(lines, entries, done + 1, base);
    }
  }

  lemma HeaderCuts(e: Header)
    requires ':' !in e.0
    ensures var line, colon := HeaderLine(e), IndexOf(HeaderLine(e), ':');
            colon < |line| && line[..colon] == e.0 && line[colon + 1..] == e.1
  {
    IndexOfSkips(e.0, ':', ":" + e.1);
    assert HeaderLine(e) == e.0 + (":" + e.1);
  }

  lemma PutMerges(base: map<string, string>, entries: seq<Header>, done: nat)
    requires done < |entries|
    ensures (base + MapOf(entries[..done]))[entries[done].0 := entries[done].1] == base + MapOf(entries[..done + 1])
  {
    assert entries[..done + 1][..done] == entries[..done];
    assert MapOf(entries[..done + 1]) == MapOf(entries[..done])[entries[done].0 := entries[done].1];
  }

  lemma HeaderKeysAreGood(d: Delivery)
    requires Deliverable(d)
    ensures forall e <- d.headers :: ':' !in e.0 && OneLine(e.0) && OneLine(e.1)
  {
    hide Unmarked, ToDecimal;
    DecimalIsOneLine(d.subscription);
    DecimalIsOneLine(d.messageId);
    PlainSlash(d.channel);
    forall i | 0 <= i < |d.headers| ensures var e := d.headers[i]; ':' !in e.0 && OneLine(e.0) && OneLine(e.1) {
      var e := d.headers[i];
      assert e.0 in HeaderMap(d) && HeaderMap(d)[e.0] == e.1;
      assert e.0 == "destination" || e.0 == "subscription" || e.0 == "user" || e.0 == "message-id";
    }
  }

  lemma GoodTail(d: Delivery)
    requires Deliverable(d)
    ensures Tail(d) != "" && OneLine(Tail(d)) && GoodLines(Lined(d)) && Lined(d) != []
  {
    hide Unmarked, BodyLines, Enumerates;
    BodyShape(d.username, d.channel, d.event, d.info);
    GoodBody(d.username, d.channel, d.event, d.info);
    GoodEnd(Lined(d)[|Lined(d)| - 1]);
  }

  lemma HeadsAreOneLine(d: Delivery)
    requires Deliverable(d)
    ensures AllOneLine(Heads(d))
  {
    hide Unmarked, BodyLines, ToDecimal, Enumerates, Deliverable;
    GoodTail(d);
    GoodIsOneLine(Lined(d));
    HeaderKeysAreGood(d);
    HeaderLinesAreLines(d.headers);
    forall i | 0 <= i < |Heads(d)| ensures OneLine(Heads(d)[i]) {
      if i > 1 + |d.headers| { assert Heads(d)[i] == Lined(d)[i - 2 - |d.headers|]; }
    }
  }

  lemma LinesOfText(d: Delivery)
    requires Deliverable(d)
    ensures GetLines(MessageText(d)) == Heads(d) + [Tail(d)]
  {
    hide Deliverable, SplitAll, Tail, MessageText, Lines, AllOneLine, GoodLines, Heads;
    GoodTail(d);
    HeadsAreOneLine(d);
    TextOfLines(d);
    OneLines(Heads(d));
    SplitLines(Heads(d), Tail(d));
    SplitAllStep(Tail(d), '\n', "");
  }

  lemma HeadsShape(d: Delivery)
    ensures var lines := Heads(d) + [Tail(d)];
            && |lines| > 1 + |d.headers| && lines[0] == "MESSAGE"
            && lines[1..1 + |d.headers|] == HeaderLines(d.headers) && lines[1 + |d.headers|] == ""
  {
    hide BodyLines, Tail, HeaderLine;
  }

  lemma MessageHeaders(d: Delivery)
    requires Deliverable(d)
    ensures ParseMessage(MessageText(d)) == map["command" := "MESSAGE"] + HeaderMap(d)
  {
    hide Unmarked, ToDecimal, GetLines, MessageText, HeaderLines, MapOf, CollectHeaders, Tail, Heads, PlainEvent;
    LinesOfText(d);
    HeaderKeysAreGood(d);
    MapOfEnumeration(d.headers, HeaderMap(d));
    var lines := Heads(d) + [Tail(d)];
    HeadsShape(d);
    EmptyMap(d.headers);
    assert map["command" := "MESSAGE"] + map[] == map["command" := "MESSAGE"];
    CollectPrinted(lines, d.headers, 0, map["command" := "MESSAGE"]);
  }

  // ------------------------------------------------------------------ the whole way

  lemma EmptySection(info: map<string, string>)
    ensures WithSection(info, "") == info
  {
  }

  /** The general information as it is parsed: the two flags and nothing else. */
  ghost function ParsedInfo(info: seq<Header>): map<string, string>
  {
    map["active" := if FlagLine(info, "active") then "true" else "false",
        "forces_arrival_at_scene" := if FlagLine(info, "forces_arrival_at_scene") then "true" else "false"]
  }

  /** What the client parses out of the MESSAGE frame, field by field. */
  lemma ParsedEvent(d: Delivery)
    requires Deliverable(d)
    ensures var e := ParseEvent(MessageText(d));
            && e.channel == "/" + d.channel && e.city == d.event.city && e.name == d.event.name
            && e.dateTime == d.event.dateTime && e.description == d.event.description && e.owner == d.username
            && e.info == ParsedInfo(d.info)
            && (IsActive(e) <==> FlagLine(d.info, "active"))
            && (ForcesArrival(e) <==> FlagLine(d.info, "forces_arrival_at_scene"))
  {
    hide Deliverable, MessageText, Extract, Find, DateTime, ParseMessage, FlagLine, Avoids, AvoidsKey, Marker;
    DestinationSurvives(d);
    CitySurvives(d);
    NameSurvives(d);
    DateSurvives(d);
    DescriptionSurvives(d);
    SectionIsEmpty(d);
    EmptySection(map["active" := Flag(Find(MessageText(d), "active:true").Some?),
                     "forces_arrival_at_scene" := Flag(Find(MessageText(d), "forces_arrival_at_scene:true").Some?)]);
    MessageHeaders(d);
    Flags(d);
  }

  /** Nothing but the two flags, each true or false. */
  predicate OnlyFlags(info: map<string, string>)
  {
    && "active" in info && (info["active"] == "true" || info["active"] == "false")
    && "forces_arrival_at_scene" in info
    && (info["forces_arrival_at_scene"] == "true" || info["forces_arrival_at_scene"] == "false")
    && |info| == 2
  }

  lemma TwoKeys(info: map<string, string>, a: string, b: string)
    requires a in info && b in info && a != b && |info| == 2
    ensures forall k <- info :: k == a || k == b
  {
    var rest := info - {a};
    assert info == rest[a := info[a]];
    assert |rest| == 1 && b in rest;
    var none := rest - {b};
    assert rest == none[b := rest[b]];
    assert none == map[] by { assert |none| == 0; }
    assert rest == map[b := rest[b]];
  }

  lemma NoMarkerInFlag(w: string)
    ensures !Contains("true", Marker(w, "true")) && !Contains("false", Marker(w, "true"))
  {
    hide Contains, Marker;
    NoColonNoMarker("true", w, "true");
    NoColonNoMarker("false", w, "true");
  }

  lemma OnlyFlagsReadRight(info: map<string, string>, w: string, other: string)
    requires OnlyFlags(info) && (forall k <- info :: k == w || k == other) && w in info
    requires ':' !in w && ':' !in other && w != "" && w[0] != '\t' && !EndsWith(other, w)
    requires info[w] == "true" || info[w] == "false"
    requires other in info && (info[other] == "true" || info[other] == "false")
    ensures ReadRight(info, w)
  {
    hide Contains, EndsWith, Marker, LineReads;
    NoMarkerInFlag(w);
    PlainKeyReadsIff(w, info[w], w);
    PlainKeyReadsIff(other, info[other], w);
    assert !("true" <= "false") by { assert "true"[0] != "false"[0]; }
    if info[w] != "true" {
      assert !LineReads(w, info[w], w) && !LineReads(other, info[other], w);
    }
  }

  /**
   * The general information survives if and only if there was nothing in it but the two flags, both of
   * them, each true or false; anything else is lost.
   */
  lemma InfoSurvivesIff(d: Delivery)
    requires Deliverable(d)
    ensures ParseEvent(MessageText(d)).info == d.event.info <==> OnlyFlags(d.event.info)
  {
    hide Deliverable, MessageText, ParseEvent, ParsedInfo, OnlyFlags, Enumerates;
    ParsedEvent(d);
    InfoIsMap(d);
    ParsedIsOnlyFlags(d.info);
    if OnlyFlags(d.event.info) { OnlyFlagsSurvive(d.info, d.event.info); }
  }

  lemma ParsedIsOnlyFlags(info: seq<Header>)
    ensures OnlyFlags(ParsedInfo(info))
  {
    hide FlagLine;
    assert |ParsedInfo(info)| == 2;
  }

  lemma OnlyFlagsSurvive(info: seq<Header>, m: map<string, string>)
    requires Enumerates(info, m) && OnlyFlags(m)
    ensures ParsedInfo(info) == m
  {
    hide FlagLine, EndsWith, ReadRight, Contains, Marker, Enumerates;
    var a, f := "active", "forces_arrival_at_scene";
    TwoKeys(m, a, f);
    FlagNames();
    OnlyFlagsReadRight(m, a, f);
    OnlyFlagsReadRight(m, f, a);
    FlagMeansSet(info, m, a);
    FlagMeansSet(info, m, f);
  }

  lemma FlagNames()
    ensures ':' !in "active" && ':' !in "forces_arrival_at_scene"
    ensures !EndsWith("forces_arrival_at_scene", "active") && !EndsWith("active", "forces_arrival_at_scene")
  {
    hide EndsWith;
    DiffersAt("forces_arrival_at_scene", "active", 1);
    DiffersAt("active", "forces_arrival_at_scene", 0);
  }

  lemma Flags(d: Delivery)
    requires Deliverable(d)
    ensures Find(MessageText(d), "active:true").Some? <==> FlagLine(d.info, "active")
    ensures Find(MessageText(d), "forces_arrival_at_scene:true").Some? <==> FlagLine(d.info, "forces_arrival_at_scene")
  {
    hide Deliverable, MessageText, Find, FlagLine, Avoids, AvoidsKey;
    AvoidsActive();
    AvoidsLong("forces_arrival_at_scene");
    assert MARKERS[6] == ("active", "true") && MARKERS[7] == ("forces_arrival_at_scene", "true");
    assert IsMarker("active", "true") && IsMarker("forces_arrival_at_scene", "true");
    FlagInText(d, "active");
    FlagInText(d, "forces_arrival_at_scene");
    assert Marker("active", "true") == "active:true";
    assert Marker("forces_arrival_at_scene", "true") == "forces_arrival_at_scene:true";
  }

  /**
   * The event pipeline preserves meaning. A client that has subscribed to the channel sends an event; the
   * server parses the SEND frame, accepts it and makes a MESSAGE frame of it; and whatever order the
   * headers are printed in, a client that receives the frame stores, under the channel, an event with
   * the same city, name, date and description, the sender as its owner, and each flag as it was set, if
   * and only if it was set or no other line of the general information reads like it.
   */
  lemma EventSurvives(d: Delivery, r: int, p: Proto, events: Store)
    requires Deliverable(d)
    requires "/" + d.channel in p.subscriptions && p.subscriptions["/" + d.channel] == d.subscription
    ensures var frame := CreateSendFrame("/" + d.channel, Body(d.username, d.channel, d.event, d.info), ToDecimal(r));
            var m := EventMessage(d.username, d.channel, d.event, d.info, r);
            && ParseFrame(frame) == Ok(m) && Sends(p, m)
            && (var reply := MessageFrame(p, m, d.messageId);
                && Enumerates(d.headers, reply.headers)
                && MessageText(d) == FrameText(reply.command, d.headers, reply.body))
    ensures var after, key := HandleReceivedMessage(events, MessageText(d)), "/" + d.channel;
            exists e ::
              && after == events[key := Stored(events, key) + [e]]
              && e.channel == key && e.city == d.event.city && e.name == d.event.name
              && e.dateTime == d.event.dateTime && e.description == d.event.description && e.owner == d.username
              && ((IsActive(e) <==> IsActive(d.event)) <==> ReadRight(d.event.info, "active"))
              && ((ForcesArrival(e) <==> ForcesArrival(d.event)) <==>
                    ReadRight(d.event.info, "forces_arrival_at_scene"))
  {
    hide MessageText, ParseEvent, ParseMessage, ToDecimal, ReadRight, Unmarked, PlainEvent, FlagLine, SentBody,
      EventMessage, CreateSendFrame, Body, ParseFrame, Enumerates, ParsedInfo, Contains, EndsWith, Marker;
    EventReachesServer(d.username, d.channel, d.event, d.info, r, p);
    PublishedText(d, r, p);
    TextIs(d);
    StoredEvent(d, events);
  }

  /** The client's side of it. */
  lemma StoredEvent(d: Delivery, events: Store)
    requires Deliverable(d)
    ensures var e := ParseEvent(MessageText(d)).(owner := d.username);
            && HandleReceivedMessage(events, MessageText(d))
               == events["/" + d.channel := Stored(events, "/" + d.channel) + [e]]
            && e.channel == "/" + d.channel && e.city == d.event.city && e.name == d.event.name
            && e.dateTime == d.event.dateTime && e.description == d.event.description
            && ((IsActive(e) <==> IsActive(d.event)) <==> ReadRight(d.event.info, "active"))
            && ((ForcesArrival(e) <==> ForcesArrival(d.event)) <==>
                  ReadRight(d.event.info, "forces_arrival_at_scene"))
  {
    hide MessageText, ParseEvent, ParseMessage, ToDecimal, ReadRight, Unmarked, PlainEvent, FlagLine,
      Enumerates, ParsedInfo, Contains, EndsWith, Marker;
    ParsedEvent(d);
    MessageHeaders(d);
    InfoIsMap(d);
    FlagMeansSet(d.info, d.event.info, "active");
    FlagMeansSet(d.info, d.event.info, "forces_arrival_at_scene");
    assert ("/" + d.channel) != "";
  }

  // ------------------------------------------------------------------ an event whose flag is read wrong

  const QUIET := Event("c", "", "", 0, "", map["inactive" := "true"], "u")

  /** An event that is not active, its only entry being inactive:true, sent by `u` on channel `c`. */
  const INACTIVE := Delivery("u", "c", QUIET, [("inactive", "true")], 1, 1,
    [("destination", "/c"), ("subscription", ToDecimal(1)), ("user", "u"), ("message-id", ToDecimal(1))])

  lemma UnmarkedWithoutColon(text: string)
    requires ':' !in text
    ensures Unmarked(text)
  {
    hide Contains, Marker;
    forall i | 0 <= i < |MARKERS| ensures !Contains(text, Marker(MARKERS[i].0, MARKERS[i].1)) {
      NoColonNoMarker(text, MARKERS[i].0, MARKERS[i].1);
    }
  }

  lemma FourHeaders(a: Header, b: Header, c: Header, e: Header)
    requires a.0 != b.0 && a.0 != c.0 && a.0 != e.0 && b.0 != c.0 && b.0 != e.0 && c.0 != e.0
    ensures Enumerates([a, b, c, e], map[a.0 := a.1, b.0 := b.1, c.0 := c.1, e.0 := e.1])
  {
    var h := [a, b, c, e];
    assert h[0] == a && h[1] == b && h[2] == c && h[3] == e;
  }

  lemma InactiveIsDeliverable()
    ensures Deliverable(INACTIVE)
  {
    hide Unmarked, ToDecimal, Enumerates;
    UnmarkedWithoutColon("u");
    UnmarkedWithoutColon("c");
    UnmarkedWithoutColon("");
    FourHeaders(("destination", "/c"), ("subscription", ToDecimal(1)), ("user", "u"), ("message-id", ToDecimal(1)));
    assert "/" + "c" == "/c";
    OneEntry("inactive", "true");
  }

  lemma OneEntry(k: string, v: string)
    ensures Enumerates([(k, v)], map[k := v])
  {
    assert [(k, v)][0] == (k, v);
  }

  lemma InactiveLine()
    ensures FlagLine([("inactive", "true")], "active")
  {
    var info := [("inactive", "true")];
    var line := HeaderLine(("\t" + info[0].0, info[0].1));
    assert line[3..3 + 11] == Marker("active", "true");
    assert OccursAt(line, Marker("active", "true"), 3);
  }

  /** It is delivered and parsed as an active one. */
  lemma InactiveReadAsActive()
    ensures Deliverable(INACTIVE)
    ensures IsActive(ParseEvent(MessageText(INACTIVE))) && !IsActive(INACTIVE.event)
    ensures !ReadRight(INACTIVE.event.info, "active")
  {
    hide Deliverable, MessageText, ParseEvent, FlagLine, Contains, EndsWith, Marker, ReadRight, Enumerates;
    InactiveIsDeliverable();
    InactiveLine();
    ParsedEvent(INACTIVE);
    InfoIsMap(INACTIVE);
    FlagMeansSet(INACTIVE.info, INACTIVE.event.info, "active");
  }

  lemma InfoIsMap(d: Delivery)
    requires Deliverable(d)
    ensures Enumerates(d.info, d.event.info)
  {
    hide Unmarked, Enumerates;
  }

  lemma TextIs(d: Delivery)
    ensures MessageText(d) == FrameText("MESSAGE", d.headers, SentBody(d.username, d.channel, d.event, d.info))
  {
  }

  /** The client's store of events as an object. */
  class EventStore {
    var events: Store

    constructor ()
      ensures events == map[]
    {
      events := map[];
    }

    method Receive(message: string)
      modifies this
      ensures events == HandleReceivedMessage(old(events), message)
    {
      var headers := ParseMessageLoop(message);
      if "command" in headers && headers["command"] == "ERROR" {
        return;
      }
      if "receipt-id" in headers {
        return;
      }
      if "command" in headers && headers["command"] == "MESSAGE" {
        var destination := if "destination" in headers then headers["destination"] else "";
        if destination == "" {
          return;
        }
        var user := if "user" in headers then headers["user"] else "";
        if user == "" {
          return;
        }
        var newEvent := ParseEvent(message).(owner := user);
        events := events[destination := Stored(events, destination) + [newEvent]];
      }
    }
  }
}
