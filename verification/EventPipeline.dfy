/**
 * An event on its way: body, SEND frame, server, MESSAGE frame, parsed event. The meaning of every field
 * survives, in whatever order the server's header map is printed.
 */
module EventPipeline {
  import opened Text
  import opened Decimal
  import opened StompFrame
  import opened StompCodec
  import opened CreateFrames
  import opened Events
  import opened Broker

  // ------------------------------------------------------------------ texts made of lines

  /** A text of whole lines whose last line is not empty, with more newlines at the end, splits into the lines. */
  lemma SplitWholeLines(ls: seq<string>)
    requires AllOneLine(ls) && ls != [] && ls[|ls| - 1] != ""
    ensures JavaSplit(Lines(ls) + "\n", '\n') == ls
  {
    hide SplitAll, Lines, DropTrailingEmpty, AllOneLine, OneLine;
    assert forall i | 0 <= i < |ls| :: '\n' !in ls[i] by { OneLines(ls); }
    SplitLines(ls, "\n");
    NewlineSplits();
    DropTrailingAfter(ls, ["", ""]);
    HasNewline(Lines(ls));
  }

  lemma OneLines(ls: seq<string>)
    requires AllOneLine(ls)
    ensures forall i | 0 <= i < |ls| :: '\n' !in ls[i]
  {
  }

  lemma HasNewline(s: string)
    ensures '\n' in s + "\n"
  {
    assert (s + "\n")[|s|] == '\n';
  }

  lemma NewlineSplits()
    ensures SplitAll("\n", '\n') == ["", ""]
  {
    SplitAllStep("", '\n', "");
    assert "" + ['\n'] + "" == "\n";
  }

  lemma {:induction false} TrimRightAppend(a: string, b: string)
    requires TrimRight(b) != ""
    ensures TrimRight(a + b) == a + TrimRight(b)
  {
    assert b != "";
    assert (a + b)[|a + b| - 1] == b[|b| - 1];
    if Blank(b[|b| - 1]) {
      assert (a + b)[..|a + b| - 1] == a + b[..|b| - 1];
      TrimRightAppend(a, b[..|b| - 1]);
    }
  }

  lemma {:induction false} TrimRightNotBlank(s: string, i: nat)
    requires i < |s| && !Blank(s[i])
    ensures TrimRight(s) != ""
  {
    if Blank(s[|s| - 1]) {
      TrimRightNotBlank(s[..|s| - 1], i);
    }
  }

  /** Trimming a text of whole lines: only the blanks at the end of its last line go. */
  lemma TrimLines(front: seq<string>, last: string)
    requires last != "" && TrimRight(last) != ""
    requires Lines(front) + last != "" && !Blank((Lines(front) + last)[0])
    ensures Trim("\n" + (Lines(front) + (last + "\n"))) == Lines(front) + TrimRight(last)
  {
    var text := Lines(front) + (last + "\n");
    assert text[0] == (Lines(front) + last)[0];
    assert ("\n" + text)[1..] == text;
    assert TrimLeft("\n" + text) == text;
    assert (last + "\n")[..|last|] == last;
    assert TrimRight(last + "\n") == TrimRight(last);
    TrimRightAppend(Lines(front), last + "\n");
  }

  // ------------------------------------------------------------------ headers out of lines

  /** A header line as the parsers cut it. */
  function CutLine(line: string): Header
  {
    var colon := IndexOf(line, ':');
    if colon == |line| then (line, "") else (line[..colon], line[colon + 1..])
  }

  function CutLines(ls: seq<string>): (entries: seq<Header>)
    ensures |entries| == |ls|
    ensures forall i | 0 <= i < |ls| :: entries[i] == CutLine(ls[i])
  {
    seq(|ls|, i requires 0 <= i < |ls| => CutLine(ls[i]))
  }

  lemma CutOfHeader(key: string, value: string)
    requires ':' !in key
    ensures CutLine(HeaderLine((key, value))) == (key, value)
  {
    assert key + ":" + value == key + (":" + value);
    IndexOfSkips(key, ':', ":" + value);
  }

  lemma CutBack(line: string)
    requires ':' in line
    ensures HeaderLine(CutLine(line)) == line && ':' !in CutLine(line).0
  {
    var colon := IndexOf(line, ':');
    assert line[..|line|] == line;
    assert line[..colon] + ":" + line[colon + 1..] == line;
  }

  lemma CutsBack(ls: seq<string>)
    requires forall i | 0 <= i < |ls| :: ':' in ls[i]
    ensures HeaderLines(CutLines(ls)) == ls
    ensures forall e <- CutLines(ls) :: ':' !in e.0
  {
    hide CutLine;
    forall i | 0 <= i < |ls| ensures HeaderLine(CutLines(ls)[i]) == ls[i] && ':' !in CutLines(ls)[i].0 {
      CutBack(ls[i]);
    }
  }

  /** The value a header has when no later line repeats its key. */
  lemma {:induction false} MapOfLast(entries: seq<Header>, i: nat)
    requires i < |entries| && forall j | i < j < |entries| :: entries[j].0 != entries[i].0
    ensures entries[i].0 in MapOf(entries) && MapOf(entries)[entries[i].0] == entries[i].1
  {
    if i < |entries| - 1 {
      MapOfLast(entries[..|entries| - 1], i);
    }
  }

  /** The lines of a frame: the command, the headers, two empty lines and the body. */
  function FrameOf(command: string, hs: seq<string>, body: seq<string>): seq<string>
  {
    [command] + hs + ["", ""] + body
  }

  lemma PartsOfFrame(command: string, hs: seq<string>, body: seq<string>)
    ensures var lines := FrameOf(command, hs, body);
            && |lines| == 3 + |hs| + |body|
            && lines[0] == command && lines[1..1 + |hs|] == hs && lines[1 + |hs|] == ""
            && lines[2 + |hs|..] == [""] + body
            && (body != [] ==> lines[|lines| - 1] == body[|body| - 1])
  {
  }

  lemma FrameHeaders(command: string, hs: seq<string>, body: seq<string>)
    requires forall i | 0 <= i < |hs| :: ':' in hs[i]
    ensures ParseHeaders(FrameOf(command, hs, body), 1, map[]) == HeaderBlock(MapOf(CutLines(hs)), 1 + |hs|)
  {
    hide ParseHeaders, MapOf, CutLines, FrameOf;
    PartsOfFrame(command, hs, body);
    CutsBack(hs);
    EmptyMap(CutLines(hs));
    ParseHeaderLines(FrameOf(command, hs, body), CutLines(hs), 0);
  }

  lemma FrameBody(front: seq<string>, last: string)
    requires last != "" && TrimRight(last) != "" && !Blank((Lines(front) + last)[0])
    ensures Trim(Lines([""] + (front + [last]))) == Lines(front) + TrimRight(last)
  {
    hide Lines, Trim, TrimRight, Blank;
    LinesCons("", front + [last]);
    LinesAppend(front, [last]);
    LinesOne(last);
    TrimLines(front, last);
    assert "" + "\n" + Lines(front + [last]) == "\n" + (Lines(front) + (last + "\n"));
  }

  lemma FrameOneLine(command: string, hs: seq<string>, body: seq<string>)
    requires OneLine(command) && AllOneLine(hs) && AllOneLine(body)
    ensures AllOneLine(FrameOf(command, hs, body))
  {
  }

  /** Such a frame as `parseFrame` reads it. */
  lemma FrameOfLines(command: string, hs: seq<string>, front: seq<string>, last: string)
    requires command != "" && OneLine(command) && AllOneLine(hs) && AllOneLine(front + [last])
    requires forall i | 0 <= i < |hs| :: ':' in hs[i]
    requires last != "" && TrimRight(last) != "" && !Blank((Lines(front) + last)[0])
    ensures ParseFrame(Lines(FrameOf(command, hs, front + [last])) + "\n")
         == Ok(StompMessage(command, MapOf(CutLines(hs)), Lines(front) + TrimRight(last)))
  {
    hide ParseHeaders, MapOf, Lines, JavaSplit, Trim, TrimRight, Blank, CutLines, FrameOf, AllOneLine;
    PartsOfFrame(command, hs, front + [last]);
    FrameOneLine(command, hs, front + [last]);
    SplitWholeLines(FrameOf(command, hs, front + [last]));
    FrameHeaders(command, hs, front + [last]);
    FrameBody(front, last);
  }

  // ------------------------------------------------------------------ to the server

  /** One line, and no semicolon, which would end the user header early. */
  ghost predicate Plain(t: string) { OneLine(t) && ';' !in t }

  ghost predicate PlainHeaders(hs: seq<Header>) { forall i | 0 <= i < |hs| :: Plain(hs[i].0) && Plain(hs[i].1) }

  ghost predicate PlainEvent(username: string, channel: string, e: Event, entries: seq<Header>)
  {
    && Plain(username) && Plain(channel) && Plain(e.city) && Plain(e.name) && Plain(e.description)
    && PlainHeaders(entries) && Enumerates(entries, e.info) && IsInt(e.dateTime)
  }

  lemma PlainNumber(n: int)
    ensures Plain(ToDecimal(n))
  {
    hide ToDecimal;
    PrintedCharacters(n);
  }

  lemma PlainLine(h: Header)
    requires Plain(h.0) && Plain(h.1)
    ensures Plain(HeaderLine(h)) && ':' in HeaderLine(h)
  {
    assert HeaderLine(h)[|h.0|] == ':';
  }

  ghost predicate GoodLines(ls: seq<string>) { forall i | 0 <= i < |ls| :: Plain(ls[i]) && ':' in ls[i] }

  lemma GoodHeaderLines(hs: seq<Header>)
    requires PlainHeaders(hs)
    ensures GoodLines(HeaderLines(hs))
  {
    hide Plain;
    forall i | 0 <= i < |hs| ensures Plain(HeaderLines(hs)[i]) && ':' in HeaderLines(hs)[i] { PlainLine(hs[i]); }
  }

  lemma PlainBody(username: string, channel: string, e: Event)
    requires Plain(username) && Plain(channel) && Plain(e.city) && Plain(e.name) && Plain(e.description)
    ensures PlainHeaders(BodyEntries(username, channel, e))
  {
    hide ToDecimal;
    PlainNumber(e.dateTime);
  }

  lemma PlainInfo(entries: seq<Header>)
    requires PlainHeaders(entries)
    ensures PlainHeaders(InfoEntries(entries))
  {
    hide InfoEntries;
    forall i | 0 <= i < |entries| ensures Plain("\t" + entries[i].0) { assert Plain(entries[i].0); }
  }

  lemma GoodBody(username: string, channel: string, e: Event, entries: seq<Header>)
    requires PlainEvent(username, channel, e, entries)
    ensures GoodLines(BodyLines(username, channel, e, entries))
  {
    hide BodyEntries, InfoEntries, Plain, PlainHeaders, HeaderLines, Enumerates;
    PlainBody(username, channel, e);
    PlainInfo(entries);
    GoodHeaderLines(BodyEntries(username, channel, e));
    GoodHeaderLines(InfoEntries(entries));
  }

  lemma {:induction false} NoSemicolon(ls: seq<string>)
    requires GoodLines(ls)
    ensures ';' !in Lines(ls)
  {
    if ls != [] {
      assert Plain(ls[0]);
      assert forall i | 0 <= i < |ls[1..]| :: ls[1..][i] == ls[i + 1];
      NoSemicolon(ls[1..]);
    }
  }

  lemma LinesOfFrame(command: string, hs: seq<string>, body: seq<string>)
    ensures Lines(FrameOf(command, hs, body)) == command + "\n" + Lines(hs) + "\n" + "\n" + Lines(body)
  {
    hide Lines;
    assert FrameOf(command, hs, body) == [command] + (hs + ([""] + ([""] + body)));
    LinesCons(command, hs + ([""] + ([""] + body)));
    LinesAppend(hs, [""] + ([""] + body));
    LinesCons("", [""] + body);
    LinesCons("", body);
    assert "" + "\n" + ("" + "\n" + Lines(body)) == "\n" + ("\n" + Lines(body));
  }

  /** The user that `createSendFrame` finds is all of the body after its first marker. */
  lemma UserIsTheRest(username: string, rest: string)
    requires ';' !in username + rest
    ensures UserOf("user" + ":" + username + rest) == username + rest
  {
    var body := "user" + ":" + username + rest;
    assert body[..5] == "user:" && body[5..] == username + rest;
    assert "user:" <= body;
    assert (username + rest)[..|username + rest|] == username + rest;
  }

  /** The header lines of the SEND frame for an event: the body turns up among them. */
  function SendLines(username: string, channel: string, e: Event, entries: seq<Header>, r: string): seq<string>
  {
    [HeaderLine(("destination", "/" + channel)), HeaderLine(("receipt", r))] + BodyLines(username, channel, e, entries)
  }

  lemma BodySplits(username: string, channel: string, e: Event, entries: seq<Header>)
    ensures BodyLines(username, channel, e, entries) != []
    ensures var b := BodyLines(username, channel, e, entries);
            Lines(b) == "user" + ":" + username + ("\n" + Lines(b[1..]))
  {
    var b := BodyLines(username, channel, e, entries);
    assert b[0] == HeaderLine(("user", username));
    assert b[0] + "\n" + Lines(b[1..]) == "user" + ":" + username + ("\n" + Lines(b[1..]));
  }

  lemma SendFrameLines(username: string, channel: string, e: Event, entries: seq<Header>, r: string)
    requires PlainEvent(username, channel, e, entries)
    ensures CreateSendFrame("/" + channel, Body(username, channel, e, entries), r)
         == Lines(FrameOf("SEND", SendLines(username, channel, e, entries, r),
                          BodyLines(username, channel, e, entries))) + "\n"
  {
    hide BodyLines, Lines, FrameOf, UserOf;
    var b := BodyLines(username, channel, e, entries);
    BodySplits(username, channel, e, entries);
    var rest := "\n" + Lines(b[1..]);
    GoodBody(username, channel, e, entries);
    NoSemicolon(b);
    RestHasNone(Lines(b), "user" + ":", username + rest);
    UserIsTheRest(username, rest);
    assert UserOf(Lines(b)) == username + rest;
    LinesOfFrame("SEND", SendLines(username, channel, e, entries, r), b);
    TwoMore("destination", "/" + channel, "receipt", r, b);
    SendFrameText("/" + channel, r, username + rest, Lines(b));
  }

  lemma RestHasNone(s: string, a: string, b: string)
    requires s == a + b && ';' !in s
    ensures ';' !in b
  {
  }

  lemma TwoMore(k: string, v: string, l: string, w: string, b: seq<string>)
    ensures Lines([HeaderLine((k, v)), HeaderLine((l, w))] + b) == Line(k, v) + Line(l, w) + Lines(b)
  {
    hide Lines;
    var x, y := HeaderLine((k, v)), HeaderLine((l, w));
    assert [x, y] + b == [x] + ([y] + b);
    LinesCons(x, [y] + b);
    LinesCons(y, b);
    Assoc(Line(k, v), Line(l, w), Lines(b));
  }

  lemma SendFrameText(destination: string, r: string, user: string, body: string)
    requires UserOf(body) == user != "" && body == "user" + ":" + user
    ensures CreateSendFrame(destination, body, r)
         == "SEND" + "\n" + (Line("destination", destination) + Line("receipt", r) + body) + "\n" + "\n" + body + "\n"
  {
    hide UserOf;
    assert Line("user", user) == body + "\n";
  }

  /** What is left of the body after the server has trimmed it. */
  function SentBody(username: string, channel: string, e: Event, entries: seq<Header>): string
  {
    var b := BodyLines(username, channel, e, entries);
    if b == [] then "" else Lines(b[..|b| - 1]) + TrimRight(b[|b| - 1])
  }

  lemma BodyShape(username: string, channel: string, e: Event, entries: seq<Header>)
    ensures var b, fixed := BodyLines(username, channel, e, entries), BodyEntries(username, channel, e);
            && |b| == 7 + |entries|
            && (forall i | 0 <= i < 7 :: b[i] == HeaderLine(fixed[i]))
            && (forall i | 0 <= i < |entries| :: b[7 + i] == HeaderLine(("\t" + entries[i].0, entries[i].1)))
  {
    hide ToDecimal;
  }

  lemma FirstIsU(username: string, channel: string, e: Event, entries: seq<Header>)
    ensures var b := BodyLines(username, channel, e, entries);
            b != [] && Lines(b[..|b| - 1]) + b[|b| - 1] != "" && (Lines(b[..|b| - 1]) + b[|b| - 1])[0] == 'u'
  {
    hide BodyLines, Lines;
    var b := BodyLines(username, channel, e, entries);
    BodyShape(username, channel, e, entries);
    assert b[0] == "user" + ":" + username;
    var front := b[..|b| - 1];
    assert front == [b[0]] + front[1..];
    LinesCons(b[0], front[1..]);
  }

  lemma GoodEnd(line: string)
    requires ':' in line
    ensures line != "" && TrimRight(line) != ""
  {
    var i :| 0 <= i < |line| && line[i] == ':';
    TrimRightNotBlank(line, i);
  }

  lemma GoodIsOneLine(ls: seq<string>)
    requires GoodLines(ls)
    ensures AllOneLine(ls) && forall i | 0 <= i < |ls| :: ':' in ls[i]
  {
  }

  lemma GoodSendLines(username: string, channel: string, e: Event, entries: seq<Header>, r: int)
    requires PlainEvent(username, channel, e, entries)
    ensures GoodLines(SendLines(username, channel, e, entries, ToDecimal(r)))
  {
    hide BodyLines, Plain, ToDecimal, HeaderLine, PlainHeaders, Enumerates;
    GoodBody(username, channel, e, entries);
    PlainNumber(r);
    PlainSlash(channel);
    PlainLine(("destination", "/" + channel));
    PlainLine(("receipt", ToDecimal(r)));
  }

  lemma PlainSlash(channel: string)
    requires Plain(channel)
    ensures Plain("/" + channel) && Plain("destination") && Plain("receipt")
  {
  }

  lemma SendFrameParses(username: string, channel: string, e: Event, entries: seq<Header>, r: int)
    requires PlainEvent(username, channel, e, entries)
    ensures ParseFrame(CreateSendFrame("/" + channel, Body(username, channel, e, entries), ToDecimal(r)))
         == Ok(StompMessage("SEND", MapOf(CutLines(SendLines(username, channel, e, entries, ToDecimal(r)))),
                            SentBody(username, channel, e, entries)))
  {
    hide BodyLines, Lines, FrameOf, UserOf, ParseFrame, MapOf, CutLines, SendLines, TrimRight, Blank, ToDecimal,
      PlainEvent, CreateSendFrame, GoodLines, AllOneLine, Body;
    var b, hs := BodyLines(username, channel, e, entries), SendLines(username, channel, e, entries, ToDecimal(r));
    GoodBody(username, channel, e, entries);
    GoodSendLines(username, channel, e, entries, r);
    GoodIsOneLine(b);
    GoodIsOneLine(hs);
    FirstIsU(username, channel, e, entries);
    GoodEnd(b[|b| - 1]);
    assert !Blank('u') by { NotBlankU(); }
    assert b == b[..|b| - 1] + [b[|b| - 1]];
    SendFrameLines(username, channel, e, entries, ToDecimal(r));
    FrameOfLines("SEND", hs, b[..|b| - 1], b[|b| - 1]);
  }

  lemma NotBlankU()
    ensures !Blank('u')
  {
  }

  lemma TabbedKey(k: string, v: string)
    ensures var key := CutLine(HeaderLine(("\t" + k, v))).0; key != "" && key[0] == '\t'
  {
    var line := HeaderLine(("\t" + k, v));
    assert line[0] == '\t' && line[|k| + 1] == ':';
  }

  /** The keys of the SEND frame's headers, in order. */
  lemma SendKeys(username: string, channel: string, e: Event, entries: seq<Header>, r: string)
    ensures var c, fixed := CutLines(SendLines(username, channel, e, entries, r)), BodyEntries(username, channel, e);
            && |c| == 9 + |entries|
            && c[0] == ("destination", "/" + channel) && c[1].0 == "receipt" && c[2] == ("user", username)
            && (forall i | 3 <= i < 9 :: c[i].0 == fixed[i - 2].0)
            && (forall i | 9 <= i < |c| :: c[i].0 != "" && c[i].0[0] == '\t')
  {
    hide BodyLines, CutLine, ToDecimal, HeaderLine;
    var c, fixed := CutLines(SendLines(username, channel, e, entries, r)), BodyEntries(username, channel, e);
    BodyShape(username, channel, e, entries);
    CutOfHeader("destination", "/" + channel);
    CutOfHeader("receipt", r);
    forall i | 0 <= i < 7 ensures c[i + 2] == fixed[i] { CutOfHeader(fixed[i].0, fixed[i].1); }
    forall i | 9 <= i < |c| ensures c[i].0 != "" && c[i].0[0] == '\t' {
      TabbedKey(entries[i - 9].0, entries[i - 9].1);
    }
  }

  lemma NotTabbed(key: string)
    requires key != "" && key[0] == '\t'
    ensures key != "destination" && key != "user"
  {
  }

  lemma FixedKey(username: string, channel: string, e: Event, i: nat)
    requires 1 <= i < 7
    ensures BodyEntries(username, channel, e)[i].0 != "destination" && BodyEntries(username, channel, e)[i].0 != "user"
  {
    hide ToDecimal;
  }

  lemma SendHeaders(username: string, channel: string, e: Event, entries: seq<Header>, r: string)
    ensures var h := MapOf(CutLines(SendLines(username, channel, e, entries, r)));
            && "destination" in h && h["destination"] == "/" + channel
            && "user" in h && h["user"] == username
  {
    hide CutLines, SendLines, MapOf, BodyEntries;
    var c := CutLines(SendLines(username, channel, e, entries, r));
    SendKeys(username, channel, e, entries, r);
    forall j | 0 < j < |c| ensures c[j].0 != "destination" && (j > 2 ==> c[j].0 != "user") {
      if j >= 9 { NotTabbed(c[j].0); } else if j > 2 { FixedKey(username, channel, e, j - 2); }
    }
    MapOfLast(c, 0);
    MapOfLast(c, 2);
  }

  /** The message the server makes of the SEND frame for an event. */
  function EventMessage(username: string, channel: string, e: Event, entries: seq<Header>, r: int): StompMessage
  {
    StompMessage("SEND", MapOf(CutLines(SendLines(username, channel, e, entries, ToDecimal(r)))),
                 SentBody(username, channel, e, entries))
  }

  ghost predicate OnTheWire(text: string) { Ascii(text) && '\0' !in text }

  /**
   * The SEND frame for an event, on the wire: the server's decoder returns one message, with the
   * destination, the user and the trimmed body, and the server publishes it if the sender has subscribed.
   */
  lemma EventReachesServer(username: string, channel: string, e: Event, entries: seq<Header>, r: int, p: Proto)
    requires PlainEvent(username, channel, e, entries) && username != "" && "/" + channel in p.subscriptions
    ensures var frame := CreateSendFrame("/" + channel, Body(username, channel, e, entries), ToDecimal(r));
            var m := EventMessage(username, channel, e, entries, r);
            && ParseFrame(frame) == Ok(m)
            && (OnTheWire(frame) ==> DecodeAll(Utf8(frame + "\0")) == Decoding("", [m], true))
    ensures var m := EventMessage(username, channel, e, entries, r);
            && Get(m, "destination") == Some("/" + channel) && Get(m, "user") == Some(username)
            && m.body == SentBody(username, channel, e, entries)
            && Sends(p, m)
  {
    hide CreateSendFrame, Body, ParseFrame, SendLines, CutLines, MapOf, ToDecimal, SentBody, Utf8, Ascii, PlainEvent;
    SendFrameParses(username, channel, e, entries, r);
    SendHeaders(username, channel, e, entries, ToDecimal(r));
    SentBodyNotEmpty(username, channel, e, entries);
    var frame := CreateSendFrame("/" + channel, Body(username, channel, e, entries), ToDecimal(r));
    if OnTheWire(frame) { DecodeOneText(FRESH, frame); }
  }

  lemma SentBodyNotEmpty(username: string, channel: string, e: Event, entries: seq<Header>)
    ensures SentBody(username, channel, e, entries) != ""
  {
    hide BodyLines, Lines;
    BodyShape(username, channel, e, entries);
    var b := BodyLines(username, channel, e, entries);
    var front := b[..|b| - 1];
    assert front == [b[0]] + front[1..];
    LinesCons(b[0], front[1..]);
  }
}
