/**
 * Text that is not ASCII on the wire: it is written in UTF-8 and read byte by byte, each byte widened to a
 * character of its own. So a message survives exactly if, apart from the rest, all of it is ASCII.
 */
module WideText {
  import opened Text
  import opened StompFrame
  import opened StompCodec

  /** What a text reads as: one character for each of its bytes. */
  function Wide(s: string): string
  {
    if s == "" then "" else TextOf(Utf8Char(s[0])) + Wide(s[1..])
  }

  lemma WideChar(c: char)
    ensures c < 128 as char ==> TextOf(Utf8Char(c)) == [c]
    ensures c >= 128 as char ==>
              |Utf8Char(c)| >= 2 && forall i | 0 <= i < |Utf8Char(c)| :: TextOf(Utf8Char(c))[i] >= 128 as char
  {
    BytesOf(c);
  }

  lemma BytesOf(c: char)
    ensures c >= 128 as char ==> |Utf8Char(c)| >= 2 && forall i | 0 <= i < |Utf8Char(c)| :: Utf8Char(c)[i] < 0
  {
    var v := c as int;
    assert v < 0x11_0000;
    assert 0 <= v / 0x40 % 0x40 < 0x40 && 0 <= v % 0x40 < 0x40 && 0 <= v / 0x1000 % 0x40 < 0x40;
  }

  lemma {:induction false} WideAppend(a: string, b: string)
    ensures Wide(a + b) == Wide(a) + Wide(b)
  {
    if a == "" {
      assert a + b == b;
    } else {
      assert (a + b)[1..] == a[1..] + b;
      WideAppend(a[1..], b);
      Assoc(TextOf(Utf8Char(a[0])), Wide(a[1..]), Wide(b));
    }
  }

  lemma {:induction false} WideIsText(s: string)
    ensures TextOf(Utf8(s)) == Wide(s)
    ensures '\0' !in s ==> 0 !in Utf8(s)
  {
    hide Utf8Char;
    if s == "" {
      assert TextOf([]) == "";
    } else {
      WideIsText(s[1..]);
      NoNulChar(s[0]);
      assert TextOf(Utf8Char(s[0]) + Utf8(s[1..])) == TextOf(Utf8Char(s[0])) + TextOf(Utf8(s[1..]));
      assert '\0' !in s ==> '\0' !in s[1..] && s[0] in s;
    }
  }

  lemma NoNulChar(c: char)
    ensures c != '\0' ==> 0 !in Utf8Char(c)
  {
    if c >= 128 as char { BytesOf(c); }
  }

  /** Exactly ASCII text reads as it was written; any other gets longer. */
  lemma {:induction false} WideAscii(s: string)
    ensures Ascii(s) ==> Wide(s) == s
    ensures !Ascii(s) ==> |Wide(s)| > |s| && !Ascii(Wide(s))
  {
    hide TextOf, Utf8Char;
    if s != "" {
      var first := TextOf(Utf8Char(s[0]));
      WideChar(s[0]);
      WideAscii(s[1..]);
      AsciiParts(s);
      AsciiConcat(first, Wide(s[1..]));
      assert s == [s[0]] + s[1..];
      if s[0] >= 128 as char { NotAscii(first); }
    }
  }

  lemma AsciiParts(s: string)
    requires s != ""
    ensures Ascii(s) <==> s[0] < 128 as char && Ascii(s[1..])
  {
    AsciiConcat([s[0]], s[1..]);
    assert s == [s[0]] + s[1..];
    if Ascii(s) { assert s[0] in s; }
  }

  lemma AsciiConcat(a: string, b: string)
    ensures Ascii(a + b) ==> Ascii(a) && Ascii(b)
  {
    if Ascii(a + b) {
      forall c | c in a ensures c < 128 as char { assert c in a + b; }
      forall c | c in b ensures c < 128 as char { assert c in a + b; }
    }
  }

  lemma NotAscii(s: string)
    requires s != "" && s[0] >= 128 as char
    ensures !Ascii(s)
  {
    assert s[0] in s;
  }

  lemma {:induction false} WideHas(s: string, c: char)
    requires c < 128 as char
    ensures c in Wide(s) <==> c in s
  {
    hide TextOf, Utf8Char;
    if s != "" {
      WideChar(s[0]);
      WideHas(s[1..], c);
      assert s == [s[0]] + s[1..];
    }
  }

  lemma {:induction false} WideEnds(s: string)
    requires s != ""
    ensures Wide(s) != "" && (Blank(Wide(s)[0]) <==> Blank(s[0]))
    ensures Blank(Wide(s)[|Wide(s)| - 1]) <==> Blank(s[|s| - 1])
  {
    hide TextOf, Utf8Char;
    WideChar(s[0]);
    if |s| > 1 {
      WideEnds(s[1..]);
    } else {
      assert s[1..] == "";
    }
  }

  // ------------------------------------------------------------------ UTF-8 read back

  function CharWith(code: nat): char
  {
    if code < 0xD800 || 0xE000 <= code < 0x11_0000 then code as char else '?'
  }

  /** The length of a character, from its first byte. */
  function LengthOf(first: Byte): nat
  {
    var u := Unsigned(first);
    if u < 0x80 then 1 else if u < 0xE0 then 2 else if u < 0xF0 then 3 else 4
  }

  function CodeOf(bytes: seq<Byte>): nat
    requires 1 <= |bytes| <= 4
  {
    var u := Unsigned(bytes[0]);
    if |bytes| == 1 then u else
    var low := Unsigned(bytes[|bytes| - 1]) % 0x40;
    if |bytes| == 2 then u % 0x20 * 0x40 + low else
    var middle := Unsigned(bytes[|bytes| - 2]) % 0x40;
    if |bytes| == 3 then u % 0x10 * 0x1000 + middle * 0x40 + low else
    u % 0x8 * 0x4_0000 + Unsigned(bytes[1]) % 0x40 * 0x1000 + middle * 0x40 + low
  }

  /** A standard reader of UTF-8. */
  function ReadUtf8(bytes: seq<Byte>): string
  {
    if bytes == [] then "" else
    var n := LengthOf(bytes[0]);
    if |bytes| < n then "" else [CharWith(CodeOf(bytes[..n]))] + ReadUtf8(bytes[n..])
  }

  lemma Low(base: nat, v: nat)
    requires base == 0x80
    ensures 0x80 <= base + v % 0x40 < 0x100 && (base + v % 0x40) % 0x40 == v % 0x40
  {
  }

  lemma TwoBack(v: nat)
    requires 0x80 <= v < 0x800
    ensures 0xC0 <= 0xC0 + v / 0x40 < 0xE0 && (0xC0 + v / 0x40) % 0x20 * 0x40 + v % 0x40 == v
  {
  }

  lemma ThreeBack(v: nat)
    requires 0x800 <= v < 0x1_0000
    ensures 0xE0 <= 0xE0 + v / 0x1000 < 0xF0
    ensures (0xE0 + v / 0x1000) % 0x10 * 0x1000 + v / 0x40 % 0x40 * 0x40 + v % 0x40 == v
  {
    assert v / 0x40 / 0x40 == v / 0x1000;
  }

  lemma FourBack(v: nat)
    requires 0x1_0000 <= v < 0x11_0000
    ensures 0xF0 <= 0xF0 + v / 0x4_0000 < 0xF5
    ensures (0xF0 + v / 0x4_0000) % 0x8 * 0x4_0000 + v / 0x1000 % 0x40 * 0x1000 + v / 0x40 % 0x40 * 0x40 + v % 0x40 == v
  {
    assert v / 0x1000 / 0x40 == v / 0x4_0000 && v / 0x40 / 0x40 == v / 0x1000;
  }

  lemma CharBack(c: char)
    ensures var b := Utf8Char(c); 1 <= |b| <= 4 && LengthOf(b[0]) == |b| && CodeOf(b) == c as int
  {
    var v := c as int;
    if v < 0x80 { AsciiBack(c); } else if v < 0x800 { CharBackTwo(c); } else if v < 0x1_0000 { CharBackThree(c); }
    else { CharBackFour(c); }
  }

  lemma AsciiBack(c: char)
    requires c < 128 as char
    ensures var b := Utf8Char(c); |b| == 1 && LengthOf(b[0]) == |b| && CodeOf(b) == c as int
  {
  }

  lemma CharBackTwo(c: char)
    requires 0x80 <= c as int < 0x800
    ensures var b := Utf8Char(c); |b| == 2 && LengthOf(b[0]) == |b| && CodeOf(b) == c as int
  {
    hide Unsigned, ToByte;
    var v := c as int;
    TwoBack(v);
    Low(0x80, v);
    UnsignedToByte(0xC0 + v / 0x40);
    UnsignedToByte(0x80 + v % 0x40);
  }

  lemma CharBackThree(c: char)
    requires 0x800 <= c as int < 0x1_0000
    ensures var b := Utf8Char(c); |b| == 3 && LengthOf(b[0]) == |b| && CodeOf(b) == c as int
  {
    hide Unsigned, ToByte;
    var v := c as int;
    ThreeBack(v);
    Low(0x80, v / 0x40);
    Low(0x80, v);
    UnsignedToByte(0xE0 + v / 0x1000);
    UnsignedToByte(0x80 + v / 0x40 % 0x40);
    UnsignedToByte(0x80 + v % 0x40);
  }

  lemma CharBackFour(c: char)
    requires 0x1_0000 <= c as int
    ensures var b := Utf8Char(c); |b| == 4 && LengthOf(b[0]) == |b| && CodeOf(b) == c as int
  {
    hide Unsigned, ToByte;
    var v := c as int;
    assert v < 0x11_0000;
    FourBack(v);
    Low(0x80, v / 0x1000);
    Low(0x80, v / 0x40);
    Low(0x80, v);
    UnsignedToByte(0xF0 + v / 0x4_0000);
    UnsignedToByte(0x80 + v / 0x1000 % 0x40);
    UnsignedToByte(0x80 + v / 0x40 % 0x40);
    UnsignedToByte(0x80 + v % 0x40);
  }

  /** The encoder writes UTF-8: a standard reader gets every text back. */
  lemma {:induction false} Utf8RoundTrip(s: string)
    ensures ReadUtf8(Utf8(s)) == s
  {
    hide Utf8Char, LengthOf, CodeOf;
    if s != "" {
      var b, rest := Utf8Char(s[0]), Utf8(s[1..]);
      CharBack(s[0]);
      Utf8RoundTrip(s[1..]);
      assert (b + rest)[..|b|] == b && (b + rest)[|b|..] == rest;
      assert CharWith(s[0] as int) == s[0];
    }
  }

  // ------------------------------------------------------------------ frames

  function WideEntries(entries: seq<Header>): (r: seq<Header>)
    ensures |r| == |entries|
    ensures forall i | 0 <= i < |r| :: r[i] == (Wide(entries[i].0), Wide(entries[i].1))
  {
    seq(|entries|, i requires 0 <= i < |entries| => (Wide(entries[i].0), Wide(entries[i].1)))
  }

  lemma WideMarks()
    ensures Wide("\n") == "\n" && Wide(":") == ":"
  {
    WideAscii("\n");
    WideAscii(":");
  }

  lemma WideHeader(h: Header)
    ensures Wide(HeaderLine(h)) == HeaderLine((Wide(h.0), Wide(h.1)))
  {
    hide Wide;
    WideMarks();
    WideAppend(h.0 + ":", h.1);
    WideAppend(h.0, ":");
  }

  lemma NothingPrinted()
    ensures Lines(HeaderLines([])) == "" && Wide("") == ""
  {
  }

  lemma LinesOfFirst(h: Header, more: seq<Header>)
    ensures HeaderLines([h] + more) == [HeaderLine(h)] + HeaderLines(more)
  {
  }

  lemma {:induction false} WideLines(entries: seq<Header>)
    ensures Wide(Lines(HeaderLines(entries))) == Lines(HeaderLines(WideEntries(entries)))
  {
    hide Wide, Lines, HeaderLines, HeaderLine, WideEntries;
    if entries == [] {
      assert WideEntries([]) == [] by { assert |WideEntries([])| == 0; }
      NothingPrinted();
    } else {
      var h, more := entries[0], entries[1..];
      assert entries == [h] + more;
      assert WideEntries(entries) == [(Wide(h.0), Wide(h.1))] + WideEntries(more);
      LinesOfFirst(h, more);
      LinesOfFirst((Wide(h.0), Wide(h.1)), WideEntries(more));
      LinesCons(HeaderLine(h), HeaderLines(more));
      LinesCons(HeaderLine((Wide(h.0), Wide(h.1))), HeaderLines(WideEntries(more)));
      WideLines(more);
      WideLine(h, Lines(HeaderLines(more)));
    }
  }

  lemma WideLine(h: Header, rest: string)
    ensures Wide(HeaderLine(h) + "\n" + rest) == HeaderLine((Wide(h.0), Wide(h.1))) + "\n" + Wide(rest)
  {
    hide Wide, HeaderLine;
    WideHeader(h);
    WideMarks();
    WideAppend(HeaderLine(h) + "\n", rest);
    WideAppend(HeaderLine(h), "\n");
  }

  lemma WideFrame(command: string, entries: seq<Header>, body: string)
    ensures Wide(FrameText(command, entries, body)) == FrameText(Wide(command), WideEntries(entries), Wide(body))
  {
    hide Wide, Lines, HeaderLines, WideEntries;
    var ls := Lines(HeaderLines(entries));
    WideMarks();
    WideLines(entries);
    WideAppend(command, "\n");
    WideAppend(command + "\n", ls);
    WideAppend(command + "\n" + ls, "\n");
    WideAppend(command + "\n" + ls + "\n", body);
  }

  // ------------------------------------------------------------------ the round trip

  /** Decoding the bytes of any text without NUL is parsing what it reads as. */
  lemma DecodeWide(text: string)
    requires '\0' !in text
    ensures DecodeAll(Utf8(text + "\0")) ==
            match ParseFrame(Wide(text))
            case Ok(m) => Decoding("", [m], true)
            case Throws => Decoding(Wide(text), [], false)
  {
    hide ParseFrame, Utf8, Wide;
    WideIsText(text);
    Utf8Append(text, "\0");
    assert Utf8("\0") == [0] by { NulByte(); }
    DecodeText(FRESH, Utf8(text), Wide(text));
    assert "" + Wide(text) == Wide(text);
    DecodeSnoc(FRESH, Utf8(text), 0);
    assert forall m: StompMessage :: [] + [m] == [m];
  }

  lemma NulByte()
    ensures Utf8("\0") == [0]
  {
    assert "\0"[1..] == "";
  }

  /** A NUL in the text is one terminator too many. */
  lemma WideNul(text: string)
    requires '\0' in text
    ensures Nuls(Utf8(text + "\0")) >= 2
  {
    hide Utf8;
    var i :| 0 <= i < |text| && text[i] == '\0';
    assert text + "\0" == text[..i] + "\0" + (text[i + 1..] + "\0");
    NulByte();
    Utf8Append(text[..i] + "\0", text[i + 1..] + "\0");
    Utf8Append(text[..i], "\0");
    Utf8Append(text[i + 1..], "\0");
    var a, b := Utf8(text[..i]), Utf8(text[i + 1..]);
    NulsConcat(a + [0], b + [0]);
    NulsAt(a + [0], |a|);
    NulsAt(b + [0], |b|);
  }

  lemma {:induction false} LongestKey(entries: seq<Header>) returns (i: nat)
    requires exists j :: 0 <= j < |entries| && !Ascii(entries[j].0)
    ensures i < |entries| && !Ascii(entries[i].0)
    ensures forall j | 0 <= j < |entries| && !Ascii(entries[j].0) :: |entries[j].0| <= |entries[i].0|
  {
    hide Ascii;
    var n := |entries| - 1;
    var front := entries[..n];
    assert forall j | 0 <= j < n :: front[j] == entries[j];
    if exists j :: 0 <= j < |front| && !Ascii(front[j].0) {
      i := LongestKey(front);
      if !Ascii(entries[n].0) && |entries[n].0| > |entries[i].0| { i := n; }
    } else {
      i := n;
    }
  }

  lemma {:induction false} MapOfKeys(entries: seq<Header>, i: nat)
    requires i < |entries|
    ensures entries[i].0 in MapOf(entries)
  {
    if i < |entries| - 1 {
      MapOfKeys(entries[..|entries| - 1], i);
    }
  }

  /** If the headers read as they were written, they are ASCII. */
  lemma HeadersAreAscii(entries: seq<Header>, m: map<string, string>)
    requires Enumerates(entries, m) && MapOf(WideEntries(entries)) == m
    ensures forall k <- m :: Ascii(k) && Ascii(m[k])
  {
    hide Ascii, MapOf, Wide;
    if exists j :: 0 <= j < |entries| && !Ascii(entries[j].0) {
      var i := LongestKey(entries);
      MapOfKeys(WideEntries(entries), i);
      WideAscii(entries[i].0);
      assert false;
    }
    KeysSame(entries, m);
    forall k | k in m ensures Ascii(k) && Ascii(m[k]) {
      var i :| 0 <= i < |entries| && entries[i].0 == k;
      WideAscii(entries[i].1);
      assert Wide(entries[i].1) == m[k];
    }
  }

  lemma KeysSame(entries: seq<Header>, m: map<string, string>)
    requires Enumerates(entries, m) && forall i | 0 <= i < |entries| :: Ascii(entries[i].0)
    requires MapOf(WideEntries(entries)) == m
    ensures forall i | 0 <= i < |entries| :: Wide(entries[i].1) == m[entries[i].0]
  {
    hide Ascii, MapOf, Wide;
    var wide := WideEntries(entries);
    var values := map k | k in m :: Wide(m[k]);
    forall i | 0 <= i < |entries| ensures wide[i] == (entries[i].0, Wide(entries[i].1)) { WideAscii(entries[i].0); }
    forall k | k in values ensures exists i :: 0 <= i < |wide| && wide[i].0 == k {
      var i :| 0 <= i < |entries| && entries[i].0 == k;
      assert wide[i].0 == k;
    }
    MapOfEnumeration(wide, values);
  }

  lemma WideHeadersGood(m: StompMessage, entries: seq<Header>)
    requires Enumerates(entries, m.headers) && Canonical(m)
    ensures forall e <- WideEntries(entries) :: OneLine(e.0) && ':' !in e.0 && OneLine(e.1)
  {
    hide Wide;
    var wide := WideEntries(entries);
    forall e | e in wide ensures OneLine(e.0) && ':' !in e.0 && OneLine(e.1) {
      var i :| 0 <= i < |wide| && wide[i] == e;
      assert entries[i].0 in m.headers && m.headers[entries[i].0] == entries[i].1;
      WideHas(entries[i].0, '\n');
      WideHas(entries[i].0, ':');
      WideHas(entries[i].1, '\n');
    }
  }

  lemma WideCanonical(m: StompMessage, entries: seq<Header>)
    requires Enumerates(entries, m.headers) && Canonical(m)
    ensures ParseFrame(Wide(FrameText(m.command, entries, m.body)))
         == Ok(StompMessage(Wide(m.command), MapOf(WideEntries(entries)), Wide(m.body)))
  {
    hide Wide, ParseFrame;
    var wide := WideEntries(entries);
    WideFrame(m.command, entries, m.body);
    WideHas(m.command, '\n');
    WideHeadersGood(m, entries);
    if m.body != "" { WideEnds(m.body); } else { NothingWide(); }
    if m.command != "" { WideEnds(m.command); }
    if entries == [] { assert m.headers == map[] by { NoKeys(m.headers); } }
    PrintedFrameParses(Wide(m.command), wide, Wide(m.body));
  }

  lemma NothingWide()
    ensures Wide("") == ""
  {
  }

  lemma NoKeys(m: map<string, string>)
    requires Enumerates([], m)
    ensures m == map[]
  {
    assert m.Keys == {};
  }

  /** The parts of what any frame parses to. */
  lemma ParsedIsCanonical(text: string, m: StompMessage)
    requires ParseFrame(text) == Ok(m) && (m.command != "" || m.headers != map[] || m.body != "")
    ensures Canonical(m)
  {
    var lines := JavaSplit(text, '\n');
    PiecesHaveNoSeparator(text, '\n');
    ParsedHeadersAreCanonical(lines, 1, map[]);
  }

  /**
   * The round trip on the wire, for every message there is: a decoder fed the bytes of one encoded message
   * returns exactly that message and is empty again, if and only if the message is canonical, has no NUL, and
   * is ASCII throughout.
   */
  lemma WireRoundTripIff(m: StompMessage, entries: seq<Header>)
    requires Enumerates(entries, m.headers)
    ensures DecodeAll(Wire(m, entries)) == Decoding("", [m], true) <==> Canonical(m) && NulFree(m) && AsciiMessage(m)
  {
    hide ParseFrame, Canonical, Utf8, Wide, Ascii, DecodeFrom;
    if AsciiMessage(m) {
      WireRoundTrip(m, entries);
    } else if !NulFree(m) {
      NulInText(m, entries);
      WideNul(FrameText(m.command, entries, m.body));
      OneMessagePerNul(FRESH, Wire(m, entries));
    } else {
      NulFreeText(m, entries);
      DecodeWide(FrameText(m.command, entries, m.body));
      if ParseFrame(Wide(FrameText(m.command, entries, m.body))) == Ok(m) {
        NotEmpty(m);
        ParsedIsCanonical(Wide(FrameText(m.command, entries, m.body)), m);
        WideCanonical(m, entries);
        WideAscii(m.command);
        WideAscii(m.body);
        HeadersAreAscii(entries, m.headers);
        assert false;
      }
    }
  }

  lemma NotEmpty(m: StompMessage)
    requires !AsciiMessage(m)
    ensures m.command != "" || m.headers != map[] || m.body != ""
  {
  }

  lemma NulFreeText(m: StompMessage, entries: seq<Header>)
    requires Enumerates(entries, m.headers) && NulFree(m)
    ensures '\0' !in FrameText(m.command, entries, m.body)
  {
    if '\0' in FrameText(m.command, entries, m.body) { FrameTextCharacters(m, entries, '\0'); }
  }
}
