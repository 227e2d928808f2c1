/** Substring search as `std::string::find` does it, on texts made of lines. */
module Search {
  import opened Text

  predicate OccursAt(s: string, w: string, i: nat)
  {
    i + |w| <= |s| && s[i..i + |w|] == w
  }

  ghost predicate Contains(s: string, w: string) { exists i: nat :: OccursAt(s, w, i) }

  /** The first position of `w` in `s`; None is npos. */
  function Find(s: string, w: string): (r: Option<nat>)
    ensures r.Some? ==> OccursAt(s, w, r.value)
  {
    if w <= s then Some(0)
    else if s == "" then None
    else
      match Find(s[1..], w)
      case None => None
      case Some(i) =>
        assert s[i + 1..i + 1 + |w|] == s[1..][i..i + |w|];
        Some(i + 1)
  }

  /** Nothing occurs before the position found, and nothing at all when none is found. */
  lemma {:induction false} FindsFirst(s: string, w: string, i: nat)
    requires OccursAt(s, w, i)
    ensures Find(s, w).Some? && Find(s, w).value <= i
  {
    if !(w <= s) {
      assert i > 0;
      assert s[1..][i - 1..i - 1 + |w|] == s[i..i + |w|];
      FindsFirst(s[1..], w, i - 1);
    }
  }

  lemma FindIffContains(s: string, w: string)
    ensures Find(s, w).Some? <==> Contains(s, w)
  {
    if Contains(s, w) {
      var i: nat :| OccursAt(s, w, i);
      FindsFirst(s, w, i);
    }
  }

  // ------------------------------------------------------------------ a value between a marker and the end of its line

  /** The text after the first `w`, up to the end of the line; empty when `w` does not occur. */
  function Extract(s: string, w: string): string
  {
    match Find(s, w)
    case None => ""
    case Some(i) => var rest := s[i + |w|..]; rest[..IndexOf(rest, '\n')]
  }

  lemma Meets(s: string, w: string, i: nat, k: nat)
    requires OccursAt(s, w, i) && k < |w|
    ensures i + k < |s| && s[i + k] == w[k]
  {
    assert s[i..i + |w|][k] == s[i + k];
  }

  /** An occurrence of a marker without newline lies in one line. */
  lemma InOneLine(line: string, rest: string, w: string, i: nat)
    requires '\n' !in w && w != "" && OccursAt(line + "\n" + rest, w, i)
    ensures i + |w| <= |line| ==> OccursAt(line, w, i)
    ensures i + |w| > |line| ==> i > |line| && OccursAt(rest, w, i - |line| - 1)
  {
    var s := line + "\n" + rest;
    if i + |w| <= |line| {
      assert line[i..i + |w|] == s[i..i + |w|];
    } else if i <= |line| {
      Meets(s, w, i, |line| - i);
      assert false;
    } else {
      assert rest[i - |line| - 1..i - |line| - 1 + |w|] == s[i..i + |w|];
    }
  }

  lemma ContainsLine(line: string, rest: string, w: string)
    requires '\n' !in w && w != ""
    ensures Contains(line + "\n" + rest, w) <==> Contains(line, w) || Contains(rest, w)
  {
    var s := line + "\n" + rest;
    if Contains(s, w) {
      var i: nat :| OccursAt(s, w, i);
      InOneLine(line, rest, w, i);
    }
    if Contains(line, w) {
      var i: nat :| OccursAt(line, w, i);
      assert s[i..i + |w|] == line[i..i + |w|];
      assert OccursAt(s, w, i);
    }
    if Contains(rest, w) {
      var i: nat :| OccursAt(rest, w, i);
      assert s[|line| + 1 + i..|line| + 1 + i + |w|] == rest[i..i + |w|];
      assert OccursAt(s, w, |line| + 1 + i);
    }
  }

  lemma FindSkipsLine(line: string, rest: string, w: string)
    requires '\n' !in w && w != "" && !Contains(line, w)
    ensures Find(line + "\n" + rest, w) ==
              match Find(rest, w) case None => None case Some(j) => Some(|line| + 1 + j)
  {
    hide Find, Contains;
    var s := line + "\n" + rest;
    ContainsLine(line, rest, w);
    FindIffContains(s, w);
    FindIffContains(rest, w);
    FindIffContains(line, w);
    if Contains(rest, w) {
      var i, j := Find(s, w).value, Find(rest, w).value;
      InOneLine(line, rest, w, i);
      if i + |w| <= |line| { FindsFirst(line, w, i); }
      FindsFirst(rest, w, i - |line| - 1);
      assert s[|line| + 1 + j..|line| + 1 + j + |w|] == rest[j..j + |w|];
      FindsFirst(s, w, |line| + 1 + j);
    }
  }

  lemma ExtractSkipsLine(line: string, rest: string, w: string)
    requires '\n' !in w && w != "" && !Contains(line, w)
    ensures Extract(line + "\n" + rest, w) == Extract(rest, w)
  {
    hide Find, Contains, IndexOf;
    FindSkipsLine(line, rest, w);
    match Find(rest, w)
    case None =>
    case Some(j) => assert (line + "\n" + rest)[|line| + 1 + j + |w|..] == rest[j + |w|..];
  }

  lemma ExtractHere(w: string, value: string, rest: string)
    requires '\n' !in value
    ensures Extract(w + value + "\n" + rest, w) == value
  {
    var s := w + value + "\n" + rest;
    assert s[..|w|] == w && w <= s;
    assert s[|w|..] == value + ("\n" + rest);
    IndexOfSkips(value, '\n', "\n" + rest);
    assert IndexOf("\n" + rest, '\n') == 0;
    assert (value + ("\n" + rest))[..|value|] == value;
  }

  /** The value on the first line that has the marker. */
  lemma {:induction false} ExtractFromLines(lines: seq<string>, k: nat, w: string, value: string, rest: string)
    requires k < |lines| && '\n' !in w && w != "" && '\n' !in value && lines[k] == w + value
    requires forall j | 0 <= j < k :: !Contains(lines[j], w)
    ensures Extract(Lines(lines) + rest, w) == value
  {
    hide Extract, Contains;
    var tail := Lines(lines[1..]) + rest;
    assert Lines(lines) + rest == lines[0] + "\n" + tail;
    if k == 0 {
      ExtractHere(w, value, tail);
    } else {
      ExtractSkipsLine(lines[0], tail, w);
      ExtractFromLines(lines[1..], k - 1, w, value, rest);
    }
  }

  lemma {:induction false} ContainsInLines(lines: seq<string>, w: string, rest: string)
    requires '\n' !in w && w != ""
    ensures Contains(Lines(lines) + rest, w) <==>
              Contains(rest, w) || exists i :: 0 <= i < |lines| && Contains(lines[i], w)
  {
    hide Contains;
    if lines == [] {
      assert Lines(lines) + rest == rest;
    } else {
      var tail := Lines(lines[1..]) + rest;
      assert Lines(lines) + rest == lines[0] + "\n" + tail;
      ContainsLine(lines[0], tail, w);
      ContainsInLines(lines[1..], w, rest);
      if i :| 0 <= i < |lines[1..]| && Contains(lines[1..][i], w) { assert Contains(lines[i + 1], w); }
      if i :| 0 < i < |lines| && Contains(lines[i], w) { assert Contains(lines[1..][i - 1], w); }
    }
  }

  // ------------------------------------------------------------------ markers and labels

  predicate EndsWith(s: string, w: string) { |w| <= |s| && s[|s| - |w|..] == w }

  /**
   * Where a marker `w:t`, with its first colon after `w`, can occur in a line `key:text`: at the
   * colon of the key, or inside the text.
   */
  lemma MarkerInLine(key: string, text: string, w: string, t: string)
    requires ':' !in key && ':' !in w
    ensures Contains(key + ":" + text, w + ":" + t) <==>
              (EndsWith(key, w) && t <= text) || Contains(text, w + ":" + t)
  {
    var line, marker := key + ":" + text, w + ":" + t;
    if Contains(line, marker) {
      var i: nat :| OccursAt(line, marker, i);
      AtLabelOrInText(key, text, w, t, i);
    }
    if EndsWith(key, w) && t <= text {
      var i := |key| - |w|;
      assert line[i..i + |marker|] == key[i..] + ":" + text[..|t|];
      assert OccursAt(line, marker, i);
    }
    if Contains(text, marker) {
      var i: nat :| OccursAt(text, marker, i);
      assert line[|key| + 1 + i..|key| + 1 + i + |marker|] == text[i..i + |marker|];
      assert OccursAt(line, marker, |key| + 1 + i);
    }
  }

  lemma AtLabelOrInText(key: string, text: string, w: string, t: string, i: nat)
    requires ':' !in key && ':' !in w && OccursAt(key + ":" + text, w + ":" + t, i)
    ensures (EndsWith(key, w) && t <= text) || Contains(text, w + ":" + t)
  {
    var line, marker := key + ":" + text, w + ":" + t;
    var n := |key|;
    if i <= n {
      ColonsMeet(key, text, w, t, i);
      forall k | 0 <= k < |w| ensures key[i..][k] == w[k] { Meets(line, marker, i, k); }
      assert key[i..] == w;
      forall k | 0 <= k < |t| ensures text[k] == t[k] { Meets(line, marker, i, |w| + 1 + k); }
      assert text[..|t|] == t;
    } else {
      assert text[i - n - 1..i - n - 1 + |marker|] == line[i..i + |marker|];
      assert OccursAt(text, marker, i - n - 1);
    }
  }

  lemma ColonsMeet(key: string, text: string, w: string, t: string, i: nat)
    requires ':' !in key && ':' !in w && OccursAt(key + ":" + text, w + ":" + t, i) && i <= |key|
    ensures i + |w| == |key|
  {
    var line, marker := key + ":" + text, w + ":" + t;
    Meets(line, marker, i, |w|);
    if i + |w| > |key| { Meets(line, marker, i, |key| - i); }
  }

  lemma PrefixContains(s: string, n: nat, w: string)
    requires n <= |s| && Contains(s[..n], w)
    ensures Contains(s, w)
  {
    var i: nat :| OccursAt(s[..n], w, i);
    assert s[i..i + |w|] == s[..n][i..i + |w|];
    assert OccursAt(s, w, i);
  }

  lemma BlankEndsNoMarker(s: string, w: string)
    requires s != "" && Blank(s[|s| - 1]) && w != "" && !Blank(w[|w| - 1]) && Contains(s, w)
    ensures Contains(s[..|s| - 1], w)
  {
    var i: nat :| OccursAt(s, w, i);
    Meets(s, w, i, |w| - 1);
    assert i + |w| < |s|;
    assert s[..|s| - 1][i..i + |w|] == s[i..i + |w|];
    assert OccursAt(s[..|s| - 1], w, i);
  }

  /** Trimming blanks off the end loses no marker that ends in something else. */
  lemma {:induction false} TrimKeepsMarkers(s: string, w: string)
    requires w != "" && !Blank(w[|w| - 1])
    ensures Contains(TrimRight(s), w) <==> Contains(s, w)
  {
    hide Contains;
    if s != "" && Blank(s[|s| - 1]) {
      TrimKeepsMarkers(s[..|s| - 1], w);
      if Contains(s, w) { BlankEndsNoMarker(s, w); }
      if Contains(s[..|s| - 1], w) { PrefixContains(s, |s| - 1, w); }
    }
  }
}
