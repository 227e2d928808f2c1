/** The string operations of Java and C++ that the frame printers and parsers are built from. */
module Text {

  datatype Option<+T> = None | Some(value: T)

  lemma Assoc<T>(a: seq<T>, b: seq<T>, c: seq<T>)
    ensures a + b + c == a + (b + c)
  {
  }

  /** The first position of `c` in `s`, or the length of `s` when there is none. */
  function IndexOf(s: string, c: char): (i: nat)
    ensures i <= |s|
    ensures c !in s[..i]
    ensures i < |s| ==> s[i] == c
  {
    if s == "" || s[0] == c then 0 else
    var i := 1 + IndexOf(s[1..], c);
    assert s[..i] == [s[0]] + s[1..][..i - 1];
    i
  }

  lemma {:induction false} IndexOfSkips(a: string, c: char, b: string)
    requires c !in a
    ensures IndexOf(a + b, c) == |a| + IndexOf(b, c)
  {
    if a == "" {
      assert a + b == b;
    } else {
      assert (a + b)[0] == a[0] && (a + b)[1..] == a[1..] + b;
      IndexOfSkips(a[1..], c, b);
    }
  }

  /** All the pieces of `s` between occurrences of `sep`, empty ones included. */
  function SplitAll(s: string, sep: char): (pieces: seq<string>)
    ensures |pieces| >= 1
    decreases |s|
  {
    var i := IndexOf(s, sep);
    if i == |s| then [s] else [s[..i]] + SplitAll(s[i + 1..], sep)
  }

  lemma SplitAllStep(line: string, sep: char, rest: string)
    requires sep !in line
    ensures SplitAll(line, sep) == [line]
    ensures SplitAll(line + [sep] + rest, sep) == [line] + SplitAll(rest, sep)
  {
    var s := line + [sep] + rest;
    assert line == line + "";
    IndexOfSkips(line, sep, "");
    assert s == line + ([sep] + rest);
    IndexOfSkips(line, sep, [sep] + rest);
    assert s[..|line|] == line && s[|line| + 1..] == rest;
  }

  lemma {:induction false} PiecesHaveNoSeparator(s: string, sep: char)
    ensures forall i | 0 <= i < |SplitAll(s, sep)| :: sep !in SplitAll(s, sep)[i]
    decreases |s|
  {
    var i := IndexOf(s, sep);
    if i < |s| {
      PiecesHaveNoSeparator(s[i + 1..], sep);
    }
  }

  /** Each line followed by a newline. */
  function Lines(ls: seq<string>): string
  {
    if ls == [] then "" else ls[0] + "\n" + Lines(ls[1..])
  }

  lemma LinesCons(l: string, ls: seq<string>)
    ensures Lines([l] + ls) == l + "\n" + Lines(ls)
  {
    assert ([l] + ls)[1..] == ls;
  }

  lemma LinesOne(l: string)
    ensures Lines([l]) == l + "\n"
  {
    assert [l] == [l] + [];
    LinesCons(l, []);
  }

  lemma {:induction false} LinesAppend(a: seq<string>, b: seq<string>)
    ensures Lines(a + b) == Lines(a) + Lines(b)
  {
    if a == [] {
      assert a + b == b;
    } else {
      assert (a + b)[1..] == a[1..] + b;
      LinesAppend(a[1..], b);
    }
  }

  /** Splitting undoes `Lines`: what follows the last newline is the last piece. */
  lemma {:induction false} SplitLines(ls: seq<string>, rest: string)
    requires forall i | 0 <= i < |ls| :: '\n' !in ls[i]
    ensures SplitAll(Lines(ls) + rest, '\n') == ls + SplitAll(rest, '\n')
  {
    hide SplitAll;
    if ls == [] {
      assert Lines(ls) + rest == rest;
    } else {
      var first, more := ls[0], ls[1..];
      var tail := Lines(more) + rest;
      Assoc(first + "\n", Lines(more), rest);
      SplitAllStep(first, '\n', tail);
      SplitLines(more, rest);
      Assoc([first], more, SplitAll(rest, '\n'));
      assert [first] + more == ls;
    }
  }

  lemma {:induction false} LinesOfSplit(s: string)
    ensures Lines(SplitAll(s, '\n')) == s + "\n"
    decreases |s|
  {
    var i := IndexOf(s, '\n');
    if i == |s| {
      LinesOne(s);
    } else {
      var tail := s[i + 1..];
      LinesOfSplit(tail);
      LinesCons(s[..i], SplitAll(tail, '\n'));
      assert s == s[..i] + "\n" + tail;
    }
  }

  function DropTrailingEmpty(pieces: seq<string>): (r: seq<string>)
    ensures r <= pieces
    ensures r != [] ==> r[|r| - 1] != ""
  {
    if pieces != [] && pieces[|pieces| - 1] == "" then DropTrailingEmpty(pieces[..|pieces| - 1]) else pieces
  }

  /** `String.split` with a one-character pattern and no limit. */
  function JavaSplit(s: string, sep: char): (pieces: seq<string>)
  {
    if sep !in s then [s] else DropTrailingEmpty(SplitAll(s, sep))
  }

  predicate Blank(c: char) { c <= ' ' }

  function TrimLeft(s: string): (r: string)
    ensures r != "" ==> !Blank(r[0])
    ensures forall c <- r :: c in s
  {
    if s != "" && Blank(s[0]) then TrimLeft(s[1..]) else s
  }

  function TrimRight(s: string): (r: string)
    ensures r <= s
    ensures r != "" ==> !Blank(r[|r| - 1])
  {
    if s != "" && Blank(s[|s| - 1]) then TrimRight(s[..|s| - 1]) else s
  }

  /** `String.trim`. */
  function Trim(s: string): (r: string)
    ensures forall c <- r :: c in s
    ensures Trimmed(r)
  {
    TrimRight(TrimLeft(s))
  }

  predicate Trimmed(s: string)
  {
    s != "" ==> !Blank(s[0]) && !Blank(s[|s| - 1])
  }

  /** Trimming an already trimmed text that has blanks put around it gives the text back. */
  lemma {:induction false} TrimPadded(left: string, s: string, right: string)
    requires Trimmed(s)
    requires forall c <- left + right :: Blank(c)
    ensures Trim(left + s + right) == s
    decreases |left| + |right|
  {
    if left != "" {
      assert (left + s + right)[1..] == left[1..] + s + right;
      assert Blank((left + right)[0]);
      forall c | c in left[1..] + right ensures Blank(c) { assert c in left + right; }
      TrimPadded(left[1..], s, right);
    } else if s == "" {
      assert left + s + right == right;
      BlankTrims(right);
    } else {
      assert left + s + right == s + right;
      assert (s + right)[0] == s[0];
      TrimRightPadded(s, right);
    }
  }

  lemma {:induction false} BlankTrims(s: string)
    requires forall c <- s :: Blank(c)
    ensures TrimLeft(s) == ""
  {
    if s != "" {
      BlankTrims(s[1..]);
    }
  }

  lemma {:induction false} TrimRightPadded(s: string, right: string)
    requires s != "" && !Blank(s[|s| - 1])
    requires forall c <- right :: Blank(c)
    ensures TrimRight(s + right) == s
  {
    if right == "" {
      assert s + right == s;
    } else {
      assert (s + right)[|s + right| - 1] == right[|right| - 1];
      assert (s + right)[..|s + right| - 1] == s + right[..|right| - 1];
      TrimRightPadded(s, right[..|right| - 1]);
    }
  }
}
