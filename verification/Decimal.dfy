/** Decimal texts of integers: Java's and C++'s printing, `Integer.parseInt` and `std::stol`. */
module Decimal {
  import opened Text

  const MIN_INT := -0x8000_0000
  const MAX_INT := 0x7fff_ffff

  predicate IsInt(n: int) { MIN_INT <= n <= MAX_INT }

  /** Addition of one on 32 bits. */
  function Incremented(n: int): (r: int)
    ensures IsInt(n) ==> IsInt(r)
    ensures n != MAX_INT ==> r == n + 1
  {
    if n == MAX_INT then MIN_INT else n + 1
  }

  predicate IsDigit(c: char) { '0' <= c <= '9' }

  predicate AllDigits(s: string) { forall i | 0 <= i < |s| :: IsDigit(s[i]) }

  function Digit(n: nat): (c: char)
    requires n < 10
    ensures IsDigit(c) && c as int == n + 48
  {
    (n + 48) as char
  }

  function Digits(n: nat): (s: string)
    ensures s != "" && AllDigits(s)
  {
    if n < 10 then [Digit(n)] else Digits(n / 10) + [Digit(n % 10)]
  }

  function ToDecimal(n: int): (s: string)
    ensures s != ""
  {
    if n < 0 then "-" + Digits(-n) else Digits(n)
  }

  function Value(s: string): nat
    requires AllDigits(s)
  {
    if s == "" then 0 else Value(s[..|s| - 1]) * 10 + (s[|s| - 1] as int - 48)
  }

  /** `Integer.parseInt`; None is the NumberFormatException. */
  function ParseInt(s: string): (r: Option<int>)
    ensures r.Some? ==> IsInt(r.value)
  {
    if s == "" then None else
    var signed := s[0] == '-' || s[0] == '+';
    var digits := if signed then s[1..] else s;
    if digits == "" || !AllDigits(digits) then None else
    var magnitude: int := Value(digits);
    var v := if s[0] == '-' then -magnitude else magnitude;
    if IsInt(v) then Some(v) else None
  }

  lemma {:induction false} ValueOfDigits(n: nat)
    ensures Value(Digits(n)) == n
  {
    if n >= 10 {
      ValueOfDigits(n / 10);
      assert Digits(n)[..|Digits(n)| - 1] == Digits(n / 10);
    } else {
      assert [Digit(n)][..0] == "";
    }
  }

  /** Parsing undoes printing, exactly for the integers that fit. */
  lemma ParsePrinted(n: int)
    ensures ParseInt(ToDecimal(n)) == if IsInt(n) then Some(n) else None
  {
    ValueOfDigits(if n < 0 then -n else n);
    if n < 0 {
      assert ToDecimal(n)[1..] == Digits(-n);
    } else {
      assert IsDigit(ToDecimal(n)[0]);
    }
  }

  // ------------------------------------------------------------------ which texts denote an integer

  function Zeros(n: nat): (s: string)
    ensures |s| == n && forall i | 0 <= i < n :: s[i] == '0'
  {
    seq(n, _ => '0')
  }

  function Signed(sign: string, magnitude: int): int { if sign == "-" then -magnitude else magnitude }

  /** A sign or none, any number of zeros, and the digits of the magnitude. */
  ghost predicate Denotes(s: string, n: int)
  {
    exists sign, zeros: nat, m: nat ::
      (sign == "" || sign == "+" || sign == "-") && s == sign + (Zeros(zeros) + Digits(m)) && n == Signed(sign, m)
  }

  lemma {:induction false} ValueAfterZeros(zeros: nat, s: string)
    requires AllDigits(s)
    ensures AllDigits(Zeros(zeros) + s) && Value(Zeros(zeros) + s) == Value(s)
    decreases |s|, zeros
  {
    var t := Zeros(zeros) + s;
    if s != "" {
      ValueAfterZeros(zeros, s[..|s| - 1]);
      assert t[..|t| - 1] == Zeros(zeros) + s[..|s| - 1];
    } else if zeros > 0 {
      ValueAfterZeros(zeros - 1, s);
      assert t[..|t| - 1] == Zeros(zeros - 1) + s;
    }
  }

  lemma {:induction false} DigitsWithZeros(s: string) returns (zeros: nat)
    requires AllDigits(s) && s != ""
    ensures s == Zeros(zeros) + Digits(Value(s))
  {
    var front, last := s[..|s| - 1], s[|s| - 1];
    assert s == front + [last];
    if front == "" {
      zeros := 0;
      assert Digits(Value(s)) == [last];
    } else {
      zeros := DigitsWithZeros(front);
      if Value(front) == 0 {
        zeros := zeros + 1;
        assert front == Zeros(zeros);
      } else {
        assert Digits(Value(s)) == Digits(Value(front)) + [last];
      }
    }
  }

  /** `Integer.parseInt` accepts exactly the texts that denote a 32-bit integer, and returns that. */
  lemma ParseIntIff(s: string, n: int)
    ensures ParseInt(s) == Some(n) <==> IsInt(n) && Denotes(s, n)
  {
    hide Digits, Value;
    if ParseInt(s) == Some(n) {
      var sign := if s[0] == '-' then "-" else if s[0] == '+' then "+" else "";
      var digits := s[|sign|..];
      assert s == sign + digits;
      assert sign == "" ==> digits == s;
      var zeros := DigitsWithZeros(digits);
      var m: nat := Value(digits);
      assert n == Signed(sign, m);
      assert s == sign + (Zeros(zeros) + Digits(m));
    }
    if IsInt(n) && Denotes(s, n) {
      var sign, zeros: nat, m: nat :|
        (sign == "" || sign == "+" || sign == "-") && s == sign + (Zeros(zeros) + Digits(m)) && n == Signed(sign, m);
      ValueAfterZeros(zeros, Digits(m));
      ValueOfDigits(m);
      var digits := Zeros(zeros) + Digits(m);
      assert s[|sign|..] == digits;
      assert IsDigit(digits[0]);
    }
  }

  lemma DigitsInjective(m: nat, n: nat)
    requires Digits(m) == Digits(n)
    ensures m == n
  {
    ValueOfDigits(m);
    ValueOfDigits(n);
  }

  /** Different integers are printed differently. */
  lemma PrintedApart(m: int, n: int)
    ensures ToDecimal(m) == ToDecimal(n) <==> m == n
  {
    hide Digits;
    if ToDecimal(m) == ToDecimal(n) {
      assert IsDigit(Digits(if m < 0 then -m else m)[0]) && IsDigit(Digits(if n < 0 then -n else n)[0]);
      if m < 0 && n < 0 {
        assert ToDecimal(m)[1..] == Digits(-m) && ToDecimal(n)[1..] == Digits(-n);
        DigitsInjective(-m, -n);
      } else if m >= 0 && n >= 0 {
        DigitsInjective(m, n);
      }
    }
  }

  lemma PrintedCharacters(n: int)
    ensures forall c <- ToDecimal(n) :: IsDigit(c) || c == '-'
  {
  }

  // ------------------------------------------------------------------ std::stol

  predicate IsSpace(c: char) { c == ' ' || '\t' <= c <= '\r' }

  function SkipSpaces(s: string): string
  {
    if s != "" && IsSpace(s[0]) then SkipSpaces(s[1..]) else s
  }

  function LeadingDigits(s: string): (r: string)
    ensures AllDigits(r)
  {
    if s != "" && IsDigit(s[0]) then [s[0]] + LeadingDigits(s[1..]) else ""
  }

  const MIN_LONG := -0x8000_0000_0000_0000
  const MAX_LONG := 0x7fff_ffff_ffff_ffff

  /** `std::stol` on 64-bit longs; None is its exception. What follows the number is ignored. */
  function Stol(s: string): Option<int>
  {
    var t := SkipSpaces(s);
    var signed := t != "" && (t[0] == '-' || t[0] == '+');
    var digits := LeadingDigits(if signed then t[1..] else t);
    if digits == "" then None else
    var magnitude: int := Value(digits);
    var v := if t[0] == '-' then -magnitude else magnitude;
    if MIN_LONG <= v <= MAX_LONG then Some(v) else None
  }

  lemma {:induction false} AllLeading(s: string)
    requires AllDigits(s)
    ensures LeadingDigits(s) == s
  {
    if s != "" {
      AllLeading(s[1..]);
    }
  }

  lemma StolPrinted(n: int)
    requires MIN_LONG <= n <= MAX_LONG
    ensures Stol(ToDecimal(n)) == Some(n)
  {
    hide Digits, Value, LeadingDigits;
    var digits := Digits(if n < 0 then -n else n);
    ValueOfDigits(if n < 0 then -n else n);
    AllLeading(digits);
    assert SkipSpaces(ToDecimal(n)) == ToDecimal(n);
    if n < 0 {
      assert ToDecimal(n)[1..] == digits;
    } else {
      assert IsDigit(ToDecimal(n)[0]);
    }
  }

  lemma {:induction false} SplitSpaces(s: string) returns (spaces: string)
    ensures s == spaces + SkipSpaces(s) && forall c <- spaces :: IsSpace(c)
    ensures SkipSpaces(s) != "" ==> !IsSpace(SkipSpaces(s)[0])
  {
    if s != "" && IsSpace(s[0]) {
      var more := SplitSpaces(s[1..]);
      spaces := [s[0]] + more;
      assert s == [s[0]] + s[1..];
    } else {
      spaces := "";
    }
  }

  lemma {:induction false} SkipThem(spaces: string, t: string)
    requires (forall c <- spaces :: IsSpace(c)) && (t != "" ==> !IsSpace(t[0]))
    ensures SkipSpaces(spaces + t) == t
  {
    if spaces == "" {
      assert spaces + t == t;
    } else {
      assert spaces[0] in spaces && (spaces + t)[1..] == spaces[1..] + t;
      SkipThem(spaces[1..], t);
    }
  }

  lemma {:induction false} SplitDigits(s: string) returns (rest: string)
    ensures s == LeadingDigits(s) + rest && NoDigitFirst(rest)
  {
    if s != "" && IsDigit(s[0]) {
      rest := SplitDigits(s[1..]);
      assert s == [s[0]] + s[1..];
    } else {
      rest := s;
    }
  }

  predicate NoDigitFirst(rest: string) { rest != "" ==> !IsDigit(rest[0]) }

  lemma {:induction false} LeadThem(digits: string, rest: string)
    requires AllDigits(digits) && NoDigitFirst(rest)
    ensures LeadingDigits(digits + rest) == digits
  {
    if digits == "" {
      assert digits + rest == rest;
    } else {
      assert (digits + rest)[1..] == digits[1..] + rest;
      LeadThem(digits[1..], rest);
    }
  }

  /** White space, then what denotes an integer, then anything that does not go on with a digit. */
  ghost predicate StartsWith(s: string, n: int)
  {
    exists spaces, sign, zeros: nat, m: nat, rest ::
      && (forall c <- spaces :: IsSpace(c)) && (sign == "" || sign == "+" || sign == "-") && NoDigitFirst(rest)
      && s == spaces + (sign + (Zeros(zeros) + Digits(m) + rest)) && n == Signed(sign, m)
  }

  /** `std::stol` reads exactly the texts that start with a 64-bit integer, and returns that. */
  lemma StolIff(s: string, n: int)
    ensures Stol(s) == Some(n) <==> MIN_LONG <= n <= MAX_LONG && StartsWith(s, n)
  {
    hide StartsWith;
    if Stol(s) == Some(n) { StolStarts(s, n); }
    if MIN_LONG <= n <= MAX_LONG && StartsWith(s, n) { StartsStol(s, n); }
  }

  lemma StolStarts(s: string, n: int)
    requires Stol(s) == Some(n)
    ensures MIN_LONG <= n <= MAX_LONG && StartsWith(s, n)
  {
    hide Digits, Value, LeadingDigits, SkipSpaces;
    var spaces := SplitSpaces(s);
    var t := SkipSpaces(s);
    var sign := if t != "" && t[0] == '-' then "-" else if t != "" && t[0] == '+' then "+" else "";
    var u := t[|sign|..];
    assert t == sign + u;
    assert sign == "" ==> u == t;
    var rest := SplitDigits(u);
    var zeros := DigitsWithZeros(LeadingDigits(u));
    var m: nat := Value(LeadingDigits(u));
    assert n == Signed(sign, m);
    assert s == spaces + (sign + (Zeros(zeros) + Digits(m) + rest));
  }

  lemma StartsStol(s: string, n: int)
    requires MIN_LONG <= n <= MAX_LONG && StartsWith(s, n)
    ensures Stol(s) == Some(n)
  {
    hide Digits, Value, LeadingDigits, SkipSpaces;
    var spaces, sign, zeros: nat, m: nat, rest :|
      && (forall c <- spaces :: IsSpace(c)) && (sign == "" || sign == "+" || sign == "-") && NoDigitFirst(rest)
      && s == spaces + (sign + (Zeros(zeros) + Digits(m) + rest)) && n == Signed(sign, m);
    var digits := Zeros(zeros) + Digits(m);
    ValueAfterZeros(zeros, Digits(m));
    ValueOfDigits(m);
    var t := sign + (digits + rest);
    assert t[|sign|..] == digits + rest;
    assert IsDigit(digits[0]) && (digits + rest)[0] == digits[0];
    SkipThem(spaces, t);
    LeadThem(digits, rest);
  }
}
