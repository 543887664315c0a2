/** atoi and strtoi of shared/src/stdlib.c, against the mathematical value of what they read. */
module Parsing {
  import opened Machine
  import opened Numbers

  /** A string as the callee gets it: characters up to a NUL, and perhaps more behind it. */
  predicate Terminated(s: string) {
    NUL in s
  }

  lemma EndsLater(s: string, i: int)
    requires Terminated(s) && 0 <= i < |s| && s[i] != NUL && forall j :: 0 <= j < i ==> s[j] != NUL
    ensures i + 1 < |s|
  {
    var k :| 0 <= k < |s| && s[k] == NUL;
  }

  /** No NUL before position i: the string reaches at least that far. */
  predicate Reaches(s: string, i: int) {
    0 <= i < |s| && forall j :: 0 <= j < i ==> s[j] != NUL
  }

  // ---------------------------------------------------------------- runs of characters

  /** The length of the longest prefix of digits of the base. */
  function DigitRun(s: string, base: int): (n: nat)
    ensures n <= |s| && AllDigits(s[..n], base) && (n < |s| ==> !(0 <= DigitOf(s[n]) < base))
  {
    if s == [] || !(0 <= DigitOf(s[0]) < base) then 0
    else
      assert s == [s[0]] + s[1..];
      1 + DigitRun(s[1..], base)
  }

  lemma {:induction false} DigitRunIs(s: string, base: int, n: nat)
    requires n <= |s| && AllDigits(s[..n], base) && (n < |s| ==> !(0 <= DigitOf(s[n]) < base))
    ensures DigitRun(s, base) == n
  {
    if n > 0 {
      assert s[..n][0] == s[0];
      assert s[1..][..n - 1] == s[..n][1..];
      DigitRunIs(s[1..], base, n - 1);
    }
  }

  /** The number of spaces at the front. */
  function Blanks(s: string): (n: nat)
    ensures n <= |s| && (forall i :: 0 <= i < n ==> s[i] == ' ') && (n < |s| ==> s[n] != ' ')
  {
    if s == [] || s[0] != ' ' then 0 else 1 + Blanks(s[1..])
  }

  predicate IsSpace(c: char) {
    c == ' ' || c == '\t' || c == '\n' || c == '\r' || c == '\U{B}' || c == '\U{C}'
  }

  function Spaces(s: string): (n: nat)
    ensures n <= |s| && (forall i :: 0 <= i < n ==> IsSpace(s[i])) && (n < |s| ==> !IsSpace(s[n]))
  {
    if s == [] || !IsSpace(s[0]) then 0 else 1 + Spaces(s[1..])
  }

  predicate SignAt(s: string, i: int) {
    0 <= i < |s| && (s[i] == '-' || s[i] == '+')
  }

  function SignOf(s: string, i: int): int {
    if SignAt(s, i) && s[i] == '-' then -1 else 1
  }

  function AfterSign(s: string, i: int): int {
    if SignAt(s, i) then i + 1 else i
  }

  // ---------------------------------------------------------------- values

  lemma ValSplit(s: string, base: int)
    requires s != [] && AllDigits(s, base)
    ensures AllDigits(s[..|s| - 1], base) && 0 <= DigitOf(s[|s| - 1]) < base
    ensures Val(s, base) == Val(s[..|s| - 1], base) * base + DigitOf(s[|s| - 1])
  {
  }

  lemma {:induction false} ValBound(s: string, base: int)
    requires 0 <= base && AllDigits(s, base)
    ensures Val(s, base) >= 0
  {
    if s != [] {
      ValSplit(s, base);
      ValBound(s[..|s| - 1], base);
      hide Val, DigitOf, AllDigits;
      Monotone(0, Val(s[..|s| - 1], base), base);
    }
  }

  /** More digits do not make the value smaller. */
  lemma {:induction false} ValGrows(s: string, k: nat, base: int)
    requires 1 <= base && AllDigits(s, base) && k <= |s|
    ensures Val(s[..k], base) <= Val(s, base)
  {
    hide DigitOf;
    if k == |s| {
      assert s[..k] == s;
    } else {
      var t := s[..|s| - 1];
      ValSplit(s, base);
      assert t[..k] == s[..k];
      ValGrows(t, k, base);
      ValBound(t, base);
      hide Val, AllDigits;
      Monotone(1, base, Val(t, base));
    }
  }

  /** The nearest int32_t. */
  function Clamp(x: int): int {
    if x > INT_MAX then INT_MAX else if x < INT_MIN then INT_MIN else x
  }

  /** The number a string denotes for atoi: spaces, a sign, decimal digits, anything. */
  function AtoiValue(s: string): int {
    var i := AfterSign(s, Blanks(s));
    if i <= |s| then SignOf(s, Blanks(s)) * Val(s[i..i + DigitRun(s[i..], 10)], 10) else 0
  }

  /** Line 104: one more digit would leave the range. */
  lemma Overflows(acc: int, digit: int)
    requires 0 <= acc <= INT_MAX && 0 <= digit < 10
    ensures acc > INT_MAX / 10 || (acc == INT_MAX / 10 && digit > 7) <==> acc * 10 + digit > INT_MAX
  {
  }

  /** atoi: the number denoted, clamped to the range of int32_t. */
  method Atoi(s: string) returns (r: int)
    requires Terminated(s)
    ensures r == Clamp(AtoiValue(s))
  {
    hide DigitOf, DigitRun, AllDigits, Val, Blanks, Terminated, Reaches;
    var i := 0;
    ghost var skip := Blanks(s);
    BlanksReach(s);
    while s[i] == ' '
      invariant 0 <= i <= skip && skip < |s| && s[skip] != ' '
      decreases skip - i
    {
      i := i + 1;
    }
    var sign := 1;
    if s[i] == '-' || s[i] == '+' {
      sign := if s[i] == '-' then -1 else 1;
      ReachesNext(s, i);
      i := i + 1;
    }
    ghost var from, run := i, DigitRun(s[i..], 10);
    RunInside(s, from, 10);
    ValEmpty(s, from, 10);
    var base := 0;
    while '0' <= s[i] <= '9'
      invariant from <= i <= from + run && i < |s| && Reaches(s, i) && 0 <= base <= INT_MAX && base == Val(s[from..i], 10)
      decreases from + run - i
    {
      var digit := s[i] as int - '0' as int;
      InRun(s, from, run, i);
      ValNext(s, from, i, 10);
      Overflows(base, digit);
      if base > INT_MAX / 10 || (base == INT_MAX / 10 && digit > 7) {
        RunGrows(s, from, run, i + 1);
        if sign == 1 {
          return INT_MAX;
        } else {
          return INT_MIN;
        }
      }
      ReachesNext(s, i);
      base := 10 * base + digit;
      i := i + 1;
    }
    RunEnds(s, from, run, i);
    r := base * sign;
  }

  lemma ReachesNext(s: string, i: int)
    requires Terminated(s) && Reaches(s, i) && 0 <= i < |s| && s[i] != NUL
    ensures i + 1 < |s| && Reaches(s, i + 1)
  {
    EndsLater(s, i);
  }

  lemma RunInside(s: string, from: nat, base: int)
    requires from <= |s|
    ensures from + DigitRun(s[from..], base) <= |s|
  {
  }

  lemma ValEmpty(s: string, from: nat, base: int)
    requires from <= |s|
    ensures Val(s[from..from], base) == 0
  {
  }

  lemma ValNext(s: string, from: nat, i: nat, base: int)
    requires from <= i < |s|
    ensures Val(s[from..i + 1], base) == Val(s[from..i], base) * base + DigitOf(s[i])
  {
    ValAppend(s[from..i], s[i], base);
    assert s[from..i] + [s[i]] == s[from..i + 1];
  }

  lemma RunGrows(s: string, from: nat, run: nat, i: nat)
    requires from <= |s| && run == DigitRun(s[from..], 10) && from <= i <= from + run
    ensures from + run <= |s| && Val(s[from..i], 10) <= Val(s[from..from + run], 10)
  {
    var digits := s[from..][..run];
    assert digits == s[from..from + run];
    assert digits[..i - from] == s[from..i];
    hide Val;
    ValGrows(digits, i - from, 10);
  }

  lemma BlanksReach(s: string)
    requires Terminated(s)
    ensures Reaches(s, Blanks(s)) && s[Blanks(s)] != ' ' && forall j :: 0 <= j < Blanks(s) ==> s[j] == ' '
    ensures Blanks(s) < |s| && forall j :: 0 <= j <= Blanks(s) ==> Reaches(s, j)
  {
    var k :| 0 <= k < |s| && s[k] == NUL;
  }

  lemma InRun(s: string, from: nat, run: nat, i: int)
    requires from <= i < |s| && from <= |s| && run == DigitRun(s[from..], 10) && i <= from + run && '0' <= s[i] <= '9'
    ensures i < from + run && DigitOf(s[i]) == s[i] as int - '0' as int
  {
    assert s[from..][i - from] == s[i];
  }

  lemma RunEnds(s: string, from: nat, run: nat, i: int)
    requires from <= i < |s| && run == DigitRun(s[from..], 10) && i <= from + run && !('0' <= s[i] <= '9')
    ensures i == from + run
  {
    forall j | from <= j < from + run ensures 0 <= DigitOf(s[j]) < 10 {
      assert s[from..][..run][j - from] == s[j];
    }
  }

  // ---------------------------------------------------------------- strtoi

  /** What strtoi makes of the prefix at i: the base to read in and where the digits start. */
  function BaseAt(s: string, i: int, base: int): (int, int) {
    var zero := 0 <= i < |s| && s[i] == '0';
    var x := 0 <= i && i + 1 < |s| && (s[i + 1] == 'x' || s[i + 1] == 'X');
    if base == 0 then (if zero then (if x then (16, i + 2) else (8, i + 1)) else (10, i))
    else if base == 16 && zero && x then (16, i + 2)
    else (base, i)
  }

  datatype Source = Null | Text(chars: string)

  datatype Parsed = Parsed(value: int, end: int)

  /** The number strtoi reads and where it stops, the arithmetic unbounded. */
  function StrtoiValue(s: string, base: int): Parsed {
    var i := AfterSign(s, Spaces(s));
    var (b, from) := BaseAt(s, i, base);
    if 0 <= from <= |s| then
      var n := DigitRun(s[from..], b);
      Parsed(SignOf(s, Spaces(s)) * Val(s[from..from + n], b), from + n)
    else Parsed(0, from)
  }

  lemma SpacesReach(s: string)
    requires Terminated(s)
    ensures Spaces(s) < |s| && (forall j :: 0 <= j <= Spaces(s) ==> Reaches(s, j)) && !IsSpace(s[Spaces(s)]) && forall j :: 0 <= j < Spaces(s) ==> IsSpace(s[j])
  {
    var k :| 0 <= k < |s| && s[k] == NUL;
  }

  /** Reducing before a multiplication by a constant and an addition makes no difference afterwards. */
  lemma WrapStep(x: int, base: int, d: int)
    ensures Wrap32(Wrap32(x) * base + d) == Wrap32(x * base + d)
  {
    var k := (Wrap32(x) - x) / TWO32;
    Wrap32Is(x);
    assert Wrap32(x) == x + k * TWO32;
    var m := k * base;
    assert Wrap32(x) * base + d == x * base + d + m * TWO32;
    WrapShift(x * base + d, m);
  }

  lemma Wrap32Is(x: int)
    ensures Wrap32(x) == x + (Wrap32(x) - x) / TWO32 * TWO32
  {
  }

  lemma WrapShift(x: int, m: int)
    ensures Wrap32(x + m * TWO32) == Wrap32(x)
  {
  }

  lemma DigitInRun(s: string, from: nat, run: nat, i: int, base: int)
    requires from <= i < |s| && from <= |s| && run == DigitRun(s[from..], base) && i <= from + run
    ensures i < from + run <==> 0 <= DigitOf(s[i]) < base
  {
    assert i < from + run ==> s[from..][..run][i - from] == s[i];
    assert s[from..][i - from] == s[i];
  }

  lemma DigitNotNul(c: char)
    requires 0 <= DigitOf(c)
    ensures c != NUL
  {
  }

  /**
   strtoi: the number read, reduced to 32 bits, and where reading stopped. The signed multiplications
   are taken to wrap around.
   */
  method Strtoi(str: Source, base: int) returns (r: int, end: int)
    requires str.Text? ==> Terminated(str.chars)
    ensures str.Null? ==> r == 0 && end == -1
    ensures str.Text? ==> var p := StrtoiValue(str.chars, base); r == Wrap32(p.value) && end == p.end && 0 <= end < |str.chars|
  {
    if str.Null? {
      return 0, -1;
    }
    hide DigitOf, DigitRun, AllDigits, Val, Spaces, Terminated, Reaches, Wrap32, StrtoiValue, SignOf, AfterSign, BaseAt;
    var s := str.chars;
    var sign, i := ReadSign(s);
    var b, from := Prefix(s, i, base);
    var result;
    result, end := ReadDigits(s, from, b);
    SignTimes(result, sign, Val(s[from..end], b));
    StrtoiIs(s, base, sign, i, b, from, end);
    r := Wrap32(result * sign);
  }

  lemma StrtoiIs(s: string, base: int, sign: int, i: int, b: int, from: nat, end: int)
    requires sign == SignOf(s, Spaces(s)) && i == AfterSign(s, Spaces(s)) && (b, from) == BaseAt(s, i, base)
    requires from <= |s| && end == from + DigitRun(s[from..], b)
    ensures from <= end <= |s| && StrtoiValue(s, base) == Parsed(sign * Val(s[from..end], b), end)
  {
    hide DigitRun, Val, Spaces, SignOf, AfterSign, BaseAt;
  }

  /** Lines 145-154. */
  method ReadSign(s: string) returns (sign: int, i: int)
    requires Terminated(s)
    ensures sign == SignOf(s, Spaces(s)) && i == AfterSign(s, Spaces(s)) && 0 <= i < |s| && Reaches(s, i)
  {
    hide Spaces, Terminated, Reaches, IsSpace;
    SpacesReach(s);
    ghost var skip := Spaces(s);
    i := 0;
    while IsSpace(s[i])
      invariant 0 <= i <= skip && skip < |s| && !IsSpace(s[skip])
      decreases skip - i
    {
      i := i + 1;
    }
    sign := 1;
    if s[i] == '+' || s[i] == '-' {
      if s[i] == '-' {
        sign := -1;
      }
      ReachesNext(s, i);
      i := i + 1;
    }
  }

  lemma SignTimes(result: int, sign: int, value: int)
    requires result == Wrap32(value)
    ensures Wrap32(result * sign) == Wrap32(sign * value)
  {
    WrapStep(value, sign, 0);
    assert value * sign == sign * value;
  }

  /** Lines 172-186. */
  method ReadDigits(s: string, from: int, b: int) returns (result: int, i: int)
    requires Terminated(s) && 0 <= from < |s| && Reaches(s, from)
    ensures i == from + DigitRun(s[from..], b) && i < |s| && result == Wrap32(Val(s[from..i], b))
  {
    hide DigitOf, DigitRun, AllDigits, Val, Terminated, Reaches, Wrap32;
    ghost var run := DigitRun(s[from..], b);
    i := from;
    ValEmpty(s, from, b);
    WrapSmall(0);
    result := 0;
    DigitInRun(s, from, run, i, b);
    while DigitOf(s[i]) >= 0
      invariant from <= i <= from + run && i < |s| && Reaches(s, i) && result == Wrap32(Val(s[from..i], b))
      invariant i < from + run <==> 0 <= DigitOf(s[i]) < b
      decreases from + run - i
    {
      var digit := DigitOf(s[i]);
      if digit >= b {
        break;
      }
      DigitNotNul(s[i]);
      ValNext(s, from, i, b);
      WrapStep(Val(s[from..i], b), b, digit);
      ReachesNext(s, i);
      result := Wrap32(result * b + digit);
      i := i + 1;
      DigitInRun(s, from, run, i, b);
    }
  }

  lemma WrapSmall(x: int)
    requires Int32(x)
    ensures Wrap32(x) == x
  {
  }

  /** Lines 156-170. */
  method Prefix(s: string, i: int, base: int) returns (b: int, from: int)
    requires Terminated(s) && 0 <= i < |s| && Reaches(s, i)
    ensures (b, from) == BaseAt(s, i, base) && i <= from < |s| && Reaches(s, from)
  {
    hide Terminated, Reaches;
    b, from := base, i;
    if s[i] == '0' {
      ReachesNext(s, i);
    }
    if base == 0 {
      if s[i] == '0' {
        if s[i + 1] == 'x' || s[i + 1] == 'X' {
          ReachesNext(s, i + 1);
          b, from := 16, i + 2;
        } else {
          b, from := 8, i + 1;
        }
      } else {
        b := 10;
      }
    } else if base == 16 {
      if s[i] == '0' && (s[i + 1] == 'x' || s[i + 1] == 'X') {
        ReachesNext(s, i + 1);
        from := i + 2;
      }
    }
  }

  // ---------------------------------------------------------------- reading back what itoa wrote

  lemma NumeralStart(u: nat, base: int, rest: string)
    requires 2 <= base <= 16
    ensures var s := Numeral(u, base) + [NUL] + rest;
            && Terminated(s) && Spaces(s) == 0 && Blanks(s) == 0 && !SignAt(s, 0) && BaseAt(s, 0, base) == (base, 0)
            && DigitRun(s, base) == |Numeral(u, base)|
  {
    hide Numeral, DigitRun, Spaces, Blanks, BaseAt, SignAt, Terminated, AllDigits;
    NumeralReads(u, base);
    DigitsStart(Numeral(u, base), base, rest);
    DigitsEnd(Numeral(u, base), base, rest);
  }

  /** A string that starts with digits has no spaces, sign or prefix in front. */
  lemma DigitsStart(t: string, base: int, rest: string)
    requires 2 <= base <= 16 && t != [] && AllDigits(t, base)
    ensures var s := t + [NUL] + rest;
            Terminated(s) && Spaces(s) == 0 && Blanks(s) == 0 && !SignAt(s, 0) && BaseAt(s, 0, base) == (base, 0)
  {
    var s := t + [NUL] + rest;
    assert s[|t|] == NUL && 0 <= DigitOf(s[0]);
    assert |t| > 1 ==> 0 <= DigitOf(s[1]) && s[1] == t[1];
  }

  lemma DigitsEnd(t: string, base: int, rest: string)
    requires 2 <= base <= 16 && AllDigits(t, base)
    ensures DigitRun(t + [NUL] + rest, base) == |t|
  {
    var s := t + [NUL] + rest;
    assert s[|t|] == NUL;
    assert s[..|t|] == t;
    DigitRunIs(s, base, |t|);
  }

  lemma PlainValue(s: string, base: int)
    requires Spaces(s) == 0 && !SignAt(s, 0) && BaseAt(s, 0, base) == (base, 0)
    ensures StrtoiValue(s, base) == Parsed(Val(s[..DigitRun(s, base)], base), DigitRun(s, base))
  {
    var n := DigitRun(s, base);
    hide DigitRun, Val, Spaces, BaseAt;
    assert s[0..] == s && s[0..n] == s[..n];
  }

  lemma WrapUnsigned(v: int)
    requires Int32(v)
    ensures Wrap32(Wrap(v)) == v && 0 <= Wrap(v) && (Wrap(v) > INT_MAX <==> v < 0) && (v >= 0 ==> Wrap(v) == v)
  {
  }

  /** strtoi reads back every int32_t that itoa wrote, in bases 2 to 16: the one ignores the sign, the other wraps. */
  lemma StrtoiReadsItoa(value: int, base: int, rest: string)
    requires Int32(value) && 2 <= base <= 16
    ensures var t := Numeral(Wrap(value), base);
            var p := StrtoiValue(t + [NUL] + rest, base);
            Wrap32(p.value) == value && p.end == |t| && (value >= 0 ==> p.value == value)
  {
    var t := Numeral(Wrap(value), base);
    var s := t + [NUL] + rest;
    NumeralStart(Wrap(value), base, rest);
    NumeralReads(Wrap(value), base);
    WrapUnsigned(value);
    hide Numeral, DigitRun, Val, Spaces, Wrap, Wrap32, StrtoiValue, BaseAt, SignAt;
    PlainValue(s, base);
    assert s[..|t|] == t;
  }

  /** atoi reads back exactly the values that are not negative; for the others it answers INT_MAX. */
  lemma AtoiReadsItoa(value: int, rest: string)
    requires Int32(value)
    ensures var s := Numeral(Wrap(value), 10) + [NUL] + rest;
            && Clamp(AtoiValue(s)) == (if value >= 0 then value else INT_MAX)
            && (Clamp(AtoiValue(s)) == value <==> value >= 0)
  {
    var t := Numeral(Wrap(value), 10);
    var s := t + [NUL] + rest;
    NumeralStart(Wrap(value), 10, rest);
    NumeralReads(Wrap(value), 10);
    WrapUnsigned(value);
    hide Numeral, DigitRun, Val, Blanks, Wrap;
    assert s[0..] == s && s[0..|t|] == t;
  }

  /** Write, then read: the methods end to end. */
  method WriteRead(buffer: array<char>, base: int, value: int) returns (r: int, end: int)
    requires 2 <= base <= 16 && Int32(value) && |Numeral(Wrap(value), base)| < buffer.Length
    modifies buffer
    ensures r == value && end == |Numeral(Wrap(value), base)|
  {
    hide Numeral, StrtoiValue;
    ghost var t := Numeral(Wrap(value), base);
    Itoa(buffer, base, value);
    assert buffer[..] == t + [NUL] + buffer[|t| + 1..];
    StrtoiReadsItoa(value, base, buffer[|t| + 1..]);
    assert buffer[|t|] == NUL;
    r, end := Strtoi(Text(buffer[..]), base);
  }
}
