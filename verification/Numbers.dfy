/** itoa, atoi and strtoi of shared/src/stdlib.c. A C string is an array of characters that ends at the first NUL. */
module Numbers {
  import opened Machine

  /** The string of digits in line 81, from its middle on. */
  const DIGITS := "0123456789abcdefghijklmnopqrstuvwxyz"

  predicate Int32(x: int) {
    INT_MIN <= x <= INT_MAX
  }

  /** The int32_t with the same low 32 bits. */
  function Wrap32(x: int): (r: int)
    ensures Int32(r)
  {
    if x % TWO32 > INT_MAX then x % TWO32 - TWO32 else x % TWO32
  }

  // ---------------------------------------------------------------- numerals

  /** Every digit of u in the given base has a character: always so in bases 2 to 36. In base 1 there is no numeral but that of 0. */
  predicate Spellable(u: nat, base: int): (yes: bool)
    requires 1 <= base
    ensures 2 <= base <= |DIGITS| ==> yes
    ensures base == 1 && yes ==> u == 0
  {
    if base == 1 then u == 0
    else
      DivFacts(u, base);
      u % base < |DIGITS| && (u < base || Spellable(u / base, base))
  }

  /** The numeral of u in the given base, most significant digit first. */
  function Numeral(u: nat, base: int): (s: string)
    requires 1 <= base && Spellable(u, base)
    ensures s != []
  {
    DivFacts(u, base);
    if u < base then [DIGITS[u]] else Numeral(u / base, base) + [DIGITS[u % base]]
  }

  /** The place of a character among the digits, -1 for any other character. */
  function PlaceOf(c: char): int {
    if '0' <= c <= '9' then c as int - '0' as int
    else if 'a' <= c <= 'z' then c as int - 'a' as int + 10
    else -1
  }

  lemma PlacesAre(c: char, d: int)
    requires 0 <= d < |DIGITS|
    ensures PlaceOf(c) == d <==> c == DIGITS[d]
  {
  }

  /** What a string of digits stands for in the given base. */
  function Denoted(s: string, base: int): int {
    if s == [] then 0 else Denoted(s[..|s| - 1], base) * base + PlaceOf(s[|s| - 1])
  }

  /** Digits below the base, at least one, and none 0 at the front of others. */
  predicate IsNumeral(s: string, base: int) {
    && s != [] && (|s| > 1 ==> s[0] != '0')
    && forall i :: 0 <= i < |s| ==> 0 <= PlaceOf(s[i]) < base
  }

  /** The numeral of u is a numeral, and stands for u. */
  lemma {:induction false} NumeralDenotes(u: nat, base: int)
    requires 1 <= base && Spellable(u, base)
    ensures IsNumeral(Numeral(u, base), base) && Denoted(Numeral(u, base), base) == u && (Numeral(u, base)[0] == '0' <==> u == 0)
    decreases u
  {
    NumeralStep(u, base);
    PlacesAre(DIGITS[u % base], u % base);
    PlacesAre(DIGITS[u % base], 0);
    if u / base != 0 {
      NumeralDenotes(u / base, base);
      hide Numeral, PlaceOf;
      assert Numeral(u, base)[..|Numeral(u, base)| - 1] == Numeral(u / base, base);
    } else {
      hide Numeral, PlaceOf;
      assert Numeral(u, base) == [DIGITS[u % base]];
      assert Denoted([], base) == 0;
    }
  }

  lemma OneDigit(d: int, base: int)
    requires 2 <= base <= |DIGITS| && 0 <= d < base
    ensures Numeral(d, base) == [DIGITS[d]]
  {
    NumeralStep(d, base);
  }

  /** No other numeral stands for it. */
  lemma {:induction false} NumeralUnique(s: string, base: int)
    requires 2 <= base <= |DIGITS| && IsNumeral(s, base)
    ensures 0 <= Denoted(s, base) && Numeral(Denoted(s, base), base) == s
  {
    if |s| == 1 {
      UniqueOne(s, base);
    } else {
      hide Numeral, Denoted, Spellable, IsNumeral;
      FrontNumeral(s, base);
      NumeralUnique(s[..|s| - 1], base);
      UniqueMore(s, base);
    }
  }

  lemma UniqueOne(s: string, base: int)
    requires 2 <= base <= |DIGITS| && IsNumeral(s, base) && |s| == 1
    ensures 0 <= Denoted(s, base) && Numeral(Denoted(s, base), base) == s
  {
    hide Numeral, Spellable, PlaceOf, Denoted;
    var d := PlaceOf(s[0]);
    PlacesAre(s[0], d);
    DenotedLast(s, base);
    OneDigit(d, base);
  }

  lemma UniqueMore(s: string, base: int)
    requires 2 <= base <= |DIGITS| && IsNumeral(s, base) && |s| > 1
    requires var front := s[..|s| - 1]; 0 <= Denoted(front, base) && Numeral(Denoted(front, base), base) == front && front[0] != '0'
    ensures 0 <= Denoted(s, base) && Numeral(Denoted(s, base), base) == s
  {
    hide Numeral, Spellable, PlaceOf, Denoted;
    var front, d := s[..|s| - 1], PlaceOf(s[|s| - 1]);
    PlacesAre(s[|s| - 1], d);
    DenotedLast(s, base);
    NumeralDenotes(Denoted(front, base), base);
    NextDigit(Denoted(front, base), d, base);
    assert s == front + [s[|s| - 1]];
  }

  lemma DenotedLast(s: string, base: int)
    requires s != []
    ensures var front, d := s[..|s| - 1], PlaceOf(s[|s| - 1]);
            Denoted(s, base) == Denoted(front, base) * base + d && (|s| == 1 ==> Denoted(front, base) == 0)
  {
  }

  lemma FrontNumeral(s: string, base: int)
    requires IsNumeral(s, base) && |s| > 1
    ensures IsNumeral(s[..|s| - 1], base) && s[..|s| - 1][0] != '0'
  {
    hide PlaceOf;
  }

  /** A digit behind the numeral of a number that is not 0. */
  lemma NextDigit(q: int, d: int, base: int)
    requires 2 <= base <= |DIGITS| && 0 <= d < base && 0 < q
    ensures 0 <= q * base + d && Numeral(q * base + d, base) == Numeral(q, base) + [DIGITS[d]]
  {
    hide Numeral, Spellable;
    ScaleFacts(q, d, base);
    NumeralStep(q * base + d, base);
  }

  /** The strings that are numerals of u are exactly the one itoa writes. */
  lemma NumeralExactly(s: string, u: nat, base: int)
    requires 2 <= base <= |DIGITS|
    ensures s == Numeral(u, base) <==> IsNumeral(s, base) && Denoted(s, base) == u
  {
    NumeralDenotes(u, base);
    if IsNumeral(s, base) { NumeralUnique(s, base); }
  }

  lemma ScaleFacts(q: int, d: int, base: int)
    requires 2 <= base && 0 <= d < base && 0 <= q
    ensures 0 <= q * base + d && (q * base + d) / base == q && (q * base + d) % base == d
  {
    Monotone(0, q, base);
    var u := q * base + d;
    DivFacts(u, base);
    var r := u / base;
    if r < q { Monotone(r + 1, q, base); }
    if q < r { Monotone(q + 1, r, base); }
  }

  /** The value of a digit as strtoi reads it, -1 for any other character. */
  function DigitOf(c: char): int {
    if '0' <= c <= '9' then c as int - '0' as int
    else if 'a' <= c <= 'f' then c as int - 'a' as int + 10
    else if 'A' <= c <= 'F' then c as int - 'A' as int + 10
    else -1
  }

  /** The mathematical value of a string of digits. */
  function Val(s: string, base: int): int {
    if s == [] then 0 else Val(s[..|s| - 1], base) * base + DigitOf(s[|s| - 1])
  }

  predicate AllDigits(s: string, base: int) {
    forall i :: 0 <= i < |s| ==> 0 <= DigitOf(s[i]) < base
  }

  lemma DigitsAre(d: int)
    requires 0 <= d < 16
    ensures DigitOf(DIGITS[d]) == d
  {
  }

  lemma ValAppend(s: string, c: char, base: int)
    ensures Val(s + [c], base) == Val(s, base) * base + DigitOf(c)
  {
    assert (s + [c])[..|s|] == s;
  }

  /** A numeral consists of digits of its base and reads back as the number. */
  lemma {:induction false} NumeralReads(u: nat, base: int)
    requires 2 <= base <= 16
    ensures AllDigits(Numeral(u, base), base) && Val(Numeral(u, base), base) == u
    decreases u
  {
    NumeralStep(u, base);
    DigitsAre(u % base);
    if u / base != 0 {
      NumeralReads(u / base, base);
      hide Numeral, DigitOf;
      ValAppend(Numeral(u / base, base), DIGITS[u % base], base);
    } else {
      hide Numeral, DigitOf;
      ValAppend([], DIGITS[u % base], base);
    }
  }

  function Reversed(s: string): string {
    if s == [] then [] else Reversed(s[1..]) + [s[0]]
  }

  lemma {:induction false} ReversedAt(s: string, k: nat)
    requires k < |s|
    ensures |Reversed(s)| == |s| && Reversed(s)[k] == s[|s| - 1 - k]
  {
    if |s| > 1 { ReversedAt(s[1..], if k < |s| - 1 then k else 0); }
  }

  lemma {:induction false} ReversedLength(s: string)
    ensures |Reversed(s)| == |s|
  {
    if s != [] { ReversedLength(s[1..]); }
  }

  lemma {:induction false} ReversedAppend(s: string, t: string)
    ensures Reversed(s + t) == Reversed(t) + Reversed(s)
  {
    if s == [] {
      assert s + t == t;
    } else {
      assert (s + t)[1..] == s[1..] + t;
      ReversedAppend(s[1..], t);
    }
  }

  /** Lines 87-91: reversal in place of the first n characters. */
  method ReverseInPlace(a: array<char>, n: int)
    requires 0 <= n <= a.Length
    modifies a
    ensures a[..n] == Reversed(old(a[..n])) && a[n..] == old(a[n..])
  {
    var i, j := 0, n - 1;
    while i < j
      invariant 0 <= i <= n && j == n - 1 - i && i <= j + 2
      invariant forall k :: 0 <= k < i ==> a[k] == old(a[n - 1 - k]) && a[n - 1 - k] == old(a[k])
      invariant forall k :: i <= k <= j ==> a[k] == old(a[k])
      invariant a[n..] == old(a[n..])
    {
      a[i], a[j] := a[j], a[i];
      i, j := i + 1, j - 1;
    }
    ghost var was := old(a[..n]);
    ReversedLength(was);
    forall k | 0 <= k < n ensures a[..n][k] == Reversed(was)[k] {
      ReversedAt(was, k);
    }
  }

  lemma MulFacts(q: int, r: int, base: int)
    requires 2 <= base && 0 <= r < base && 0 <= q * base + r
    ensures 0 <= q && (q == 0 <==> q * base + r < base) && (q > 0 ==> q < q * base + r)
  {
    if q < 0 {
      assert q * base <= -1 * base by { Monotone(q, -1, base); }
      assert false;
    }
    if q > 0 { Monotone(1, q, base); Monotone(2, base, q); }
  }

  lemma Monotone(a: int, b: int, c: int)
    requires a <= b && 0 <= c
    ensures a * c <= b * c
  {
  }

  lemma DivFacts(u: nat, base: int)
    requires 1 <= base && (base == 1 ==> u == 0)
    ensures u / base * base + u % base == u && 0 <= u / base && 0 <= u % base < base
    ensures (u / base == 0 <==> u < base) && (u > 0 ==> u / base < u)
  {
    var q, r := u / base, u % base;
    assert u == q * base + r && 0 <= r < base;
    if base > 1 { MulFacts(q, r, base); }
  }

  lemma NumeralStep(u: nat, base: int)
    requires 1 <= base && Spellable(u, base)
    ensures 0 <= u % base < |DIGITS| && (u / base != 0 ==> Spellable(u / base, base))
    ensures u / base * base + u % base == u && 0 <= u / base && (u / base == 0 <==> u < base) && (u > 0 ==> u / base < u)
    ensures Numeral(u, base) == (if u / base == 0 then [] else Numeral(u / base, base)) + [DIGITS[u % base]]
  {
    DivFacts(u, base);
    assert u < base ==> u % base == u;
  }

  lemma ReversedCons(d: char, s: string)
    ensures Reversed([d] + s) == Reversed(s) + [d]
  {
    assert ([d] + s)[1..] == s;
  }

  lemma HalfUnsigned(v: int, base: int)
    requires Int32(v) && 1 <= base && Spellable(Wrap(v), base)
    ensures 0 <= Wrap(v) / base <= INT_MAX && Wrap(Wrap(v) / base) == Wrap(v) / base
    ensures Wrap32(Wrap(v) / base) == Wrap(v) / base && (v < 0 ==> Wrap(v) / base > 0)
  {
    Half(Wrap(v), base);
    SmallDigit(Wrap(v), base);
    assert v < 0 ==> Wrap(v) > INT_MAX;
    PlainWord(Wrap(v) / base);
  }

  lemma Half(u: int, base: int)
    requires 1 <= base && (base == 1 ==> u == 0) && 0 <= u < TWO32
    ensures 0 <= u / base <= INT_MAX
  {
    DivFacts(u, base);
    var q, r := u / base, u % base;
    if base > 1 { Monotone(2, base, q); }
  }

  lemma PlainWord(x: int)
    requires 0 <= x <= INT_MAX
    ensures Wrap(x) == x && Wrap32(x) == x
  {
  }

  lemma SmallDigit(u: nat, base: int)
    requires 1 <= base && Spellable(u, base)
    ensures u / base == 0 ==> u < |DIGITS|
  {
    DivFacts(u, base);
  }

  /** tmp_value - value * base, as uint32_t: the digit the division has left over. */
  method DigitOff(tmp: int, v: int, base: int) returns (digit: int)
    requires 1 <= base && (base == 1 ==> Wrap(tmp) == 0) && Wrap(v) == Wrap(tmp) / base
    ensures digit == Wrap(tmp) % base
  {
    digit := Wrap(Wrap(tmp) - Wrap(v) * base);
    DigitIs(Wrap(tmp), base, digit);
  }

  /** Lines 78-82: the digits of the value read as unsigned, least significant first; tmp is what the last division started from. */
  method EmitDigits(result: array<char>, base: int, value: int) returns (ptr: int, tmp: int)
    requires 1 <= base && Int32(value) && Spellable(Wrap(value), base) && |Numeral(Wrap(value), base)| < result.Length
    modifies result
    ensures ptr == |Numeral(Wrap(value), base)| && tmp >= 0
    ensures result[..ptr] == Reversed(Numeral(Wrap(value), base)) && result[ptr..] == old(result[ptr..])
  {
    hide Numeral, Reversed, Wrap32, Spellable;
    ghost var whole, done := Numeral(Wrap(value), base), "";
    var v := value;
    ptr, tmp := 0, 0;
    assert whole + "" == whole;
    assert Reversed("") == "" by { ReversedLength(""); }
    while true
      invariant Int32(v) && 0 <= ptr < |whole| && Spellable(Wrap(v), base) && Numeral(Wrap(v), base) + done == whole && |done| == ptr
      invariant result[..ptr] == Reversed(done) && result[ptr..] == old(result[ptr..]) && (ptr > 0 ==> v > 0)
      decreases Wrap(v)
    {
      HalfUnsigned(v, base);
      NumeralStep(Wrap(v), base);
      tmp := v;
      v := Wrap32(Wrap(v) / base);
      var digit := DigitOff(tmp, v, base);
      ReversedCons(DIGITS[digit], done);
      Regroup(if v == 0 then [] else Numeral(Wrap(v), base), DIGITS[digit], done);
      done := [DIGITS[digit]] + done;
      result[ptr] := DIGITS[digit];
      ptr := ptr + 1;
      if v == 0 {
        assert done == whole;
        break;
      }
    }
  }

  lemma DigitIs(u: int, base: int, digit: int)
    requires 1 <= base && (base == 1 ==> u == 0) && 0 <= u < TWO32 && digit == Wrap(u - u / base * base)
    ensures digit == u % base
  {
    DivFacts(u, base);
  }

  lemma Regroup(s: string, d: char, t: string)
    ensures (s + [d]) + t == s + ([d] + t)
  {
  }

  lemma {:induction false} ReversedTwice(s: string)
    ensures Reversed(Reversed(s)) == s
  {
    ReversedLength(s);
    ReversedLength(Reversed(s));
    forall k | 0 <= k < |s| ensures Reversed(Reversed(s))[k] == s[k] {
      ReversedAt(Reversed(s), k);
      ReversedAt(s, |s| - 1 - k);
    }
  }

  /**
   itoa: the numeral of the value read as unsigned, in a buffer that has room for it; the sign is never
   written. The test of the base in lines 71-73 writes a NUL that the digits overwrite, and does not return.
   */
  method Itoa(result: array<char>, base: int, value: int)
    requires 1 <= base && Int32(value) && Spellable(Wrap(value), base) && |Numeral(Wrap(value), base)| < result.Length
    modifies result
    ensures var s := Numeral(Wrap(value), base);
            && result[..|s|] == s && result[|s|] == NUL && result[|s| + 1..] == old(result[|s| + 1..])
            && IsNumeral(result[..|s|], base) && Denoted(result[..|s|], base) == Wrap(value)
  {
    hide Numeral, Reversed, Spellable, IsNumeral, Denoted;
    NumeralDenotes(Wrap(value), base);
    if base < 2 || base > |DIGITS| {
      result[0] := NUL;
    }
    var ptr, tmp := EmitDigits(result, base, value);
    // line 85 adds no sign, as tmp is not negative here
    result[ptr] := NUL;
    ReversedTwice(Numeral(Wrap(value), base));
    ReverseInPlace(result, ptr);
  }
}
