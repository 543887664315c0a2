/** What atoi and strtoi make of strings that are put together: spaces, a sign, a prefix, digits, and whatever follows. */
module Reading {
  import opened Machine
  import opened Numbers
  import opened Parsing

  const LOWER := "0123456789abcdef"
  const UPPER := "0123456789ABCDEF"

  /** c stands for the digit d. */
  predicate Stands(c: char, d: int) {
    0 <= d < 16 && (c == LOWER[d] || c == UPPER[d])
  }

  /** The characters of t stand for the digits ds. */
  predicate Spells(t: string, ds: seq<int>) {
    |t| == |ds| && forall i :: 0 <= i < |t| ==> Stands(t[i], ds[i])
  }

  ghost predicate Below(ds: seq<int>, base: int) {
    forall i :: 0 <= i < |ds| ==> 0 <= ds[i] < base
  }

  /** The number with these digits. */
  function Worth(ds: seq<int>, base: int): int {
    if ds == [] then 0 else Worth(ds[..|ds| - 1], base) * base + ds[|ds| - 1]
  }

  /** The sign characters a number may have in front, and the number with it. */
  predicate IsSign(sign: string) {
    sign == "" || sign == "-" || sign == "+"
  }

  function Signed(sign: string, x: int): int {
    if sign == "-" then -x else x
  }

  lemma DigitExactly(c: char, d: int)
    requires 0 <= d < 16
    ensures DigitOf(c) == d <==> c == LOWER[d] || c == UPPER[d]
    ensures DigitOf(c) < 16
  {
  }

  lemma {:induction false} SpelledValue(t: string, ds: seq<int>, base: int)
    requires Spells(t, ds)
    ensures Val(t, base) == Worth(ds, base)
  {
    if t != [] {
      DigitExactly(t[|t| - 1], ds[|t| - 1]);
      SpelledValue(t[..|t| - 1], ds[..|t| - 1], base);
    }
  }

  lemma SpelledDigits(t: string, ds: seq<int>, base: int)
    requires Spells(t, ds) && Below(ds, base)
    ensures AllDigits(t, base)
  {
    forall i | 0 <= i < |t| ensures 0 <= DigitOf(t[i]) < base {
      DigitExactly(t[i], ds[i]);
    }
  }

  /** What follows the digits: it does not go on with one. */
  ghost predicate Follows(tail: string, base: int) {
    tail != [] && forall d :: 0 <= d < base && d < 16 ==> !Stands(tail[0], d)
  }

  lemma RunOf(t: string, ds: seq<int>, tail: string, base: int)
    requires Spells(t, ds) && Below(ds, base) && Follows(tail, base)
    ensures DigitRun(t + tail, base) == |t| && Val((t + tail)[..|t|], base) == Worth(ds, base)
  {
    SpelledDigits(t, ds, base);
    SpelledValue(t, ds, base);
    assert (t + tail)[..|t|] == t && (t + tail)[|t|] == tail[0];
    if 0 <= DigitOf(tail[0]) < base {
      DigitExactly(tail[0], DigitOf(tail[0]));
      assert Stands(tail[0], DigitOf(tail[0]));
    }
    DigitRunIs(t + tail, base, |t|);
  }

  // ---------------------------------------------------------------- atoi

  lemma BlanksOf(n: nat, rest: string)
    requires rest != [] && rest[0] != ' '
    ensures Blanks(seq(n, i => ' ') + rest) == n
  {
    var s := seq(n, i => ' ') + rest;
    assert s[n] == rest[0] && forall j :: 0 <= j < n ==> s[j] == ' ';
    assert 0 <= Blanks(s) <= |s|;
  }

  lemma SignRead(lead: string, sign: string, rest: string)
    requires IsSign(sign) && rest != [] && (sign == "" ==> rest[0] != '-' && rest[0] != '+')
    ensures var s := lead + sign + rest;
            && s == lead + (sign + rest) && SignOf(s, |lead|) == (if sign == "-" then -1 else 1) && AfterSign(s, |lead|) == |lead| + |sign|
            && s[|lead| + |sign|..] == rest
  {
    var s := lead + sign + rest;
    assert s[|lead|] == (sign + rest)[0];
  }

  /** atoi on blanks, a sign, decimal digits and a rest: the number, or the nearest int32_t. */
  lemma AtoiReads(blanks: nat, sign: string, t: string, ds: seq<int>, tail: string)
    requires IsSign(sign) && Spells(t, ds) && Below(ds, 10) && Follows(tail, 10) && t + tail != [] && (sign == "" ==> !((t + tail)[0] in " -+"))
    ensures var x, r := Signed(sign, Worth(ds, 10)), Clamp(AtoiValue(seq(blanks, i => ' ') + sign + (t + tail)));
            && (-0x8000_0000 <= x <= 0x7FFF_FFFF ==> r == x) && (x > 0x7FFF_FFFF ==> r == 0x7FFF_FFFF) && (x < -0x8000_0000 ==> r == -0x8000_0000)
  {
    var lead := seq(blanks, i => ' ');
    var s := lead + sign + (t + tail);
    SignRead(lead, sign, t + tail);
    assert (sign + (t + tail))[0] != ' ';
    BlanksOf(blanks, sign + (t + tail));
    RunOf(t, ds, tail, 10);
    hide Blanks, SignOf, AfterSign, DigitRun, Val, Worth, Spells, Below, Follows, Clamp;
    AtoiParts(s, |lead|, if sign == "-" then -1 else 1, |lead| + |sign|, |t|, Worth(ds, 10));
    Nearest(sign, Worth(ds, 10), AtoiValue(s));
  }

  lemma AtoiParts(s: string, blanks: nat, sg: int, from: nat, run: nat, x: int)
    requires Blanks(s) == blanks && SignOf(s, blanks) == sg && AfterSign(s, blanks) == from && from <= |s|
    requires DigitRun(s[from..], 10) == run && run <= |s| - from && Val(s[from..][..run], 10) == x
    ensures AtoiValue(s) == sg * x
  {
    hide Blanks, SignOf, AfterSign, DigitRun, Val;
    assert s[from..from + run] == s[from..][..run];
  }

  lemma Nearest(sign: string, x: int, y: int)
    requires y == (if sign == "-" then -1 else 1) * x
    ensures y == Signed(sign, x)
    ensures -0x8000_0000 <= y <= 0x7FFF_FFFF ==> Clamp(y) == y
    ensures y > 0x7FFF_FFFF ==> Clamp(y) == 0x7FFF_FFFF
    ensures y < -0x8000_0000 ==> Clamp(y) == -0x8000_0000
  {
  }

  // ---------------------------------------------------------------- strtoi

  /** Where there is no sign, the rest does not start with what would be read as one, or as white space. */
  predicate Starts(sign: string, rest: string) {
    rest != [] && (sign == "" ==> rest[0] != '-' && rest[0] != '+' && !(rest[0] in " \t\n\r\U{B}\U{C}"))
  }

  /** The six characters strtoi passes over. */
  ghost predicate IsWhite(lead: string) {
    forall i :: 0 <= i < |lead| ==> lead[i] in " \t\n\r\U{B}\U{C}"
  }

  lemma SpacesOf(lead: string, rest: string)
    requires IsWhite(lead) && rest != [] && !(rest[0] in " \t\n\r\U{B}\U{C}")
    ensures Spaces(lead + rest) == |lead|
  {
    var s := lead + rest;
    assert s[|lead|] == rest[0] && forall j :: 0 <= j < |lead| ==> s[j] == lead[j];
    assert 0 <= Spaces(s) <= |s|;
  }

  /** The prefix p in front of `rest` makes strtoi, asked for `base`, read in base b. */
  predicate Announces(base: int, p: string, b: int, rest: string) {
    var hex := |rest| > 1 && rest[0] == '0' && (rest[1] == 'x' || rest[1] == 'X');
    match p
    case "0x" => (base == 0 || base == 16) && b == 16
    case "0X" => (base == 0 || base == 16) && b == 16
    case "0" => base == 0 && b == 8 && (rest != [] ==> rest[0] != 'x' && rest[0] != 'X')
    case _ => p == "" && if base == 0 then b == 10 && (rest != [] ==> rest[0] != '0') else b == base && (base == 16 ==> !hex)
  }

  lemma PrefixRead(front: string, p: string, rest: string, base: int, b: int)
    requires Announces(base, p, b, rest) && rest != []
    ensures BaseAt(front + (p + rest), |front|, base) == (b, |front| + |p|)
  {
    var s := front + (p + rest);
    assert s[|front|..] == p + rest;
    assert s[|front|] == (p + rest)[0];
    if |front| + 1 < |s| { assert s[|front| + 1] == (p + rest)[1]; }
  }

  /**
   strtoi on white space, a sign, a prefix, digits and a rest: the number with its sign, and the place behind
   the digits. What strtoi returns is that number reduced to 32 bits.
   */
  lemma StrtoiReads(lead: string, sign: string, p: string, t: string, ds: seq<int>, tail: string, base: int, b: int)
    requires IsWhite(lead) && IsSign(sign) && Announces(base, p, b, t + tail) && Spells(t, ds) && Below(ds, b) && Follows(tail, b)
    requires Starts(sign, p + (t + tail))
    ensures StrtoiValue(lead + sign + (p + (t + tail)), base) == Parsed(Signed(sign, Worth(ds, b)), |lead| + |sign| + |p| + |t|)
  {
    var body := t + tail;
    var s := lead + sign + (p + body);
    hide Spaces, SignOf, AfterSign, BaseAt, DigitRun, Val, Worth, Starts, StrtoiValue, IsWhite, Announces, Spells, Below, Follows;
    BodyThere(t, tail, b);
    WhiteFirst(sign, p + body);
    SignRead(lead, sign, p + body);
    SpacesOf(lead, sign + (p + body));
    PrefixRead(lead + sign, p, body, base, b);
    RunOf(t, ds, tail, b);
    StrtoiParts(s, lead + sign, |lead|, if sign == "-" then -1 else 1, p, body, base, b, |t|, Worth(ds, b));
    Negated(sign, Worth(ds, b));
  }

  lemma StrtoiParts(s: string, front: string, white: nat, sg: int, p: string, body: string, base: int, b: int, n: nat, x: int)
    requires s == front + (p + body) && Spaces(s) == white && SignOf(s, white) == sg && AfterSign(s, white) == |front|
    requires BaseAt(s, |front|, base) == (b, |front| + |p|) && n <= |body| && DigitRun(body, b) == n && Val(body[..n], b) == x
    ensures StrtoiValue(s, base) == Parsed(sg * x, |front| + |p| + n)
  {
    hide Spaces, SignOf, AfterSign, BaseAt, DigitRun, Val, StrtoiValue;
    BehindFront(front, p, body, n);
    var from := |front| + |p|;
    StrtoiIs(s, base, sg, |front|, b, from, from + n);
  }

  lemma BodyThere(t: string, tail: string, base: int)
    requires Follows(tail, base)
    ensures t + tail != []
  {
  }

  lemma BehindFront(front: string, p: string, body: string, n: nat)
    requires n <= |body|
    ensures var (s, from) := (front + (p + body), |front| + |p|); s[from..] == body && s[from..from + n] == body[..n]
  {
  }

  lemma WhiteFirst(sign: string, rest: string)
    requires IsSign(sign) && Starts(sign, rest)
    ensures rest != [] && (sign == "" ==> rest[0] != '-' && rest[0] != '+')
    ensures sign + rest != [] && !((sign + rest)[0] in " \t\n\r\U{B}\U{C}")
  {
  }

  lemma Negated(sign: string, x: int)
    ensures (if sign == "-" then -1 else 1) * x == Signed(sign, x)
  {
  }

  // ---------------------------------------------------------------- a numeral with a sign

  /** The digits of a numeral. */
  function Places(t: string): seq<int> {
    seq(|t|, i requires 0 <= i < |t| => PlaceOf(t[i]))
  }

  lemma {:induction false} PlacesWorth(t: string, base: int)
    ensures Worth(Places(t), base) == Denoted(t, base)
  {
    if t != [] {
      assert Places(t)[..|t| - 1] == Places(t[..|t| - 1]);
      PlacesWorth(t[..|t| - 1], base);
    }
  }

  lemma PlaceStands(c: char, d: int)
    requires PlaceOf(c) == d && 0 <= d < 16
    ensures Stands(c, d)
  {
  }

  /** What a numeral of base 2 to 16 is to strtoi and atoi. */
  lemma NumeralSpells(u: nat, base: int)
    requires 2 <= base <= 16
    ensures var t := Numeral(u, base); Spells(t, Places(t)) && Below(Places(t), base) && Worth(Places(t), base) == u
    ensures var t := Numeral(u, base); t != [] && (t[0] == '0' ==> u == 0 && |t| == 1) && !(t[0] in " \t\n\r\U{B}\U{C}-+")
  {
    var t := Numeral(u, base);
    NumeralDenotes(u, base);
    PlacesWorth(t, base);
    forall i | 0 <= i < |t| ensures Stands(t[i], Places(t)[i]) { PlaceStands(t[i], PlaceOf(t[i])); }
    assert 0 <= PlaceOf(t[0]);
  }

  lemma NulFollows(rest: string, base: int)
    ensures Follows([NUL] + rest, base)
  {
  }

  /** strtoi reads back every numeral with a sign in front. */
  lemma StrtoiReadsSigned(lead: string, sign: string, u: nat, base: int, rest: string)
    requires IsWhite(lead) && IsSign(sign) && 2 <= base <= 16
    ensures var t := Numeral(u, base);
            StrtoiValue(lead + sign + (t + ([NUL] + rest)), base) == Parsed(Signed(sign, u), |lead| + |sign| + |t|)
  {
    var t, tail := Numeral(u, base), [NUL] + rest;
    NumeralSpells(u, base);
    NulFollows(rest, base);
    assert "" + (t + tail) == t + tail;
    hide Numeral, Worth, Spells, Below, Follows, StrtoiValue, IsWhite;
    StrtoiReads(lead, sign, "", t, Places(t), tail, base, base);
  }

  /** atoi reads back every decimal numeral with a sign in front, or gives the nearest int32_t. */
  lemma AtoiReadsSigned(blanks: nat, sign: string, u: nat, rest: string)
    requires IsSign(sign)
    ensures var x, r := Signed(sign, u), Clamp(AtoiValue(seq(blanks, i => ' ') + sign + (Numeral(u, 10) + ([NUL] + rest))));
            && (-0x8000_0000 <= x <= 0x7FFF_FFFF ==> r == x) && (x > 0x7FFF_FFFF ==> r == 0x7FFF_FFFF) && (x < -0x8000_0000 ==> r == -0x8000_0000)
  {
    var t, tail := Numeral(u, 10), [NUL] + rest;
    NumeralSpells(u, 10);
    NulFollows(rest, 10);
    hide Numeral, Worth, Spells, Below, Follows, AtoiValue, Clamp;
    AtoiReads(blanks, sign, t, Places(t), tail);
  }
}
