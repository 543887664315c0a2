/** strtok of shared/src/stdlib.c: the tokenizer that overwrites its input and keeps its place in a static pointer. */
module Tokens {
  import opened Machine

  /** The length of the string at position pos of a buffer: up to the first NUL. */
  function Length(b: string, pos: nat): (n: nat)
    requires pos <= |b| && NUL in b[pos..]
    ensures pos + n < |b| && b[pos + n] == NUL && forall i :: pos <= i < pos + n ==> b[i] != NUL
    decreases |b| - pos
  {
    assert b[pos..] == [b[pos]] + b[pos + 1..];
    if b[pos] == NUL then 0 else 1 + Length(b, pos + 1)
  }

  function StringAt(b: string, pos: nat): string
    requires pos <= |b| && NUL in b[pos..]
  {
    b[pos..pos + Length(b, pos)]
  }

  lemma LengthIs(b: string, pos: nat, n: nat)
    requires pos + n < |b| && b[pos + n] == NUL && forall i :: pos <= i < pos + n ==> b[i] != NUL
    ensures NUL in b[pos..] && Length(b, pos) == n && StringAt(b, pos) == b[pos..pos + n]
  {
    assert b[pos..][n] == NUL;
  }

  // ---------------------------------------------------------------- the tokens of a string

  /** How many delimiters s[from..] starts with. */
  function Lead(s: string, d: set<char>, from: nat): (k: nat)
    requires from <= |s|
    ensures from + k <= |s|
    decreases |s| - from
  {
    if from == |s| || s[from] !in d then 0 else 1 + Lead(s, d, from + 1)
  }

  lemma {:induction false} LeadFacts(s: string, d: set<char>, from: nat)
    requires from <= |s|
    ensures var k := Lead(s, d, from); (forall i :: from <= i < from + k ==> s[i] in d) && (from + k < |s| ==> s[from + k] !in d)
    decreases |s| - from
  {
    if from < |s| && s[from] in d { LeadFacts(s, d, from + 1); }
  }

  /** How many other characters s[from..] starts with. */
  function Run(s: string, d: set<char>, from: nat): (n: nat)
    requires from <= |s|
    ensures from + n <= |s|
    decreases |s| - from
  {
    if from == |s| || s[from] in d then 0 else 1 + Run(s, d, from + 1)
  }

  lemma {:induction false} RunFacts(s: string, d: set<char>, from: nat)
    requires from <= |s|
    ensures var n := Run(s, d, from); (forall i :: from <= i < from + n ==> s[i] !in d) && (from + n < |s| ==> s[from + n] in d)
    ensures from < |s| && s[from] !in d ==> Run(s, d, from) > 0
    decreases |s| - from
  {
    if from < |s| && s[from] !in d { RunFacts(s, d, from + 1); }
  }

  datatype Span = Span(start: nat, end: nat)

  /** The tokens from position `from` on, as positions. */
  function Spans(s: string, d: set<char>, from: nat): seq<Span>
    requires from <= |s|
    decreases |s| - from
  {
    var start := from + Lead(s, d, from);
    if start == |s| then [] else [Span(start, start + Run(s, d, start))] + Spans(s, d, start + Run(s, d, start))
  }

  /** A maximal non-empty stretch without delimiters. */
  ghost predicate Maximal(s: string, d: set<char>, t: Span) {
    && t.start < t.end <= |s| && (forall i :: t.start <= i < t.end ==> s[i] !in d)
    && (t.start > 0 ==> s[t.start - 1] in d) && (t.end < |s| ==> s[t.end] in d)
  }

  /** A place where a token may start. */
  predicate Boundary(s: string, d: set<char>, from: nat) {
    from <= |s| && (0 < from < |s| ==> s[from] in d || s[from - 1] in d)
  }

  /** The spans are the maximal stretches from `from` on, all of them and nothing else. */
  lemma {:induction false} SpansExact(s: string, d: set<char>, from: nat, t: Span)
    requires Boundary(s, d, from)
    ensures t in Spans(s, d, from) <==> Maximal(s, d, t) && from <= t.start
    decreases |s| - from
  {
    var start := from + Lead(s, d, from);
    if start < |s| {
      var end := start + Run(s, d, start);
      FirstMaximal(s, d, from);
      SpansExact(s, d, end, t);
      SpansStep(s, d, from, t);
      hide Spans, Lead, Run;
      if Maximal(s, d, t) && from <= t.start {
        NotBefore(s, d, from, t);
      }
    } else if from <= t.start {
      NoToken(s, d, from, t);
    }
  }

  lemma NoToken(s: string, d: set<char>, from: nat, t: Span)
    requires from <= |s| && from + Lead(s, d, from) == |s| && from <= t.start
    ensures !Maximal(s, d, t)
  {
    LeadFacts(s, d, from);
    assert t.start < |s| ==> s[t.start] in d;
  }

  lemma SpansStep(s: string, d: set<char>, from: nat, t: Span)
    requires from <= |s| && from + Lead(s, d, from) < |s|
    ensures var start := from + Lead(s, d, from);
            var end := start + Run(s, d, start);
            && Spans(s, d, from) == [Span(start, end)] + Spans(s, d, end)
            && (t in Spans(s, d, from) <==> t == Span(start, end) || t in Spans(s, d, end))
  {
  }

  /** They come from left to right, with a delimiter between one and the next. */
  lemma {:induction false} SpansOrdered(s: string, d: set<char>, from: nat)
    requires Boundary(s, d, from)
    ensures forall i, j :: 0 <= i < j < |Spans(s, d, from)| ==> Spans(s, d, from)[i].end < Spans(s, d, from)[j].start
    decreases |s| - from
  {
    var start := from + Lead(s, d, from);
    if start < |s| {
      var end := start + Run(s, d, start);
      var rest := Spans(s, d, end);
      FirstMaximal(s, d, from);
      SpansOrdered(s, d, end);
      SpansStep(s, d, from, Span(start, end));
      forall j | 0 <= j < |rest| ensures end < rest[j].start {
        SpansExact(s, d, end, rest[j]);
        MaximalApart(s, d, Span(start, end), rest[j]);
      }
      hide Spans, Lead, Run, Maximal, Boundary;
      OrderedCons(Span(start, end), rest);
    }
  }

  lemma OrderedCons(t: Span, rest: seq<Span>)
    requires forall j :: 0 <= j < |rest| ==> t.end < rest[j].start
    requires forall i, j :: 0 <= i < j < |rest| ==> rest[i].end < rest[j].start
    ensures forall i, j :: 0 <= i < j < |[t] + rest| ==> ([t] + rest)[i].end < ([t] + rest)[j].start
  {
  }

  lemma FirstMaximal(s: string, d: set<char>, from: nat)
    requires Boundary(s, d, from) && from + Lead(s, d, from) < |s|
    ensures var start := from + Lead(s, d, from); Maximal(s, d, Span(start, start + Run(s, d, start))) && Boundary(s, d, start + Run(s, d, start))
  {
    var start := from + Lead(s, d, from);
    LeadFacts(s, d, from);
    RunFacts(s, d, start);
    if start > from { assert s[start - 1] in d; }
  }

  /** Two maximal stretches are the same or have a delimiter between them. */
  lemma MaximalApart(s: string, d: set<char>, t: Span, u: Span)
    requires Maximal(s, d, t) && Maximal(s, d, u)
    ensures t == u || t.end < u.start || u.end < t.start
  {
  }

  lemma NoEarlier(s: string, d: set<char>, from: nat, t: Span)
    requires from <= |s| && Maximal(s, d, t) && from <= t.start
    ensures from + Lead(s, d, from) <= t.start
  {
    LeadFacts(s, d, from);
    assert s[t.start] !in d;
  }

  /** Another maximal stretch starts after the end of the first. */
  lemma NotBefore(s: string, d: set<char>, from: nat, t: Span)
    requires Boundary(s, d, from) && from + Lead(s, d, from) < |s| && Maximal(s, d, t) && from <= t.start
    ensures var start := from + Lead(s, d, from); t == Span(start, start + Run(s, d, start)) || start + Run(s, d, start) < t.start
  {
    var start := from + Lead(s, d, from);
    FirstMaximal(s, d, from);
    NoEarlier(s, d, from, t);
    hide Lead, Run, Boundary;
    MaximalApart(s, d, Span(start, start + Run(s, d, start)), t);
  }

  /** A delimiter at the front is skipped anyway. */
  lemma SpansSkip(s: string, d: set<char>, from: nat)
    requires from < |s| && s[from] in d
    ensures Spans(s, d, from) == Spans(s, d, from + 1)
  {
  }

  // ---------------------------------------------------------------- strtok

  /** The delimiters: the characters of the string before its NUL. */
  function Delimiters(delim: string): set<char>
    requires NUL in delim
  {
    assert delim[0..] == delim;
    set c | c in StringAt(delim, 0)
  }

  lemma DelimitersAre(delim: string)
    requires NUL in delim
    ensures NUL in delim[0..] && (forall c :: c in Delimiters(delim) <==> c in delim[..Length(delim, 0)]) && NUL !in Delimiters(delim)
  {
    assert delim[0..] == delim;
  }

  /** is_delim */
  method IsDelim(c: char, delim: string) returns (r: bool)
    requires NUL in delim
    ensures r <==> c in Delimiters(delim)
  {
    DelimitersAre(delim);
    ghost var n := Length(delim, 0);
    var i := 0;
    while delim[i] != NUL
      invariant 0 <= i <= n && c !in delim[..i]
      decreases n - i
    {
      if c == delim[i] {
        assert delim[..n][i] == c;
        return true;
      }
      assert delim[..i + 1] == delim[..i] + [delim[i]];
      i := i + 1;
    }
    r := false;
  }

  datatype Pointer = Null | At(buf: array<char>, pos: nat)

  ghost predicate Points(p: Pointer)
    reads if p.At? then {p.buf} else {}
  {
    p.At? ==> p.pos <= p.buf.Length && NUL in p.buf[p.pos..]
  }

  /** What strtok does at p, whose buffer holds b: the answer r, the new place, the new buffer c. */
  ghost predicate Answers(p: Pointer, b: string, delim: string, r: Pointer, place: Pointer, place': Pointer, c: string) {
    && p.At? && p.pos <= |b| && NUL in b[p.pos..] && NUL in delim
    && var s, d := StringAt(b, p.pos), Delimiters(delim);
       var k := Lead(s, d, 0);
       p.pos + |s| < |b| && Outcome(p, b, k, Run(s, d, k), |s|, r, place, place', c)
  }

  /** k delimiters, then n other characters, of a string with len characters. */
  ghost predicate Outcome(p: Pointer, b: string, k: nat, n: nat, len: nat, r: Pointer, place: Pointer, place': Pointer, c: string) {
    && p.At? && k + n <= len && p.pos + len < |b|
    && if k == len then r == Null && place' == place && c == b
       else r == At(p.buf, p.pos + k) &&
            if k + n == len then c == b && place' == At(p.buf, p.pos + k + n)
            else c == b[p.pos + k + n := NUL] && place' == At(p.buf, p.pos + k + n + 1)
  }

  /** Nothing but delimiters left. */
  lemma AnswersNone(p: Pointer, b: string, delim: string, place: Pointer)
    requires p.At? && p.pos <= |b| && NUL in b[p.pos..] && NUL in delim
    requires Lead(StringAt(b, p.pos), Delimiters(delim), 0) == |StringAt(b, p.pos)| && p.pos + |StringAt(b, p.pos)| < |b|
    ensures Answers(p, b, delim, Null, place, place, b)
  {
    hide Lead, Run, Delimiters, StringAt, Length;
    assert Run(StringAt(b, p.pos), Delimiters(delim), |StringAt(b, p.pos)|) == 0 by { RunFacts(StringAt(b, p.pos), Delimiters(delim), |StringAt(b, p.pos)|); }
  }

  /** A token of the characters from k up to e. */
  lemma AnswersOne(p: Pointer, b: string, delim: string, k: nat, e: nat, place: Pointer)
    requires p.At? && p.pos <= |b| && NUL in b[p.pos..] && NUL in delim && p.pos + |StringAt(b, p.pos)| < |b|
    requires k == Lead(StringAt(b, p.pos), Delimiters(delim), 0) < |StringAt(b, p.pos)| && e == k + Run(StringAt(b, p.pos), Delimiters(delim), k)
    ensures e <= |StringAt(b, p.pos)|
    ensures if e == |StringAt(b, p.pos)| then Answers(p, b, delim, At(p.buf, p.pos + k), place, At(p.buf, p.pos + e), b)
            else Answers(p, b, delim, At(p.buf, p.pos + k), place, At(p.buf, p.pos + e + 1), b[p.pos + e := NUL])
  {
    hide Lead, Run, Delimiters, StringAt, Length;
    RunFacts(StringAt(b, p.pos), Delimiters(delim), k);
  }

  class Tokenizer {
    var backup: Pointer

    constructor ()
      ensures backup == Null
    {
      backup := Null;
    }

    /** strtok. A Null source continues behind the last token. */
    method Strtok(src: Pointer, delim: string) returns (r: Pointer)
      requires NUL in delim && Points(if src.Null? then backup else src)
      modifies this, if src.At? then {src.buf} else if backup.At? then {backup.buf} else {}
      ensures src.Null? && old(backup).Null? ==> r == Null && backup == Null
      ensures var p := if src.Null? then old(backup) else src;
              p.At? ==> Answers(p, old(p.buf[..]), delim, r, old(backup), backup, p.buf[..])
    {
      var p := if src.Null? then backup else src;
      if p.Null? {
        return Null;
      }
      hide Answers;
      assert p.buf[p.pos..] == p.buf[..][p.pos..];
      r := TokenFrom(p.buf, p.pos, delim);
    }

    /** Lines 213-238: from a place in a buffer on. */
    method TokenFrom(buf: array<char>, pos: nat, delim: string) returns (r: Pointer)
      requires NUL in delim && pos <= buf.Length && NUL in buf[..][pos..]
      modifies this, buf
      ensures Answers(At(buf, pos), old(buf[..]), delim, r, old(backup), backup, buf[..])
    {
      ghost var b := buf[..];
      hide Length, Lead, Run, Delimiters, StringAt, Answers;
      var at := SkipDelimiters(buf, pos, delim);
      ghost var k := at - pos;
      StringEnds(b, pos, k);
      if buf[at] == NUL {
        AnswersNone(At(buf, pos), b, delim, backup);
        return Null;
      }
      r := At(buf, at);
      at := FindEnd(buf, pos, at - pos, delim, at);
      StringEnds(b, pos, at - pos);
      AnswersOne(At(buf, pos), b, delim, k, at - pos, backup);
      if buf[at] == NUL {
        backup := At(buf, at);
      } else {
        buf[at] := NUL;
        backup := At(buf, at + 1);
      }
    }

    /** Lines 213-223. */
    static method SkipDelimiters(buf: array<char>, pos: nat, delim: string) returns (at: nat)
      requires NUL in delim && pos <= buf.Length && NUL in buf[..][pos..]
      ensures at == pos + Lead(StringAt(buf[..], pos), Delimiters(delim), 0) && at < buf.Length
    {
      ghost var s, d := StringAt(buf[..], pos), Delimiters(delim);
      ghost var k := Lead(s, d, 0);
      LeadFacts(s, d, 0);
      StringFacts(buf[..], pos);
      DelimitersAre(delim);
      hide Length, Lead, Delimiters, StringAt;
      at := pos;
      while true
        invariant pos <= at <= pos + k
        decreases pos + k - at
      {
        assert at < pos + |s| ==> buf[at] == s[at - pos];
        assert at < pos + k ==> s[at - pos] in d;
        var isDelim := IsDelim(buf[at], delim);
        if isDelim {
          at := at + 1;
          continue;
        }
        break;
      }
    }

    /** Lines 226-238, up to the end of the token. */
    static method FindEnd(buf: array<char>, pos: nat, ghost k: nat, delim: string, from: nat) returns (at: nat)
      requires NUL in delim && pos <= buf.Length && NUL in buf[..][pos..] && k <= |StringAt(buf[..], pos)| && from == pos + k
      ensures at == from + Run(StringAt(buf[..], pos), Delimiters(delim), k) && at < buf.Length
    {
      ghost var s, d := StringAt(buf[..], pos), Delimiters(delim);
      ghost var n := Run(s, d, k);
      RunFacts(s, d, k);
      StringFacts(buf[..], pos);
      DelimitersAre(delim);
      hide Length, Run, Delimiters, StringAt;
      at := from;
      while buf[at] != NUL
        invariant from <= at <= from + n
        decreases from + n - at
      {
        assert at < pos + |s| && buf[at] == s[at - pos];
        assert at < from + n ==> s[at - pos] !in d;
        var isDelim := IsDelim(buf[at], delim);
        if isDelim {
          break;
        }
        at := at + 1;
      }
    }

    /** The customary loop: strtok on the buffer, then on NULL until the answer is NULL. */
    method Tokenize(buf: array<char>, delim: string) returns (tokens: seq<nat>)
      requires NUL in delim && NUL in buf[..]
      modifies this, buf
      ensures Tokenized(old(buf[..]), delim, tokens, buf[..])
    {
      ghost var b := buf[..];
      assert b[0..] == b;
      ghost var s, d := StringAt(b, 0), Delimiters(delim);
      ghost var done: seq<Span> := [];
      ghost var q := 0;
      tokens := [];
      hide Length, Lead, Run, Delimiters, StringAt, Spans, Found, Past, Ended, Collected, Progress;
      ProgressStart(b, delim);
      var src := At(buf, 0);
      while true
        invariant Progress(s, d, done, tokens, buf[..], q) && q <= |s| && (if src.At? then src == At(buf, q) else backup == At(buf, q))
        decreases |s| - q, if src.At? then 1 else 0
      {
        ghost var done', q';
        var p;
        p, done', q' := Round(buf, src, delim, s, done, tokens, q);
        if p.Null? {
          break;
        }
        tokens := tokens + [p.pos];
        src, done, q := Null, done', q';
      }
      ProgressEnds(b, delim, done, tokens, buf[..], q);
    }

    /** One round of the loop. */
    method Round(buf: array<char>, src: Pointer, delim: string, ghost s: string, ghost done: seq<Span>, ghost tokens: seq<nat>, ghost q: nat)
      returns (p: Pointer, ghost done': seq<Span>, ghost q': nat)
      requires NUL in delim && q <= |s| && (if src.At? then src == At(buf, q) else backup == At(buf, q))
      requires Progress(s, Delimiters(delim), done, tokens, buf[..], q)
      modifies this, buf
      ensures p.Null? ==> q + Lead(s, Delimiters(delim), q) == |s| && Progress(s, Delimiters(delim), done, tokens, buf[..], q)
      ensures p.At? ==> Progress(s, Delimiters(delim), done', tokens + [p.pos], buf[..], q') && q < q' <= |s| && backup == At(buf, q')
    {
      ghost var c, d := buf[..], Delimiters(delim);
      ghost var start := q + Lead(s, d, q);
      ghost var end := start + Run(s, d, start);
      hide Length, Lead, Run, Delimiters, Spans, Found, Past, Ended, Progress;
      ProgressUnread(s, d, done, tokens, c, q);
      p := Next(buf, src, delim, s, q);
      FoundParts(s, d, q, buf, c, p, backup, buf[..]);
      done', q' := done, q;
      if p.At? {
        ProgressNext(s, d, done, tokens, c, buf[..], q, start, end);
        done', q' := done + [Span(start, end)], Past(s, end);
      }
    }

    /** One call in the loop: the next token from q on, s being the original string. */
    method Next(buf: array<char>, src: Pointer, delim: string, ghost s: string, ghost q: nat) returns (p: Pointer)
      requires NUL in delim && Unread(s, buf[..], q) && (if src.At? then src == At(buf, q) else backup == At(buf, q))
      modifies this, buf
      ensures Found(s, Delimiters(delim), q, buf, old(buf[..]), p, backup, buf[..])
    {
      ghost var c, d := buf[..], Delimiters(delim);
      hide Length, Lead, Run, Delimiters, StringAt;
      RestOf(s, c, q);
      assert buf[q..] == c[q..];
      ghost var place := backup;
      p := Strtok(src, delim);
      hide Unread;
      FoundFrom(s, c, q, delim, buf, p, place, backup, buf[..]);
    }
  }

  /** The call found the token that begins at the first character from q on that is no delimiter. */
  ghost predicate Found(s: string, d: set<char>, q: nat, buf: array<char>, c: string, p: Pointer, place': Pointer, c': string) {
    && q <= |s| < |c|
    && var start := q + Lead(s, d, q);
       var end := start + Run(s, d, start);
       && (p.Null? <==> start == |s|) && (p.Null? ==> c' == c)
       && (p.At? ==> start < end && p == At(buf, start) && place' == At(buf, Past(s, end)) && c' == Ended(c, s, end))
  }

  /** The buffer with the delimiter behind a token overwritten. */
  function Ended(c: string, s: string, end: nat): string
    requires end <= |s| < |c|
  {
    if end < |s| then c[end := NUL] else c
  }

  lemma FoundFrom(s: string, c: string, q: nat, delim: string, buf: array<char>, p: Pointer, place: Pointer, place': Pointer, c': string)
    requires NUL in delim && Unread(s, c, q) && Answers(At(buf, q), c, delim, p, place, place', c') && StringAt(c, q) == s[q..]
    ensures Found(s, Delimiters(delim), q, buf, c, p, place', c')
  {
    var d := Delimiters(delim);
    var start := q + Lead(s, d, q);
    LeadShift(s, d, q);
    RunShift(s, d, q, start);
    LeadFacts(s, d, q);
    RunFacts(s, d, start);
    assert Outcome(At(buf, q), c, Lead(s, d, q), Run(s, d, start), |s| - q, p, place, place', c');
    hide Length, Lead, Run, Delimiters, StringAt, Spans, Answers;
  }

  /** The token at q is the first of those that are left. */
  lemma SpansNext(s: string, d: set<char>, done: seq<Span>, q: nat)
    requires q <= |s| && q + Lead(s, d, q) < |s|
    ensures var start := q + Lead(s, d, q);
            var end := start + Run(s, d, start);
            done + Spans(s, d, q) == (done + [Span(start, end)]) + Spans(s, d, Past(s, end))
  {
    var start := q + Lead(s, d, q);
    var end := start + Run(s, d, start);
    RunFacts(s, d, start);
    SpansUnfold(s, d, q);
    SpansAfter(s, d, end);
    hide Spans, Lead, Run, Past;
    Append(done, Span(start, end), Spans(s, d, end));
  }

  /** Where the search goes on after a token: behind the delimiter that ended it. */
  function Past(s: string, end: nat): nat {
    if end < |s| then end + 1 else end
  }

  lemma SpansUnfold(s: string, d: set<char>, from: nat)
    requires from <= |s| && from + Lead(s, d, from) < |s|
    ensures var start := from + Lead(s, d, from);
            var end := start + Run(s, d, start);
            Spans(s, d, from) == [Span(start, end)] + Spans(s, d, end)
  {
  }

  lemma SpansAfter(s: string, d: set<char>, end: nat)
    requires end <= |s| && (end < |s| ==> s[end] in d)
    ensures Spans(s, d, end) == Spans(s, d, Past(s, end))
  {
    if end < |s| { SpansSkip(s, d, end); }
  }

  lemma Append(done: seq<Span>, t: Span, rest: seq<Span>)
    ensures done + ([t] + rest) == (done + [t]) + rest
  {
  }

  lemma FoundParts(s: string, d: set<char>, q: nat, buf: array<char>, c: string, p: Pointer, place': Pointer, c': string)
    requires Found(s, d, q, buf, c, p, place', c')
    ensures q <= |s| && (p.Null? <==> q + Lead(s, d, q) == |s|) && (p.Null? ==> c' == c)
    ensures var start := q + Lead(s, d, q);
            var end := start + Run(s, d, start);
            p.At? ==> q <= start < end <= |s| && p == At(buf, start) && |s| < |c| && place' == At(buf, Past(s, end)) && c' == Ended(c, s, end)
                      && q < Past(s, end) <= |s|
  {
  }

  lemma NothingLeft(s: string, d: set<char>, q: nat)
    requires q <= |s| && q + Lead(s, d, q) == |s|
    ensures Spans(s, d, q) == []
  {
  }

  /** In the middle of the loop: `done` are the tokens found so far, the rest begins at q. */
  ghost predicate Progress(s: string, d: set<char>, done: seq<Span>, tokens: seq<nat>, c: string, q: nat) {
    Unread(s, c, q) && Settled(s, done, tokens, c, q) && done + Spans(s, d, q) == Spans(s, d, 0)
  }

  lemma ProgressStart(b: string, delim: string)
    requires NUL in b[0..] && NUL in delim
    ensures Progress(StringAt(b, 0), Delimiters(delim), [], [], b, 0)
  {
    StringFacts(b, 0);
    var s, d := StringAt(b, 0), Delimiters(delim);
    hide StringAt, Delimiters, Spans;
    assert [] + Spans(s, d, 0) == Spans(s, d, 0);
  }

  lemma ProgressUnread(s: string, d: set<char>, done: seq<Span>, tokens: seq<nat>, c: string, q: nat)
    requires Progress(s, d, done, tokens, c, q)
    ensures Unread(s, c, q)
  {
  }

  lemma ProgressNext(s: string, d: set<char>, done: seq<Span>, tokens: seq<nat>, c: string, c': string, q: nat, start: nat, end: nat)
    requires Progress(s, d, done, tokens, c, q) && q <= |s| && start == q + Lead(s, d, q) && start < |s| < |c|
    requires end == start + Run(s, d, start) && start < end && c' == Ended(c, s, end)
    ensures Progress(s, d, done + [Span(start, end)], tokens + [start], c', Past(s, end))
  {
    SettledNext(s, done, tokens, c, c', q, start, end);
    SpansNext(s, d, done, q);
    hide Spans, Lead, Run, Past, Ended, Settled, Unread;
  }

  lemma ProgressEnds(b: string, delim: string, done: seq<Span>, tokens: seq<nat>, c: string, q: nat)
    requires NUL in b[0..] && NUL in delim
    requires var s, d := StringAt(b, 0), Delimiters(delim); Progress(s, d, done, tokens, c, q) && q <= |s| && q + Lead(s, d, q) == |s|
    ensures Tokenized(b, delim, tokens, c)
  {
    var s, d := StringAt(b, 0), Delimiters(delim);
    NothingLeft(s, d, q);
    hide StringAt, Delimiters, Spans;
    assert done + [] == done;
  }

  /** The positions handed out for the string in b. */
  ghost predicate Tokenized(b: string, delim: string, tokens: seq<nat>, c: string) {
    NUL in b[0..] && NUL in delim && Collected(StringAt(b, 0), Spans(StringAt(b, 0), Delimiters(delim), 0), tokens, c)
  }

  lemma StringFacts(b: string, pos: nat)
    requires pos <= |b| && NUL in b[pos..]
    ensures var s := StringAt(b, pos);
            && pos + |s| < |b| && b[pos + |s|] == NUL && NUL !in s
            && forall i :: 0 <= i < |s| ==> s[i] == b[pos + i] && s[i] != NUL
  {
  }

  /** A string ends at its NUL and nowhere before. */
  lemma StringEnds(b: string, pos: nat, i: nat)
    requires pos <= |b| && NUL in b[pos..] && i <= |StringAt(b, pos)|
    ensures pos + |StringAt(b, pos)| < |b| && (b[pos + i] == NUL <==> i == |StringAt(b, pos)|)
  {
    hide StringAt;
    StringFacts(b, pos);
    var s := StringAt(b, pos);
    assert i < |s| ==> s[i] == b[pos + i];
  }

  // ---------------------------------------------------------------- a whole string

  lemma {:induction false} LeadFrom(s: string, d: set<char>, q: nat, from: nat)
    requires q + from <= |s|
    ensures Lead(s[q..], d, from) == Lead(s, d, q + from)
    decreases |s| - q - from
  {
    if q + from < |s| {
      LeadFrom(s, d, q, from + 1);
    }
  }

  lemma {:induction false} RunFrom(s: string, d: set<char>, q: nat, from: nat)
    requires q + from <= |s|
    ensures Run(s[q..], d, from) == Run(s, d, q + from)
    decreases |s| - q - from
  {
    if q + from < |s| {
      RunFrom(s, d, q, from + 1);
    }
  }

  lemma LeadShift(s: string, d: set<char>, q: nat)
    requires q <= |s|
    ensures Lead(s[q..], d, 0) == Lead(s, d, q)
    ensures q + Lead(s, d, q) == |s| ==> Spans(s, d, q) == []
  {
    LeadFrom(s, d, q, 0);
  }

  lemma RunShift(s: string, d: set<char>, q: nat, start: nat)
    requires q <= start <= |s|
    ensures Run(s[q..], d, start - q) == Run(s, d, start)
  {
    RunFrom(s, d, q, start - q);
  }

  /** The part of the string from q on has not been touched. */
  ghost predicate Unread(s: string, c: string, q: nat) {
    q <= |s| < |c| && c[|s|] == NUL && NUL !in s && forall i :: q <= i < |s| ==> c[i] == s[i]
  }

  lemma RestOf(s: string, c: string, q: nat)
    requires Unread(s, c, q)
    ensures NUL in c[q..] && StringAt(c, q) == s[q..]
  {
    forall i | q <= i < |s| ensures c[i] != NUL { assert s[i] in s; }
    LengthIs(c, q, |s| - q);
    assert c[q..|s|] == s[q..];
  }

  /** A token in the buffer: its characters, then a NUL. */
  ghost predicate Stands(s: string, t: Span, c: string) {
    t.start < t.end <= |s| && t.end < |c| && c[t.end] == NUL && forall i :: t.start <= i < t.end ==> c[i] == s[i]
  }

  ghost predicate Settled(s: string, done: seq<Span>, tokens: seq<nat>, c: string, q: nat) {
    && |tokens| == |done|
    && (forall i :: 0 <= i < |done| ==> tokens[i] == done[i].start && Stands(s, done[i], c) && (done[i].end < q || q == |s|))
  }

  /** The next token stands, and the earlier ones still do. */
  lemma SettledNext(s: string, done: seq<Span>, tokens: seq<nat>, c: string, c': string, q: nat, start: nat, end: nat)
    requires Settled(s, done, tokens, c, q) && Unread(s, c, q) && q <= start < end <= |s|
    requires c' == Ended(c, s, end)
    ensures Settled(s, done + [Span(start, end)], tokens + [start], c', Past(s, end))
    ensures Unread(s, c', Past(s, end))
  {
    forall i | 0 <= i < |done| ensures Stands(s, done[i], c') {
      assert Stands(s, done[i], c);
    }
  }

  /** The positions handed out are those of the tokens of s, in order, and the buffer now reads as these tokens there. */
  ghost predicate Collected(s: string, spans: seq<Span>, tokens: seq<nat>, c: string) {
    && |tokens| == |spans|
    && (forall i :: 0 <= i < |spans| ==> tokens[i] == spans[i].start && Stands(s, spans[i], c))
  }

  /** A token that stands in the buffer is the C string at its start. */
  lemma StandsAsString(s: string, t: Span, c: string)
    requires Stands(s, t, c) && NUL !in s
    ensures NUL in c[t.start..] && StringAt(c, t.start) == s[t.start..t.end]
  {
    forall i | t.start <= i < t.end ensures c[i] != NUL { assert s[i] in s; }
    LengthIs(c, t.start, t.end - t.start);
  }
  /** The C strings handed out are the maximal stretches without delimiters, each once and from left to right. */
  lemma TokensAre(b: string, delim: string, tokens: seq<nat>, c: string)
    requires Tokenized(b, delim, tokens, c)
    ensures var s, d := StringAt(b, 0), Delimiters(delim);
            && (forall i :: 0 <= i < |tokens| ==> IsToken(s, d, Spans(s, d, 0), i, tokens[i], c))
            && (forall t :: Maximal(s, d, t) ==> t in Spans(s, d, 0)) && |Spans(s, d, 0)| == |tokens|
            && (forall i, j :: 0 <= i < j < |tokens| ==> tokens[i] < tokens[j])
  {
    var s, d := StringAt(b, 0), Delimiters(delim);
    StringFacts(b, 0);
    SpansOrdered(s, d, 0);
    hide StringAt, Delimiters, Spans;
    var spans := Spans(s, d, 0);
    forall i | 0 <= i < |tokens| ensures IsToken(s, d, spans, i, tokens[i], c) {
      StandsAsString(s, spans[i], c);
      SpansExact(s, d, 0, spans[i]);
    }
    forall t | Maximal(s, d, t) ensures t in spans {
      SpansExact(s, d, 0, t);
    }
    forall i, j | 0 <= i < j < |tokens| ensures tokens[i] < tokens[j] {
      assert spans[i].end < spans[j].start && Stands(s, spans[i], c);
    }
  }

  /** The string at position p of the buffer is the i-th span, a maximal one. */
  ghost predicate IsToken(s: string, d: set<char>, spans: seq<Span>, i: int, p: nat, c: string) {
    && 0 <= i < |spans| && p == spans[i].start && Maximal(s, d, spans[i])
    && p <= |c| && NUL in c[p..] && StringAt(c, p) == s[p..spans[i].end]
  }
}
