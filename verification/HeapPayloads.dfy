/** What callers have stored: the calls of the heap write only words that belong to no live payload. */
module HeapPayloads {
  import opened LinkedLists
  import opened HeapModel
  import opened HeapOps
  import opened HeapMemory

  /** Chunk a of u, which maps chunks in use to their sizes, has x among its payload words; the last is the foot word it borrows. */
  predicate OwnWord(u: map<int, int>, a: int, x: int) {
    a in u && a + 8 <= x <= a + u[a]
  }

  /** No payload word of u that is mapped before and after has changed. */
  ghost predicate Keeps(m: Mem, m': Mem, u: map<int, int>) {
    forall a, x :: OwnWord(u, a, x) && x in m && x in m' ==> m'[x] == m[x]
  }

  ghost predicate Spare(u: map<int, int>, x: int) {
    forall a :: !OwnWord(u, a, x)
  }

  /** The chunks of u are in use. */
  ghost predicate Within(u: map<int, int>, h: Heap) {
    forall a :: a in u ==> a in Users(h) && Users(h)[a] == u[a]
  }

  lemma KeepsSame(m: Mem, u: map<int, int>)
    ensures Keeps(m, m, u)
  {
  }

  lemma KeepsStore(m: Mem, x: int, v: int, u: map<int, int>)
    requires Spare(u, x)
    ensures Keeps(m, m[x := v], u)
  {
  }

  lemma KeepsTrans(m: Mem, m1: Mem, m2: Mem, u: map<int, int>)
    requires Keeps(m, m1, u) && Keeps(m1, m2, u) && m.Keys * m2.Keys <= m1.Keys
    ensures Keeps(m, m2, u)
  {
    forall a, x | OwnWord(u, a, x) && x in m && x in m2 ensures m2[x] == m[x] {
      assert x in m.Keys * m2.Keys;
    }
  }

  lemma KeepsFewer(m: Mem, m': Mem, u: map<int, int>, u': map<int, int>)
    requires Keeps(m, m', u) && forall a :: a in u' ==> a in u && u[a] == u'[a]
    ensures Keeps(m, m', u')
  {
    forall a, x | OwnWord(u', a, x) && x in m && x in m' ensures m'[x] == m[x] {
      assert OwnWord(u, a, x);
    }
  }

  /** The head word of a chunk is no payload word. */
  lemma TagSpare(h: Heap, u: map<int, int>, b: int)
    requires Tiled(h.chunks, h.start, h.end) && Within(u, h) && b in h.chunks
    ensures Spare(u, b + 4)
  {
    var x := b + 4;
    forall a ensures !OwnWord(u, a, x) {
      if a in u {
        if a < b { Ordered(h.chunks, h.start, h.end, a, b); }
      }
    }
  }

  /** From its head word to its foot, nothing of a chunk that is not in u is a payload word. */
  lemma GapSpare(h: Heap, u: map<int, int>, b: int, x: int)
    requires Tiled(h.chunks, h.start, h.end) && Within(u, h) && b in h.chunks && b !in u && b + 4 <= x <= b + h.chunks[b].size
    ensures Spare(u, x)
  {
    forall a ensures !OwnWord(u, a, x) {
      if a in u {
        assert a in h.chunks && h.chunks[a].size == u[a];
        if a < b { Ordered(h.chunks, h.start, h.end, a, b); }
        if b < a { Ordered(h.chunks, h.start, h.end, b, a); }
      }
    }
  }

  lemma FreeNotIn(h: Heap, u: map<int, int>, b: int)
    requires Within(u, h) && IsFree(h.chunks, b)
    ensures b !in u
  {
  }

  /** Nor are the links of free chunks, or of the heap's list_head. */
  ghost predicate CellsOff(u: map<int, int>, head: int, f: seq<int>) {
    forall x :: Cell(x, head, f) ==> Spare(u, x)
  }

  lemma HeadSpare(h: Heap, u: map<int, int>, head: int, x: int)
    requires Tiled(h.chunks, h.start, h.end) && Within(u, h) && h.end <= h.max && HeadAside(head, h) && (x == head || x == head + 4)
    ensures Spare(u, x)
  {
    forall a ensures !OwnWord(u, a, x) {
      if a in u {
        assert a in h.chunks && h.chunks[a].size == u[a];
        assert Good(h.chunks, h.start, h.end, a);
        if a != h.end { assert Good(h.chunks, h.start, h.end, a + h.chunks[a].size); }
      }
    }
  }

  lemma FreeCells(h: Heap, u: map<int, int>, head: int, f: seq<int>)
    requires Tiled(h.chunks, h.start, h.end) && Within(u, h) && AllFree(h.chunks, f) && h.end <= h.max && HeadAside(head, h)
    ensures CellsOff(u, head, f)
  {
    hide Tiled, Within, HeadAside, Spare;
    forall x | Cell(x, head, f) ensures Spare(u, x) {
      if x in f || x - 4 in f {
        var l := if x in f then x else x - 4;
        FreeLink(h, u, f, l);
      } else {
        HeadSpare(h, u, head, x);
      }
    }
  }

  lemma FreeLink(h: Heap, u: map<int, int>, f: seq<int>, l: int)
    requires Tiled(h.chunks, h.start, h.end) && Within(u, h) && AllFree(h.chunks, f) && l in f
    ensures Spare(u, l) && Spare(u, l + 4)
  {
    hide Spare, Within;
    assert IsFree(h.chunks, Entry(l));
    assert Good(h.chunks, h.start, h.end, Entry(l));
    FreeNotIn(h, u, Entry(l));
    GapSpare(h, u, Entry(l), l);
    GapSpare(h, u, Entry(l), l + 4);
  }

  /** A shorter list with one node more. */
  lemma CellsPlus(u: map<int, int>, head: int, f: seq<int>, f': seq<int>, l: int)
    requires CellsOff(u, head, f) && Spare(u, l) && Spare(u, l + 4) && forall x :: x in f' ==> x in f || x == l
    ensures CellsOff(u, head, f')
  {
    hide Spare;
    forall x | Cell(x, head, f') ensures Spare(u, x) {
      assert x == l || x == l + 4 || Cell(x, head, f);
    }
  }

  lemma KeepsLinks(m: Mem, m': Mem, u: map<int, int>, head: int, f: seq<int>)
    requires CellsOff(u, head, f) && OffList(m, m', head, f)
    ensures Keeps(m, m', u) && m'.Keys == m.Keys
  {
    hide Cell;
  }

  /** set_inuse */
  lemma KeepsUse(m: Mem, p: int, s: int, end: int, u: map<int, int>)
    requires p + 4 in m && (p + s != end ==> p + s + 4 in m)
    requires Spare(u, p + 4) && (p + s != end ==> Spare(u, p + s + 4))
    ensures Keeps(m, UseWords(m, p, s, end), u) && UseWords(m, p, s, end).Keys == m.Keys
  {
    var m1 := m[p + 4 := (if PInUse(m[p + 4]) then 1 else 0) + 2 + s];
    KeepsStore(m, p + 4, m1[p + 4], u);
    if p + s != end {
      KeepsStore(m1, p + s + 4, SetPInUse(m1[p + s + 4]), u);
      KeepsTrans(m, m1, m1[p + s + 4 := SetPInUse(m1[p + s + 4])], u);
    }
  }
}
