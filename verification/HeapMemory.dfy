/** How the values of HeapModel are laid out in memory words: headers, feet and list links. */
module HeapMemory {
  import opened LinkedLists
  import opened HeapModel
  import opened HeapOps

  // ---------------------------------------------------------------- the head word of a chunk

  /** Size, CINUSE_BIT and PINUSE_BIT of chunk a, packed as in the `head` field. */
  function HeadWord(c: Chunks, start: int, a: int): int
    requires a in c
  {
    c[a].size + (if c[a].used then 2 else 0) + (if LowUsed(c, start, a) then 1 else 0)
  }

  /** chunksize */
  function ChunkSize(word: int): int { word - word % 8 }

  /** pinuse */
  predicate PInUse(word: int) { word % 2 == 1 }

  /** cinuse */
  predicate CInUse(word: int) { word / 2 % 2 == 1 }

  /** head | PINUSE_BIT */
  function SetPInUse(word: int): int { if PInUse(word) then word else word + 1 }

  /** head & ~PINUSE_BIT */
  function ClearPInUse(word: int): int { if PInUse(word) then word - 1 else word }

  lemma WordBits(c: Chunks, start: int, a: int)
    requires a in c && c[a].size % 8 == 0
    ensures var w := HeadWord(c, start, a);
            ChunkSize(w) == c[a].size && (PInUse(w) <==> LowUsed(c, start, a)) && (CInUse(w) <==> c[a].used)
  {
  }

  // ---------------------------------------------------------------- memory that represents a heap

  predicate Header(m: Mem, c: Chunks, start: int, end: int, a: int) {
    a in c && a != end ==> a + 4 in m && m[a + 4] == HeadWord(c, start, a)
  }

  /** prevFoot of chunk a holds the size of the chunk below when that one is free. */
  predicate Footer(m: Mem, c: Chunks, start: int, end: int, a: int) {
    a in c && a != end && !LowUsed(c, start, a) ==> a in m && m[a] == c[c[a].prev].size
  }

  /** The mapped words are those of [start, end) and the list_head inside the Heap_t. */
  ghost predicate Pages(m: Mem, head: int, start: int, end: int) {
    forall x :: x in m <==> start <= x < end || x == head || x == head + 4
  }

  /** The Heap_t lies outside the range the heap may ever cover. */
  predicate HeadAside(head: int, h: Heap) {
    head + 8 <= h.start || h.max + 8 <= head
  }

  /** Headers and feet are right, the heads of the chunks in `stale` aside. */
  ghost predicate Tagged(m: Mem, c: Chunks, start: int, end: int, stale: set<int>) {
    && (forall a {:trigger Header(m, c, start, end, a)} :: a in c && a !in stale ==> Header(m, c, start, end, a))
    && (forall a {:trigger Footer(m, c, start, end, a)} :: a in c ==> Footer(m, c, start, end, a))
  }

  ghost predicate Rep(m: Mem, head: int, h: Heap, stale: set<int>) {
    && HeadAside(head, h) && Pages(m, head, h.start, h.end)
    && Ring(m, head, h.free) && Tagged(m, h.chunks, h.start, h.end, stale)
  }

  /** What the words of chunk a say: its size, a multiple of eight, plus 2 if it is in use, plus 1 if the chunk below is; else the word before is that one's size. */
  lemma TagBits(m: Mem, head: int, h: Heap, a: int)
    requires Inv(h) && Rep(m, head, h, {}) && a in h.chunks && a != h.end
    ensures a + 4 in m && h.chunks[a].size % 8 == 0
    ensures m[a + 4] == h.chunks[a].size + (if h.chunks[a].used then 2 else 0) + if LowUsed(h.chunks, h.start, a) then 1 else 0
    ensures !LowUsed(h.chunks, h.start, a) ==> a in m && m[a] == h.chunks[h.chunks[a].prev].size
  {
    hide Ring, LowUsed, Shaped, Bounds;
    assert Header(m, h.chunks, h.start, h.end, a) && Footer(m, h.chunks, h.start, h.end, a) && EightAt(h.chunks, a);
  }

  // ---------------------------------------------------------------- words apart

  /** x is a word of the list_head of the heap or of one on the list f. */
  predicate Cell(x: int, head: int, f: seq<int>) {
    x == head || x == head + 4 || x in f || x - 4 in f
  }

  ghost predicate OffList(m: Mem, m': Mem, head: int, f: seq<int>) {
    m'.Keys == m.Keys && forall x :: x in m && !Cell(x, head, f) ==> m'[x] == m[x]
  }

  ghost predicate AllFree(c: Chunks, f: seq<int>) {
    forall l :: l in f ==> IsFree(c, Entry(l))
  }

  /** The tags of a chunk are not list cells. */
  lemma TagsOffList(c: Chunks, start: int, end: int, f: seq<int>, head: int, a: int)
    requires Tiled(c, start, end) && AllFree(c, f) && a in c && (head + 8 <= start || end <= head)
    ensures a != end ==> !Cell(a, head, f) && !Cell(a + 4, head, f)
  {
    assert Good(c, start, end, a);
    if a != end {
      Below(c, start, end, a);
      forall l | l in f ensures l != a && l != a + 4 && l + 4 != a && l + 4 != a + 4 {
        var b := Entry(l);
        assert IsFree(c, b);
        assert Good(c, start, end, b);
        if b < a { Ordered(c, start, end, b, a); }
        if a < b { Ordered(c, start, end, a, b); }
      }
    }
  }

  /** Changing links keeps the tags. */
  lemma TaggedOffList(m: Mem, m': Mem, c: Chunks, start: int, end: int, stale: set<int>, head: int, f: seq<int>)
    requires Tagged(m, c, start, end, stale) && Tiled(c, start, end) && AllFree(c, f) && (head + 8 <= start || end <= head)
    requires OffList(m, m', head, f)
    ensures Tagged(m', c, start, end, stale)
  {
    forall a | a in c && a !in stale ensures Header(m', c, start, end, a) {
      assert Header(m, c, start, end, a);
      TagsOffList(c, start, end, f, head, a);
    }
    forall a | a in c ensures Footer(m', c, start, end, a) {
      assert Footer(m, c, start, end, a);
      TagsOffList(c, start, end, f, head, a);
    }
  }

  lemma SoundAllFree(c: Chunks, free: seq<int>)
    requires ListSound(c, free)
    ensures AllFree(c, free)
  {
  }

  lemma AtIn(head: int, s: seq<int>, i: int)
    ensures At(head, s, i) == head || At(head, s, i) in s
  {
  }

  lemma LinkOffList(m: Mem, head: int, s: seq<int>, i: int, node: int)
    requires Ring(m, head, s) && 0 <= i <= |s| && Mapped(m, node) && Outside(node, head, s)
    ensures OffList(m, Link(m, node, At(head, s, i - 1), At(head, s, i)), head, s + [node])
  {
    LinkStores(m, head, s, i, node);
    AtIn(head, s, i);
    AtIn(head, s, i - 1);
  }

  lemma UnlinkOffList(m: Mem, head: int, s: seq<int>, i: int)
    requires Ring(m, head, s) && 0 <= i < |s|
    ensures OffList(m, Unlink(m, At(head, s, i - 1), At(head, s, i + 1)), head, s)
  {
    RingLinks(m, head, s, i);
    RingLinks(m, head, s, i + 1);
    AtIn(head, s, i + 1);
    AtIn(head, s, i - 1);
  }

  /** The list_head of a chunk that is not on the list shares no word with those that are. */
  lemma NodeOutside(c: Chunks, start: int, end: int, f: seq<int>, head: int, a: int)
    requires Tiled(c, start, end) && AllFree(c, f) && a in c && a != end && Node(a) !in f && (head + 8 <= start || end <= head)
    ensures Outside(Node(a), head, f)
  {
    Below(c, start, end, a);
    assert Good(c, start, end, a);
    forall i | 0 <= i < |f| ensures Apart(Node(a), f[i]) {
      var b := Entry(f[i]);
      assert f[i] in f && IsFree(c, b);
      assert Good(c, start, end, b);
      if b < a { Ordered(c, start, end, b, a); }
      if a < b { Ordered(c, start, end, a, b); }
    }
  }

  lemma NodeMapped(m: Mem, head: int, h: Heap, a: int)
    requires Pages(m, head, h.start, h.end) && Tiled(h.chunks, h.start, h.end) && a in h.chunks && a != h.end
    ensures Mapped(m, Node(a)) && a in m && a + 4 in m
  {
    Below(h.chunks, h.start, h.end, a);
    assert Good(h.chunks, h.start, h.end, a);
  }

  // ---------------------------------------------------------------- single stores

  lemma RingStore(m: Mem, head: int, f: seq<int>, x: int, v: int)
    requires Ring(m, head, f) && !Cell(x, head, f) && x in m
    ensures Ring(m[x := v], head, f)
  {
    forall i | 0 <= i < |f| ensures x != f[i] && x != f[i] + 4 { assert f[i] in f; }
    RingFrame(m, m[x := v], head, f);
  }

  /** Words inside a chunk that is not on the list are not list cells. */
  lemma InsideOffList(c: Chunks, start: int, end: int, f: seq<int>, head: int, a: int, x: int)
    requires Tiled(c, start, end) && AllFree(c, f) && a in c && Node(a) !in f && (head + 8 <= start || end <= head)
    requires a <= x < a + c[a].size
    ensures !Cell(x, head, f)
  {
    assert Good(c, start, end, a);
    Below(c, start, end, a);
    forall l | l in f ensures l != x && l + 4 != x {
      var b := Entry(l);
      assert IsFree(c, b) && l == Node(b);
      assert Good(c, start, end, b);
      if b < a { Ordered(c, start, end, b, a); }
      if a < b { Ordered(c, start, end, a, b); }
    }
  }

  /** Writing the head word of chunk a. */
  lemma PutHead(m: Mem, c: Chunks, start: int, end: int, stale: set<int>, a: int)
    requires Tiled(c, start, end) && Tagged(m, c, start, end, stale) && a in c && a != end
    ensures Tagged(m[a + 4 := HeadWord(c, start, a)], c, start, end, stale - {a})
  {
    var m' := m[a + 4 := HeadWord(c, start, a)];
    forall b | b in c && b !in stale - {a} ensures Header(m', c, start, end, b) {
      assert b != a ==> Header(m, c, start, end, b);
    }
    forall b | b in c ensures Footer(m', c, start, end, b) {
      assert Footer(m, c, start, end, b);
      NotHead(c, start, end, a, b);
    }
  }

  /** No chunk starts at the head word of another. */
  lemma NotHead(c: Chunks, start: int, end: int, a: int, b: int)
    requires Tiled(c, start, end) && a in c && b in c && a != end
    ensures b != a + 4
  {
    assert Good(c, start, end, a);
    if a < b { Ordered(c, start, end, a, b); }
  }

  /** alloc, lines 231-238: the head and the foot of what is left over; the head is completed by set_inuse. */
  function CarveWords(m: Mem, c: Chunks, end: int, a: int, nb: int): Mem
    requires a in c
  {
    var m1 := m[a + nb + 4 := c[a].size - nb];
    if a + c[a].size == end then m1 else m1[a + c[a].size := c[a].size - nb]
  }

  lemma CarveTags(m: Mem, c: Chunks, start: int, end: int, a: int, nb: int)
    requires Tiled(c, start, end) && Tagged(m, c, start, end, {}) && IsFree(c, a) && Good(c, start, end, a) && a != end
    requires LowUsed(c, start, a) && c[a + c[a].size].used
    requires MIN_CHUNK_SIZE <= nb && c[a].size >= nb + MIN_CHUNK_SIZE
    ensures a + nb !in c
    ensures Tagged(CarveWords(m, c, end, a, nb), Mark(Split(c, a, nb), a, true), start, end, {a, a + nb})
  {
    var n, e := a + nb, a + c[a].size;
    SplitTiled(c, start, end, a, nb);
    var m', c' := CarveWords(m, c, end, a, nb), Mark(Split(c, a, nb), a, true);
    forall b | b in c' ensures b !in {a, n} ==> Header(m', c', start, end, b) {
      CarveTag(m, c, start, end, a, nb, b);
    }
    forall b | b in c' ensures Footer(m', c', start, end, b) {
      CarveTag(m, c, start, end, a, nb, b);
    }
  }

  lemma CarveTag(m: Mem, c: Chunks, start: int, end: int, a: int, nb: int, b: int)
    requires Tiled(c, start, end) && Tagged(m, c, start, end, {}) && IsFree(c, a) && Good(c, start, end, a) && a != end
    requires LowUsed(c, start, a) && c[a + c[a].size].used
    requires MIN_CHUNK_SIZE <= nb && c[a].size >= nb + MIN_CHUNK_SIZE && a + nb !in c
    requires b in Mark(Split(c, a, nb), a, true)
    ensures var m', c' := CarveWords(m, c, end, a, nb), Mark(Split(c, a, nb), a, true);
            (b != a && b != a + nb ==> Header(m', c', start, end, b)) && Footer(m', c', start, end, b)
  {
    var n, e := a + nb, a + c[a].size;
    if b in c {
      assert Good(c, start, end, b) && Good(c, start, end, e);
      if b != start { assert Good(c, start, end, c[b].prev); }
      assert Header(m, c, start, end, b) && Footer(m, c, start, end, b);
      if b != end { NotHead(c, start, end, b, e); }
      if a < b { Ordered(c, start, end, a, b); }
      if b < a { Ordered(c, start, end, b, a); }
    }
  }

  /** set_inuse(p, s); the chunk after p is left alone when p is the last one. */
  function UseWords(m: Mem, p: int, s: int, end: int): Mem
    requires p + 4 in m && (p + s != end ==> p + s + 4 in m)
  {
    var m1 := m[p + 4 := (if PInUse(m[p + 4]) then 1 else 0) + 2 + s];
    if p + s == end then m1 else m1[p + s + 4 := SetPInUse(m1[p + s + 4])]
  }

  lemma UseTags(m: Mem, c: Chunks, start: int, end: int, a: int)
    requires Tiled(c, start, end) && a in c && a != end && c[a].used && a + 4 in m
    requires Tagged(m, c, start, end, {a, a + c[a].size})
    requires PInUse(m[a + 4]) <==> LowUsed(c, start, a)
    requires var n := a + c[a].size; n != end ==> n in c && n + 4 in m && SetPInUse(m[n + 4]) == HeadWord(c, start, n)
    ensures Tagged(UseWords(m, a, c[a].size, end), c, start, end, {})
  {
    var n := a + c[a].size;
    assert Good(c, start, end, a);
    var m1 := m[a + 4 := (if PInUse(m[a + 4]) then 1 else 0) + 2 + c[a].size];
    PutHead(m, c, start, end, {a, n}, a);
    assert {a, n} - {a} == {n};
    if n != end {
      PutHead(m1, c, start, end, {n}, n);
    } else {
      assert Header(m1, c, start, end, n);
      forall b | b in c && b !in {} ensures Header(m1, c, start, end, b) {
        assert b != n ==> Header(m1, c, start, end, b);
      }
    }
    assert {n} - {n} == {};
  }

  // ---------------------------------------------------------------- free

  /** c' is c with everything in [b, e) melted into one free chunk. */
  ghost predicate Flat(c: Chunks, c': Chunks, b: int, e: int) {
    && b in c && b in c' && e in c' && b < e && c'[b] == Chunk(e - b, false, c[b].prev) && c'[e].prev == b
    && (forall x :: x in c' && x != b ==>
          x in c && (x < b || x >= e) && c'[x].size == c[x].size && c'[x].used == c[x].used && (x != e ==> c'[x].prev == c[x].prev))
    && (forall x :: x in c && (x < b || x >= e) ==> x in c')
  }

  lemma FlatMark(c: Chunks, start: int, end: int, a: int)
    requires Tiled(c, start, end) && a in c && a != end
    ensures Flat(c, Mark(c, a, false), a, a + c[a].size)
  {
    assert Good(c, start, end, a);
    forall x | x in c && x != a ensures x < a || x >= a + c[a].size {
      if a < x { Ordered(c, start, end, a, x); }
    }
  }

  lemma FlatDown(c: Chunks, start: int, end: int, a: int, p: int)
    requires Tiled(c, start, end) && a in c && a != end && a != start && p == c[a].prev && p in c && !c[p].used
    ensures p in Mark(c, a, false) && p + c[p].size == a && a + c[a].size in c && p != a && a + c[a].size != p
    ensures Flat(c, Join(Mark(c, a, false), p), p, a + c[a].size)
  {
    assert Good(c, start, end, a) && Good(c, start, end, p);
    assert Good(c, start, end, a + c[a].size);
    var c' := Join(Mark(c, a, false), p);
    assert forall x :: x in c' <==> x in c && x != a;
    forall x | x in c && x != p && x != a ensures x < p || x >= a + c[a].size {
      if a < x { Ordered(c, start, end, a, x); }
      if p < x { Ordered(c, start, end, p, x); }
    }
  }

  lemma FlatUp(c: Chunks, c1: Chunks, start: int, end: int, b: int, n: int)
    requires Flat(c, c1, b, n) && Tiled(c1, start, end) && n in c1 && !c1[n].used && n != end
    ensures b + c1[b].size == n && n + c1[n].size in c1
    ensures Flat(c, Join(c1, b), b, n + c1[n].size)
  {
    assert Good(c1, start, end, n);
    var e := n + c1[n].size;
    assert Good(c1, start, end, e);
    var c' := Join(c1, b);
    assert forall x :: x in c' <==> x in c1 && x != n;
    forall x | x in c1 && x != n && x >= n ensures x >= e {
      Ordered(c1, start, end, n, x);
    }
  }

  /** The stores of free: the next chunk's PINUSE_BIT, the foot, the head. */
  function FreeWords(m: Mem, c: Chunks, start: int, b: int, e: int): Mem
    requires b in c && e in c
  {
    m[e + 4 := HeadWord(c, start, e)][e := e - b][b + 4 := HeadWord(c, start, b)]
  }

  lemma FreeTag(m: Mem, c: Chunks, c': Chunks, start: int, end: int, b: int, e: int, x: int)
    requires Tiled(c, start, end) && Tiled(c', start, end) && Flat(c, c', b, e) && e != end
    requires Tagged(m, c, start, end, {e}) && x in c' && LowUsed(c', start, b)
    ensures var m' := FreeWords(m, c', start, b, e);
            Header(m', c', start, end, x) && Footer(m', c', start, end, x)
  {
    assert Good(c', start, end, x) && Good(c', start, end, b) && Good(c', start, end, e);
    if x != start { assert Good(c', start, end, c'[x].prev); }
    assert x in c && Good(c, start, end, x);
    assert (x != e ==> Header(m, c, start, end, x)) && Footer(m, c, start, end, x);
    if x != end { NotHead(c', start, end, x, e); }
    NotHead(c', start, end, b, x);
    NotHead(c', start, end, e, x);
  }

  lemma FreeTags(m: Mem, c: Chunks, c': Chunks, start: int, end: int, b: int, e: int)
    requires Tiled(c, start, end) && Tiled(c', start, end) && Flat(c, c', b, e) && e != end
    requires Tagged(m, c, start, end, {e}) && LowUsed(c', start, b)
    ensures Tagged(FreeWords(m, c', start, b, e), c', start, end, {})
  {
    forall x | x in c' ensures Header(FreeWords(m, c', start, b, e), c', start, end, x) && Footer(FreeWords(m, c', start, b, e), c', start, end, x) {
      FreeTag(m, c, c', start, end, b, e, x);
    }
  }

  // ---------------------------------------------------------------- the top of the heap

  /** c' agrees with c below b, and above it has at most one free chunk, up to newEnd. */
  ghost predicate TopIs(c: Chunks, c': Chunks, start: int, b: int, newEnd: int) {
    && b in c' && newEnd in c' && b <= newEnd && (b != newEnd ==> !c'[b].used && LowUsed(c', start, b))
    && (forall x :: x in c' ==> x < b || x == b || x == newEnd)
    && (forall x :: x in c' && x < b ==> x in c && c'[x] == c[x])
  }

  /** The two tag words of chunk x are the same in both memories. */
  predicate SameTags(m: Mem, m': Mem, x: int) {
    (x in m ==> x in m' && m'[x] == m[x]) && (x + 4 in m ==> x + 4 in m' && m'[x + 4] == m[x + 4])
  }

  lemma TopTags(m: Mem, m': Mem, c: Chunks, c': Chunks, start: int, end: int, newEnd: int, b: int)
    requires Tiled(c, start, end) && Tiled(c', start, newEnd) && Tagged(m, c, start, end, {}) && TopIs(c, c', start, b, newEnd)
    requires b <= end && forall x :: x in c && x < b ==> SameTags(m, m', x)
    ensures Tagged(m', c', start, newEnd, {b})
  {
    forall x | x in c' ensures (x != b ==> Header(m', c', start, newEnd, x)) && Footer(m', c', start, newEnd, x) {
      assert Good(c', start, newEnd, x);
      if x < b {
        Ordered(c', start, newEnd, x, b);
        assert Good(c, start, end, x);
        assert Header(m, c, start, end, x) && Footer(m, c, start, end, x);
        if x != start { assert Good(c', start, newEnd, c'[x].prev); }
        assert SameTags(m, m', x);
      }
    }
  }

  // ---------------------------------------------------------------- palignedAlloc

  /** palignedAlloc, lines 341-344, with PINUSE_BIT of the new chunk cleared. */
  function LeadWords(m: Mem, c: Chunks, a: int, lead: int): Mem
    requires a in c
  {
    m[a + lead + 4 := c[a].size - lead + 2][a + 4 := lead + 1][a + lead := lead]
  }

  lemma LeadTag(m: Mem, c: Chunks, start: int, end: int, a: int, lead: int, x: int)
    requires Tiled(c, start, end) && Tagged(m, c, start, end, {}) && a in c && a != end && c[a].used && LowUsed(c, start, a)
    requires a + c[a].size in c && MIN_CHUNK_SIZE <= lead <= c[a].size - MIN_CHUNK_SIZE && a + lead !in c
    requires x in Mark(Split(c, a, lead), a, false)
    ensures var m', c' := LeadWords(m, c, a, lead), Mark(Split(c, a, lead), a, false);
            Header(m', c', start, end, x) && Footer(m', c', start, end, x)
  {
    var n, e := a + lead, a + c[a].size;
    assert Good(c, start, end, a);
    if x in c {
      assert Good(c, start, end, x) && Good(c, start, end, e);
      if x != start { assert Good(c, start, end, c[x].prev); }
      assert Header(m, c, start, end, x) && Footer(m, c, start, end, x);
      if a < x { Ordered(c, start, end, a, x); }
      if x < a { Ordered(c, start, end, x, a); }
    }
  }

  lemma LeadTags(m: Mem, c: Chunks, start: int, end: int, a: int, lead: int)
    requires Tiled(c, start, end) && Tagged(m, c, start, end, {}) && a in c && a != end && c[a].used && LowUsed(c, start, a)
    requires a + c[a].size in c && MIN_CHUNK_SIZE <= lead <= c[a].size - MIN_CHUNK_SIZE && a + lead !in c
    ensures Tagged(LeadWords(m, c, a, lead), Mark(Split(c, a, lead), a, false), start, end, {})
  {
    var m', c' := LeadWords(m, c, a, lead), Mark(Split(c, a, lead), a, false);
    forall x | x in c' ensures Header(m', c', start, end, x) && Footer(m', c', start, end, x) {
      LeadTag(m, c, start, end, a, lead, x);
    }
  }

  /** palignedAlloc, lines 355-356: two heads. */
  function CutWords(m: Mem, c: Chunks, start: int, a: int, nb: int): Mem
    requires a in c
  {
    m[a + 4 := nb + 2 + if LowUsed(c, start, a) then 1 else 0][a + nb + 4 := c[a].size - nb + 3]
  }

  lemma CutTag(m: Mem, c: Chunks, start: int, end: int, a: int, nb: int, x: int)
    requires Tiled(c, start, end) && Tagged(m, c, start, end, {}) && a in c && a != end && c[a].used
    requires a + c[a].size in c && MIN_CHUNK_SIZE <= nb <= c[a].size - MIN_CHUNK_SIZE && a + nb !in c
    requires x in Split(c, a, nb)
    ensures var m', c' := CutWords(m, c, start, a, nb), Split(c, a, nb);
            Header(m', c', start, end, x) && Footer(m', c', start, end, x)
  {
    var n, e := a + nb, a + c[a].size;
    assert Good(c, start, end, a);
    if x in c {
      assert Good(c, start, end, x) && Good(c, start, end, e);
      if x != start { assert Good(c, start, end, c[x].prev); }
      assert Header(m, c, start, end, x) && Footer(m, c, start, end, x);
      if a < x { Ordered(c, start, end, a, x); }
      if x < a { Ordered(c, start, end, x, a); }
    }
  }

  lemma CutTags(m: Mem, c: Chunks, start: int, end: int, a: int, nb: int)
    requires Tiled(c, start, end) && Tagged(m, c, start, end, {}) && a in c && a != end && c[a].used
    requires a + c[a].size in c && MIN_CHUNK_SIZE <= nb <= c[a].size - MIN_CHUNK_SIZE && a + nb !in c
    ensures Tagged(CutWords(m, c, start, a, nb), Split(c, a, nb), start, end, {})
  {
    var m', c' := CutWords(m, c, start, a, nb), Split(c, a, nb);
    forall x | x in c' ensures Header(m', c', start, end, x) && Footer(m', c', start, end, x) {
      CutTag(m, c, start, end, a, nb, x);
    }
  }

  // ---------------------------------------------------------------- user writes

  /** x is a payload word of chunk a: past its two tag words, up to and including the foot of the next chunk. */
  predicate PayloadWord(c: Chunks, a: int, x: int) {
    a in c && Node(a) <= x && (x < a + c[a].size || x == a + c[a].size)
  }

  lemma PayloadTags(m: Mem, c: Chunks, start: int, end: int, a: int, x: int, v: int)
    requires Tiled(c, start, end) && Tagged(m, c, start, end, {}) && a in c && a != end && c[a].used && PayloadWord(c, a, x)
    ensures Tagged(m[x := v], c, start, end, {})
  {
    assert Good(c, start, end, a);
    forall b | b in c ensures Header(m[x := v], c, start, end, b) && Footer(m[x := v], c, start, end, b) {
      assert Header(m, c, start, end, b) && Footer(m, c, start, end, b) && Good(c, start, end, b);
      if b < a { Ordered(c, start, end, b, a); }
      if a < b { Ordered(c, start, end, a, b); }
    }
  }

  lemma PayloadRing(m: Mem, c: Chunks, start: int, end: int, head: int, f: seq<int>, a: int, x: int, v: int)
    requires Tiled(c, start, end) && AllFree(c, f) && Ring(m, head, f) && (head + 8 <= start || end + 8 <= head)
    requires a in c && a != end && c[a].used && PayloadWord(c, a, x) && x in m
    ensures Ring(m[x := v], head, f)
  {
    Below(c, start, end, a);
    assert Good(c, start, end, a);
    forall l | l in f ensures l != x && l + 4 != x {
      var b := Entry(l);
      assert IsFree(c, b) && Good(c, start, end, b);
      if b < a { Ordered(c, start, end, b, a); }
      if a < b { Ordered(c, start, end, a, b); }
    }
    RingStore(m, head, f, x, v);
  }

  /** Any store into the payload of a chunk in use leaves the heap intact. */
  lemma PayloadStore(m: Mem, head: int, h: Heap, a: int, x: int, v: int)
    requires Shaped(h, {}) && h.end <= h.max && Rep(m, head, h, {}) && InUse(h, a) && PayloadWord(h.chunks, a, x) && x in m
    ensures Rep(m[x := v], head, h, {})
  {
    hide Ring, Tagged, Tiled;
    SoundAllFree(h.chunks, h.free);
    PayloadTags(m, h.chunks, h.start, h.end, a, x, v);
    PayloadRing(m, h.chunks, h.start, h.end, head, h.free, a, x, v);
  }
}
