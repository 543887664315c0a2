/** free on memory: merging with both neighbours, shrinking, and putting the result on the list. */
module HeapGive {
  import opened LinkedLists
  import opened Machine
  import opened HeapModel
  import opened HeapSteps
  import opened HeapOps
  import opened HeapAlloc
  import opened HeapMemory
  import opened HeapTake
  import opened HeapGrow

  /** The heap with chunk a just unmarked. */
  function Unmarked(h: Heap, a: int): Heap
    requires a in h.chunks
  {
    h.(chunks := Mark(h.chunks, a, false))
  }

  lemma UnmarkedShape(h: Heap, a: int)
    requires Shaped(h, {}) && InUse(h, a)
    ensures Shaped(Unmarked(h, a), {a})
  {
    MarkFree(h, {}, a);
    assert {} + {a} == {a};
  }

  /** Lines 263-274 leave the chunk `b` and this heap in hand. */
  ghost function Lowered(h: Heap, a: int): (Heap, int)
    requires Shaped(h, {}) && InUse(h, a)
  {
    UnmarkedShape(h, a);
    MeltDown(Unmarked(h, a), a)
  }

  /** What free reads from the freed chunk and the foot below it. */
  lemma DownChoice(m: Mem, head: int, h: Heap, a: int)
    requires Ready(m, head, h) && InUse(h, a)
    ensures Shaped(h, {}) && a + 4 in m && ChunkSize(m[a + 4]) == h.chunks[a].size && CInUse(m[a + 4])
    ensures Ring(m, head, h.free)
    ensures var (h1, b) := Lowered(h, a);
            && Shaped(h1, {b}) && b in h1.chunks && LowUsed(h1.chunks, h.start, b) && b + h1.chunks[b].size == a + h.chunks[a].size
            && h1.start == h.start && h1.end == h.end && h1.max == h.max
            && (if PInUse(m[a + 4]) then b == a && h1.free == h.free
                else a in m && b == a - m[a] && h.start <= b < h.end && Node(b) in h.free
                     && h1.free == RemoveAt(h.free, IndexOf(h.free, Node(b))))
  {
    hide Shaped, Ring, Tagged, Ready, RemoveAt, IndexOf, ChunkSize, CInUse, PInUse, Inv, Pages, MeltDown, Users, HeadWord;
    ReadyIs(m, head, h);
    Around(h, {}, a);
    ReadyChunk(m, head, h, a);
    UnmarkedShape(h, a);
    MeltDownShape(Unmarked(h, a), a);
    UnmarkedLow(h, a);
    if a != h.start {
      Around(h, {}, h.chunks[a].prev);
      DownFree(Unmarked(h, a), a);
    } else {
      DownStart(Unmarked(h, a), a);
    }
    if !LowUsed(h.chunks, h.start, a) {
      FootRead(m, h.chunks, h.start, h.end, a);
    }
  }

  lemma FootRead(m: Mem, c: Chunks, start: int, end: int, a: int)
    requires Tagged(m, c, start, end, {}) && a in c && a != end && !LowUsed(c, start, a)
    ensures a in m && m[a] == c[c[a].prev].size
  {
    assert Footer(m, c, start, end, a);
  }

  lemma DownStart(h: Heap, a: int)
    requires Shaped(h, {a}) && a in h.chunks && a == h.start
    ensures MeltDown(h, a) == (h, a)
  {
  }

  lemma UnmarkedLow(h: Heap, a: int)
    requires Shaped(h, {}) && InUse(h, a)
    ensures var c' := Unmarked(h, a).chunks;
            && a in c' && c'[a] == Chunk(h.chunks[a].size, false, h.chunks[a].prev)
            && (a != h.start ==> h.chunks[a].prev != a && h.chunks[a].prev in c' && c'[h.chunks[a].prev] == h.chunks[h.chunks[a].prev])
  {
    hide Shaped;
    Around(h, {}, a);
    if a != h.start { Around(h, {}, h.chunks[a].prev); }
  }

  /** After the merges, everything from b up to e is one chunk. */
  lemma FlatDowned(h: Heap, a: int)
    requires Shaped(h, {}) && InUse(h, a)
    ensures var (h1, b) := Lowered(h, a); Flat(h.chunks, h1.chunks, b, a + h.chunks[a].size)
  {
    hide Shaped, Flat, Without;
    ShapedParts(h, {});
    Around(h, {}, a);
    UnmarkedShape(h, a);
    UnmarkedLow(h, a);
    FlatMark(h.chunks, h.start, h.end, a);
    if a != h.start && !h.chunks[h.chunks[a].prev].used {
      FlatDown(h.chunks, h.start, h.end, a, h.chunks[a].prev);
    }
  }

  lemma FlatMelted(h: Heap, a: int)
    requires Shaped(h, {}) && InUse(h, a)
    requires var (h1, b) := Lowered(h, a); Shaped(h1, {b}) && b in h1.chunks && b + h1.chunks[b].size == a + h.chunks[a].size && h1.end == h.end && h1.start == h.start
    ensures var (h1, b) := Lowered(h, a);
            var h2 := MeltUp(h1, b);
            b in h2.chunks && Flat(h.chunks, h2.chunks, b, b + h2.chunks[b].size)
  {
    hide Shaped, Lowered, Flat, Without;
    var (h1, b) := Lowered(h, a);
    FlatDowned(h, a);
    LooseFree(h1, {b}, b);
    Around(h1, {b}, b);
    ShapedParts(h1, {b});
    var n := b + h1.chunks[b].size;
    if n != h1.end && !h1.chunks[n].used {
      FlatUp(h.chunks, h1.chunks, h.start, h.end, b, n);
      MeltShape(h1, b, b, n);
    }
  }

  lemma MidTags(m: Mem, m1: Mem, head: int, h: Heap, f: seq<int>, stale: set<int>)
    requires Shaped(h, {}) && HeadAside(head, h) && h.end <= h.max && AllFree(h.chunks, f)
    requires Tagged(m, h.chunks, h.start, h.end, stale) && Pages(m, head, h.start, h.end) && OffList(m, m1, head, f)
    ensures Tagged(m1, h.chunks, h.start, h.end, stale) && Pages(m1, head, h.start, h.end)
  {
    hide Shaped, Tagged;
    ShapedParts(h, {});
    TaggedOffList(m, m1, h.chunks, h.start, h.end, stale, head, f);
  }

  /** The heap after both merges. */
  ghost function Raised(h: Heap, a: int): (Heap, int)
    requires Shaped(h, {}) && InUse(h, a)
  {
    UnmarkedShape(h, a);
    MeltDownShape(Unmarked(h, a), a);
    var (h1, b) := Lowered(h, a);
    (MeltUp(h1, b), b)
  }

  /** The chunk above, n, looks the same before and after the merge with the chunk below. */
  lemma AboveKept(h: Heap, a: int)
    requires Shaped(h, {}) && InUse(h, a)
    ensures var (h1, b) := Lowered(h, a);
            var n := a + h.chunks[a].size;
            && n in h.chunks && n in h1.chunks && a < n <= h.end
            && h1.chunks[n].size == h.chunks[n].size && h1.chunks[n].used == h.chunks[n].used && b < n
  {
    hide Shaped, Lowered;
    Around(h, {}, a);
    FlatDowned(h, a);
  }

  predicate UpRead(m: Mem, h: Heap, n: int) {
    && n in h.chunks && n + 4 in m && PInUse(m[n + 4]) && (CInUse(m[n + 4]) <==> h.chunks[n].used)
    && ChunkSize(m[n + 4]) == h.chunks[n].size && n + h.chunks[n].size <= h.end
  }

  /** The chunk above b is in use, or b is the last one. */
  predicate Capped(c: Chunks, b: int) {
    b in c && b + c[b].size in c && c[b + c[b].size].used
  }

  /** What free reads from the chunk above. */
  lemma UpChoice(m: Mem, h: Heap, a: int)
    requires Inv(h) && InUse(h, a) && Tagged(m, h.chunks, h.start, h.end, {})
    ensures Shaped(h, {})
    ensures var (h1, b) := Lowered(h, a);
            var (h2, n) := (Raised(h, a).0, a + h.chunks[a].size);
            && n in h.chunks && n <= h.end
            && Raised(h, a).1 == b && Shaped(h2, {b}) && b in h2.chunks && LowUsed(h2.chunks, h.start, b)
            && h2.start == h.start && h2.end == h.end && h2.max == h.max
            && (n != h.end ==> UpRead(m, h, n))
            && (if n == h.end || h.chunks[n].used then h2 == h1
                else Node(n) in h1.free && h2.free == RemoveAt(h1.free, IndexOf(h1.free, Node(n)))
                     && h2.chunks[b].size == n - b + h.chunks[n].size)
            && Capped(h2.chunks, b)
  {
    hide Shaped, Tagged, RemoveAt, IndexOf, ChunkSize, CInUse, PInUse, MeltDown, Users, HeadWord, Melt, Aligned, Bounds;
    Around(h, {}, a);
    UnmarkedShape(h, a);
    MeltDownShape(Unmarked(h, a), a);
    AboveKept(h, a);
    var (h1, b) := Lowered(h, a);
    MeltUpShape(h1, b);
    LooseFree(h1, {b}, b);
    Around(h1, {b}, b);
    var n := a + h.chunks[a].size;
    if n != h.end {
      Around(h, {}, n);
      HeadRead(m, h.chunks, h.start, h.end, {}, n);
      assert !(n == h.start) by { assert n > a; }
      if !h.chunks[n].used {
        MeltShape(h1, b, b, n);
        MeltFree(h1, b, n);
      }
    }
  }

  lemma MeltFree(h: Heap, p: int, listed: int)
    requires p in h.chunks && p + h.chunks[p].size in h.chunks
    requires p + h.chunks[p].size + h.chunks[p + h.chunks[p].size].size in h.chunks && Node(listed) in h.free
    ensures Melt(h, p, listed).free == RemoveAt(h.free, IndexOf(h.free, Node(listed)))
  {
  }

  /** The merges are done in memory: all tags are as before the call except the head word of the chunk above. */
  ghost predicate MidRep(m: Mem, head: int, h: Heap, h2: Heap, b: int) {
    && b in h2.chunks && b + h2.chunks[b].size in h2.chunks
    && HeadAside(head, h) && Pages(m, head, h.start, h.end) && Ring(m, head, h2.free)
    && Tagged(m, h.chunks, h.start, h.end, {b + h2.chunks[b].size})
    && (b + h2.chunks[b].size != h.end ==>
          b + h2.chunks[b].size + 4 in m && m[b + h2.chunks[b].size + 4] == HeadWord(h2.chunks, h.start, b + h2.chunks[b].size))
  }

  /** Line 282: the chunk above is in use and loses its PINUSE_BIT. */
  lemma MidCleared(m1: Mem, head: int, h: Heap, a: int)
    requires Inv(h) && InUse(h, a) && HeadAside(head, h) && Tagged(m1, h.chunks, h.start, h.end, {}) && Pages(m1, head, h.start, h.end)
    requires Ring(m1, head, Lowered(h, a).0.free)
    requires var n := a + h.chunks[a].size; n != h.end && n in h.chunks && h.chunks[n].used && n + 4 in m1
    ensures var n := a + h.chunks[a].size; MidRep(m1[n + 4 := ClearPInUse(m1[n + 4])], head, h, Raised(h, a).0, Raised(h, a).1)
  {
    hide Shaped, Tagged, RemoveAt, IndexOf, MeltDown, Users, Ring, Melt, Aligned, Bounds, Pages, MeltUp, Raised, Lowered, HeadWord, PInUse, CInUse, ChunkSize, ClearPInUse, LowUsed, Tiled;
    var n := a + h.chunks[a].size;
    InvMax(h);
    UpChoice(m1, h, a);
    DownFacts(h, a);
    var (h2, b) := Raised(h, a);
    AboveKept(h, a);
    LooseFree(h2, {b}, b);
    Around(h2, {b}, b);
    Around(h, {}, a);
    ShapedParts(h, {});
    ClearedHead(m1, h.chunks, h2.chunks, h.start, h.end, a, b, n);
    ShapedParts(h2, {b});
    TagsOffList(h2.chunks, h.start, h.end, h2.free, head, n);
    RingStore(m1, head, h2.free, n + 4, ClearPInUse(m1[n + 4]));
    PagesStore(m1, head, h.start, h.end, n + 4, ClearPInUse(m1[n + 4]));
    StoreStale(m1, h.chunks, h.start, h.end, n, ClearPInUse(m1[n + 4]));
  }

  lemma InvMax(h: Heap)
    requires Inv(h)
    ensures h.end <= h.max && Shaped(h, {}) && 0 < h.start
  {
  }

  lemma DownFacts(h: Heap, a: int)
    requires Shaped(h, {}) && InUse(h, a)
    ensures var (h1, b) := Lowered(h, a); b in h1.chunks && b + h1.chunks[b].size == a + h.chunks[a].size && Shaped(h1, {b})
  {
    hide Shaped, Users, MeltDown;
    UnmarkedShape(h, a);
    MeltDownShape(Unmarked(h, a), a);
    UnmarkedLow(h, a);
  }

  lemma StoreStale(m: Mem, c: Chunks, start: int, end: int, n: int, v: int)
    requires Tiled(c, start, end) && Tagged(m, c, start, end, {}) && n in c && n != end
    ensures Tagged(m[n + 4 := v], c, start, end, {n})
  {
    forall b | b in c ensures (b != n ==> Header(m[n + 4 := v], c, start, end, b)) && Footer(m[n + 4 := v], c, start, end, b) {
      assert Header(m, c, start, end, b) && Footer(m, c, start, end, b);
      NotHead(c, start, end, n, b);
    }
  }

  lemma ClearedHead(m: Mem, c: Chunks, c2: Chunks, start: int, end: int, a: int, b: int, n: int)
    requires Tagged(m, c, start, end, {}) && Aligned(c) && n in c && n != end && n in c2 && c2[n].size == c[n].size && c2[n].used == c[n].used
    requires n != start && n + 4 in m && PInUse(m[n + 4]) && c2[n].prev == b && b in c2 && !c2[b].used
    ensures n + 4 in m && ClearPInUse(m[n + 4]) == HeadWord(c2, start, n)
  {
    assert Header(m, c, start, end, n) && EightAt(c, n);
  }

  /** Line 289: the chunk above was free and is off the list now. */
  lemma MidAbsorbed(m1: Mem, m2: Mem, head: int, h: Heap, a: int)
    requires Inv(h) && InUse(h, a) && HeadAside(head, h) && Tagged(m1, h.chunks, h.start, h.end, {}) && Pages(m1, head, h.start, h.end)
    requires OffList(m1, m2, head, Lowered(h, a).0.free) && Ring(m2, head, Raised(h, a).0.free)
    requires var n := a + h.chunks[a].size; n == h.end || (n in h.chunks && !h.chunks[n].used)
    ensures MidRep(m2, head, h, Raised(h, a).0, Raised(h, a).1)
  {
    hide Shaped, Tagged, RemoveAt, IndexOf, MeltDown, Users, Ring, Melt, Aligned, Bounds, Pages, MeltUp, Raised, Lowered, HeadWord, PInUse, CInUse, ChunkSize, Tiled, OffList;
    InvMax(h);
    UpChoice(m1, h, a);
    DownFacts(h, a);
    var (h2, b) := Raised(h, a);
    var h1 := Lowered(h, a).0;
    LoweredFree(h, a);
    MidTags(m1, m2, head, h, h1.free, {});
    var e := b + h2.chunks[b].size;
    FewerStale(m2, h.chunks, h.start, h.end, e);
    var n := a + h.chunks[a].size;
    Around(h, {}, a);
    LooseFree(h2, {b}, b);
    Around(h2, {b}, b);
    if e != h.end {
      Around(h, {}, n);
      FlatRaised(h, a);
      FlatAt(h.chunks, h2.chunks, b, e);
      SameHead(m2, h.chunks, h2.chunks, h.start, h.end, n, b, e);
    }
  }

  lemma FlatRaised(h: Heap, a: int)
    requires Inv(h) && InUse(h, a)
    ensures Shaped(h, {})
    ensures var (h2, b) := Raised(h, a); b in h2.chunks && Flat(h.chunks, h2.chunks, b, b + h2.chunks[b].size)
  {
    hide Shaped, Flat, MeltDown, MeltUp, Users, Aligned, Bounds;
    InvMax(h);
    UnmarkedShape(h, a);
    UnmarkedLow(h, a);
    MeltDownShape(Unmarked(h, a), a);
    FlatMelted(h, a);
  }

  lemma FlatAt(c: Chunks, c': Chunks, b: int, e: int)
    requires Flat(c, c', b, e)
    ensures e in c' && e in c && c'[e].size == c[e].size && c'[e].used == c[e].used && c'[e].prev == b
  {
  }

  lemma FewerStale(m: Mem, c: Chunks, start: int, end: int, e: int)
    requires Tagged(m, c, start, end, {})
    ensures Tagged(m, c, start, end, {e})
  {
  }

  /** Chunks on the list after the merge with the chunk below are free in the heap before the call. */
  lemma LoweredFree(h: Heap, a: int)
    requires Shaped(h, {}) && InUse(h, a)
    ensures AllFree(h.chunks, Lowered(h, a).0.free)
  {
    hide Shaped, Flat, Lowered;
    UnmarkedShape(h, a);
    DownFacts(h, a);
    var (h1, b) := Lowered(h, a);
    ShapedParts(h1, {b});
    FlatDowned(h, a);
    forall l | l in h1.free ensures IsFree(h.chunks, Entry(l)) {
      FlatFree(h.chunks, h1.chunks, b, a + h.chunks[a].size, Entry(l));
    }
  }

  lemma FlatFree(c: Chunks, c': Chunks, b: int, e: int, x: int)
    requires Flat(c, c', b, e) && IsFree(c', x) && x != b
    ensures IsFree(c, x)
  {
  }

  lemma SameHead(m: Mem, c: Chunks, c2: Chunks, start: int, end: int, n: int, b: int, e: int)
    requires Tagged(m, c, start, end, {}) && e in c && e in c2 && e != end && e != start
    requires c[e].prev == n && n in c && !c[n].used && c2[e].prev == b && b in c2 && !c2[b].used && c2[e].size == c[e].size && c2[e].used == c[e].used
    ensures e + 4 in m && m[e + 4] == HeadWord(c2, start, e)
  {
    assert Header(m, c, start, end, e);
  }

  ghost predicate Given(h: Heap, a: int, h2: Heap, b: int) {
    && Inv(h) && InUse(h, a) && Shaped(h, {}) && (h2, b) == Raised(h, a)
  }

  lemma GivenFacts(h: Heap, a: int, h2: Heap, b: int)
    requires Given(h, a, h2, b)
    ensures Shaped(h2, {b}) && b in h2.chunks && LowUsed(h2.chunks, h.start, b) && h2.start == h.start && h2.end == h.end && h2.max == h.max
    ensures !h2.chunks[b].used && b < h.end && b + h2.chunks[b].size in h2.chunks && h2.chunks[b + h2.chunks[b].size].used && b in h.chunks
    ensures Flat(h.chunks, h2.chunks, b, b + h2.chunks[b].size) && b + h2.chunks[b].size <= h.end && b <= a
    ensures Users(h2) == Users(h) - {a} && Aligned(h2.chunks) && h.end <= h.max
    ensures Release(h, a) == Settle(h2, b)
  {
    hide Shaped, Flat, Users, Aligned, Bounds, MeltDown, MeltUp;
    InvMax(h);
    FlatRaised(h, a);
    FlatDowned(h, a);
    UnmarkedShape(h, a);
    MarkUsers(h, a);
    MarkAligned(h.chunks, a, false) by { AlignedOf(h); }
    MeltDownShape(Unmarked(h, a), a);
    MeltsAligned(Unmarked(h, a), a);
    var (h1, b1) := MeltDown(Unmarked(h, a), a);
    MeltUpShape(h1, b1);
    LooseFree(h2, {b}, b);
    Around(h2, {b}, b);
    FlatStart(h.chunks, h2.chunks, b, b + h2.chunks[b].size);
    UnmarkedLow(h, a);
  }

  lemma AlignedOf(h: Heap)
    requires Inv(h)
    ensures Aligned(h.chunks)
  {
  }

  lemma FlatStart(c: Chunks, c': Chunks, b: int, e: int)
    requires Flat(c, c', b, e)
    ensures b in c
  {
  }

  /** Lines 311-314: foot and head written, the merged chunk is ready for the list. */
  lemma FreePut(m: Mem, head: int, h: Heap, a: int, h2: Heap, b: int)
    requires Given(h, a, h2, b) && MidRep(m, head, h, h2, b) && b + h2.chunks[b].size != h.end
    ensures b + h2.chunks[b].size in m && b + 4 in m
    ensures Puttable(m[b + h2.chunks[b].size := h2.chunks[b].size][b + 4 := h2.chunks[b].size + 1], head, h2, b)
  {
    hide Shaped, Ring, Aligned, Tagged, Tiled, Given, Flat, Pages, AllFree, Users, LowUsed, HeadWord, Release, Settle;
    GivenFacts(h, a, h2, b);
    var e, s := b + h2.chunks[b].size, h2.chunks[b].size;
    ShapedParts(h2, {b});
    GivenTiled(h, a, h2, b);
    LooseFree(h2, {b}, b);
    Around(h2, {b}, b);
    FreeTags(m, h.chunks, h2.chunks, h.start, h.end, b, e);
    HeadOfTop(h2.chunks, h.start, e, b);
    FreeWordsAre(m, h2.chunks, h.start, b, e);
    NodeMapped(m, head, h2, b);
    NodeMapped(m, head, h2, e);
    TagsOffList(h2.chunks, h.start, h.end, h2.free, head, b);
    TagsOffList(h2.chunks, h.start, h.end, h2.free, head, e);
    RingStore(m, head, h2.free, e, s);
    PagesStore(m, head, h.start, h.end, e, s);
    RingStore(m[e := s], head, h2.free, b + 4, s + 1);
    PagesStore(m[e := s], head, h.start, h.end, b + 4, s + 1);
  }

  lemma GivenTiled(h: Heap, a: int, h2: Heap, b: int)
    requires Given(h, a, h2, b)
    ensures Tiled(h.chunks, h.start, h.end)
  {
  }

  lemma FreeWordsAre(m: Mem, c: Chunks, start: int, b: int, e: int)
    requires b in c && e in c && e + 4 in m && m[e + 4] == HeadWord(c, start, e)
    ensures FreeWords(m, c, start, b, e) == m[e := e - b][b + 4 := HeadWord(c, start, b)]
  {
    assert m[e + 4 := HeadWord(c, start, e)] == m;
  }

  // ---------------------------------------------------------------- the top of the heap

  /** The heap with the merged chunk b at the top cut down to end at e. */
  ghost function CutTop(h2: Heap, b: int, e: int): Heap
    requires b in h2.chunks && b + h2.chunks[b].size in h2.chunks
  {
    if e == h2.end then h2 else h2.(end := e, chunks := Drop(Split(h2.chunks, b, e - b), h2.end, e))
  }

  lemma CutTopShape(h2: Heap, b: int, e: int)
    requires Shaped(h2, {b}) && b in h2.chunks && b + h2.chunks[b].size == h2.end && h2.end in h2.chunks && LowUsed(h2.chunks, h2.start, b)
    requires b + MIN_CHUNK_SIZE <= e && (e == h2.end || e <= h2.end - MIN_CHUNK_SIZE)
    ensures Shaped(CutTop(h2, b, e), {b}) && CutTop(h2, b, e).free == h2.free
    ensures var c := CutTop(h2, b, e).chunks;
            && b in c && e in c && c[b] == h2.chunks[b].(size := e - b) && LowUsed(c, h2.start, b)
            && (forall x :: x in c ==> x == e || (x in h2.chunks && x != h2.end)) && (forall x :: x in c && x != b && x != e ==> c[x] == h2.chunks[x])
  {
    hide Shaped;
    LooseFree(h2, {b}, b);
    Around(h2, {b}, b);
    if e != h2.end {
      SplitLoose(h2, {b}, b, e - b);
      var h1 := h2.(chunks := Split(h2.chunks, b, e - b));
      assert {b} + {e} == {b, e};
      DropLoose(h1, {b, e}, e);
      assert {b, e} - {e} == {b};
    }
  }

  lemma CutTopIs(h: Heap, c: Chunks, c': Chunks, start: int, end: int, b: int, e: int)
    requires Flat(c, h.chunks, b, end) && h.end == end && h.start == start && b in h.chunks && !h.chunks[b].used && Tiled(h.chunks, start, end)
    requires b in c' && e in c' && b < e && c'[b] == h.chunks[b].(size := e - b) && LowUsed(c', start, b)
    requires forall x :: x in c' ==> x == e || (x in h.chunks && x != end)
    requires forall x :: x in c' && x != b && x != e ==> c'[x] == h.chunks[x]
    ensures TopIs(c, c', start, b, e)
  {
    forall x | x in c' && x != e && x != b ensures x < b && x in c && c'[x] == c[x] {
      assert Good(h.chunks, start, end, x);
    }
  }

  lemma UnmapKeeps(m: Mem, head: int, start: int, end: int, max: int, e: int)
    requires Pages(m, head, start, end) && (head + 8 <= start || max + 8 <= head) && start <= e <= end <= max
    ensures Pages(UnmapPages(m, e, end), head, start, e)
    ensures forall x :: x in m && (x < e || end <= x) ==> x in UnmapPages(m, e, end) && UnmapPages(m, e, end)[x] == m[x]
  {
  }

  /** The list and all tags below b survive when the pages above e >= b go. */
  lemma UnmapList(m: Mem, head: int, h: Heap, h2: Heap, b: int, e: int)
    requires Ring(m, head, h2.free) && Shaped(h2, {b}) && HeadAside(head, h2) && h2.end <= h2.max && Pages(m, head, h2.start, h2.end)
    requires b in h2.chunks && b + h2.chunks[b].size == h2.end && b <= e <= h2.end
    ensures Ring(UnmapPages(m, e, h2.end), head, h2.free)
  {
    hide Shaped, Ring;
    LooseFree(h2, {b}, b);
    Around(h2, {b}, b);
    ShapedParts(h2, {b});
    var m' := UnmapPages(m, e, h2.end);
    UnmapKeeps(m, head, h2.start, h2.end, h2.max, e);
    forall x | Cell(x, head, h2.free) ensures x in m' && (x in m ==> m'[x] == m[x]) {
      if x in h2.free { EntryBelow(m, head, h2, b, x); }
      if x - 4 in h2.free { EntryBelow(m, head, h2, b, x - 4); }
    }
    RingCells(m, head, h2.free, m');
  }

  lemma EntryBelow(m: Mem, head: int, h: Heap, b: int, l: int)
    requires Shaped(h, {b}) && Pages(m, head, h.start, h.end) && b in h.chunks && b + h.chunks[b].size == h.end && l in h.free
    ensures Mapped(m, l) && l + 8 <= b
  {
    hide Shaped;
    var i := IndexOf(h.free, l);
    OnList(h, {b}, i);
    Around(h, {b}, Entry(l));
    LooseFree(h, {b}, b);
    Around(h, {b}, b);
    ShapedParts(h, {b});
    NodeMapped(m, head, h, Entry(l));
    if Entry(l) < b { Ordered(h.chunks, h.start, h.end, Entry(l), b); }
    if b < Entry(l) { Ordered(h.chunks, h.start, h.end, b, Entry(l)); }
  }

  lemma TagsBelow(m: Mem, head: int, h: Heap, b: int, e: int)
    requires Shaped(h, {}) && b in h.chunks && b <= e <= h.end && (head + 8 <= h.start || h.max + 8 <= head) && h.end <= h.max && Pages(m, head, h.start, h.end)
    ensures forall x :: x in h.chunks && x < b ==> SameTags(m, UnmapPages(m, e, h.end), x)
  {
    hide Shaped;
    ShapedParts(h, {});
    assert Good(h.chunks, h.start, h.end, b);
    UnmapKeeps(m, head, h.start, h.end, h.max, e);
    forall x | x in h.chunks && x < b ensures SameTags(m, UnmapPages(m, e, h.end), x) {
      Around(h, {}, x);
      Ordered(h.chunks, h.start, h.end, x, b);
    }
  }

  lemma EndStale(m: Mem, c: Chunks, start: int, end: int)
    requires Tagged(m, c, start, end, {end})
    ensures Tagged(m, c, start, end, {})
  {
    forall a | a in c ensures Header(m, c, start, end, a) { }
  }

  /** The tags after contract, the head word of b still to be written. */
  lemma TopCutTags(m: Mem, head: int, h: Heap, a: int, h2: Heap, b: int, e: int)
    requires Given(h, a, h2, b) && MidRep(m, head, h, h2, b) && b + h2.chunks[b].size == h.end
    requires b + MIN_CHUNK_SIZE <= e && (e == h.end || e <= h.end - MIN_CHUNK_SIZE)
    ensures Tagged(UnmapPages(m, e, h.end), CutTop(h2, b, e).chunks, h.start, e, {b}) && Shaped(CutTop(h2, b, e), {b})
  {
    hide Shaped, Ring, Aligned, Tagged, Tiled, Given, Flat, Pages, AllFree, Users, LowUsed, Release, Settle, CutTop, TopIs, UnmapPages;
    GivenFacts(h, a, h2, b);
    GivenTiled(h, a, h2, b);
    GivenShaped(h, a, h2, b);
    ShapedParts(h2, {b});
    CutTopShape(h2, b, e);
    var c' := CutTop(h2, b, e).chunks;
    CutTopIs(h2, h.chunks, c', h.start, h.end, b, e);
    ShapedParts(CutTop(h2, b, e), {b});
    CutTopEnd(h2, b, e);
    EndStale(m, h.chunks, h.start, h.end);
    TagsBelow(m, head, h, b, e);
    TopTags(m, UnmapPages(m, e, h.end), h.chunks, c', h.start, h.end, e, b);
  }

  lemma GivenShaped(h: Heap, a: int, h2: Heap, b: int)
    requires Given(h, a, h2, b)
    ensures Shaped(h, {})
  {
  }

  lemma CutTopEnd(h2: Heap, b: int, e: int)
    requires b in h2.chunks && b + h2.chunks[b].size in h2.chunks
    ensures CutTop(h2, b, e).start == h2.start && CutTop(h2, b, e).end == e && CutTop(h2, b, e).max == h2.max
  {
  }

  /** Lines 304-305 and 314: what is left of the top chunk is ready for the list. */
  lemma TopPut(m: Mem, head: int, h: Heap, a: int, h2: Heap, b: int, e: int)
    requires Given(h, a, h2, b) && MidRep(m, head, h, h2, b) && b + h2.chunks[b].size == h.end
    requires b + MIN_CHUNK_SIZE <= e && (e == h.end || e <= h.end - MIN_CHUNK_SIZE) && (e - b) % 8 == 0
    ensures b + 4 in UnmapPages(m, e, h.end)
    ensures Puttable(UnmapPages(m, e, h.end)[b + 4 := e - b + 1], head, CutTop(h2, b, e), b)
  {
    hide Shaped, Ring, Aligned, Tagged, Tiled, Given, Flat, Pages, AllFree, Users, LowUsed, HeadWord, Release, Settle, CutTop, UnmapPages;
    GivenFacts(h, a, h2, b);
    TopCutTags(m, head, h, a, h2, b, e);
    var h3, m3 := CutTop(h2, b, e), UnmapPages(m, e, h.end);
    CutTopShape(h2, b, e);
    CutTopEnd(h2, b, e);
    CutTopAligned(h2, b, e);
    ShapedParts(h3, {b});
    LooseFree(h3, {b}, b);
    Around(h3, {b}, b);
    PutHead(m3, h3.chunks, h.start, e, {b}, b);
    assert {b} - {b} == {};
    HeadOfTop(h3.chunks, h.start, e, b);
    UnmapList(m, head, h, h2, b, e);
    UnmapKeeps(m, head, h.start, h.end, h.max, e);
    NodeMapped(m3, head, h3, b);
    TagsOffList(h3.chunks, h.start, e, h3.free, head, b);
    RingStore(m3, head, h3.free, b + 4, e - b + 1);
    PagesStore(m3, head, h.start, e, b + 4, e - b + 1);
  }

  lemma CutTopAligned(h2: Heap, b: int, e: int)
    requires b in h2.chunks && b + h2.chunks[b].size in h2.chunks && Aligned(h2.chunks) && (e - b) % 8 == 0
    requires e == h2.end || e in Split(h2.chunks, b, e - b)
    ensures Aligned(CutTop(h2, b, e).chunks)
  {
    if e != h2.end {
      SplitAligned(h2.chunks, b, e - b);
      DropAligned(Split(h2.chunks, b, e - b), h2.end, e);
    }
  }

  /** Lines 306-309: the whole top chunk went. */
  lemma TopGone(m: Mem, head: int, h: Heap, a: int, h2: Heap, b: int)
    requires Given(h, a, h2, b) && MidRep(m, head, h, h2, b) && b + h2.chunks[b].size == h.end && b != h.start
    ensures b in h2.chunks && Rep(UnmapPages(m, b, h.end), head, h2.(end := b, chunks := Drop(h2.chunks, h.end, b)), {})
  {
    hide Shaped, Ring, Aligned, Tagged, Tiled, Given, Flat, Pages, AllFree, Users, LowUsed, HeadWord, Release, Settle, UnmapPages;
    GivenFacts(h, a, h2, b);
    GivenTiled(h, a, h2, b);
    GivenShaped(h, a, h2, b);
    var c', m3 := Drop(h2.chunks, h.end, b), UnmapPages(m, b, h.end);
    ShapedParts(h2, {b});
    LooseFree(h2, {b}, b);
    Around(h2, {b}, b);
    DropTiled(h2.chunks, h.start, h.end, b);
    EndStale(m, h.chunks, h.start, h.end);
    TagsBelow(m, head, h, b, b);
    DropTop(h2, h.chunks, h.start, h.end, b);
    TopTags(m, m3, h.chunks, c', h.start, h.end, b, b);
    EndStale(m3, c', h.start, b);
    UnmapList(m, head, h, h2, b, b);
    UnmapKeeps(m, head, h.start, h.end, h.max, b);
  }

  lemma DropTop(h2: Heap, c: Chunks, start: int, end: int, b: int)
    requires Flat(c, h2.chunks, b, end) && h2.end == end && b in h2.chunks && Tiled(h2.chunks, start, end)
    ensures TopIs(c, Drop(h2.chunks, end, b), start, b, b)
  {
    forall x | x in h2.chunks ensures x <= end { assert Good(h2.chunks, start, end, x); }
  }

  // ---------------------------------------------------------------- the two ways free ends

  lemma TrimCode(start: int, end: int, b: int, n: int)
    requires start % PAGE_SIZE == 0 && end % PAGE_SIZE == 0 && start + HEAP_MIN_SIZE <= end && start <= b && b + MIN_CHUNK_SIZE <= end
    requires n == if (b - start) % PAGE_SIZE != 0 then b - start + MIN_CHUNK_SIZE else b - start
    ensures n < end - start <==> !TrimHalts(start, end, b)
    ensures start + (if RoundUp(n) < HEAP_MIN_SIZE then HEAP_MIN_SIZE else RoundUp(n)) == TrimmedEnd(start, b)
  {
    OnPages(start, b);
  }

  lemma BoundsOf(h: Heap)
    requires Inv(h)
    ensures h.start % PAGE_SIZE == 0 && h.end % PAGE_SIZE == 0 && h.start + HEAP_MIN_SIZE <= h.end && h.end <= h.max < TWO32 && Bounds(h)
  {
  }

  /** What the arithmetic of lines 296-309 amounts to. */
  lemma TopFacts(h: Heap, a: int, h2: Heap, b: int)
    requires Given(h, a, h2, b) && b + h2.chunks[b].size == h.end
    ensures h.start <= b && b + MIN_CHUNK_SIZE <= h.end
    ensures var e := TrimmedEnd(h.start, b);
            !TrimHalts(h.start, h.end, b) ==>
              && h.start + HEAP_MIN_SIZE <= e <= h.end && (e - b) % 8 == 0
              && (e == b || b + MIN_CHUNK_SIZE <= e) && (e == h.end || e + PAGE_SIZE <= h.end)
  {
    hide Shaped, Given, Flat, Users, Release, Settle, TrimmedEnd, TrimHalts;
    GivenFacts(h, a, h2, b);
    GivenInv(h, a, h2, b);
    BoundsOf(h);
    LooseFree(h2, {b}, b);
    Around(h2, {b}, b);
    AlignedAt(h2.chunks, b);
    TrimFacts(h.start, h.end, b);
    CutEight(h.start, h.end, b);
  }

  lemma GivenInv(h: Heap, a: int, h2: Heap, b: int)
    requires Given(h, a, h2, b)
    ensures Inv(h) && InUse(h, a)
  {
  }

  lemma SettledTop(h: Heap, a: int, h2: Heap, b: int)
    requires Given(h, a, h2, b) && b in h2.chunks && b + h2.chunks[b].size == h.end
    ensures b + h2.chunks[b].size in h2.chunks
    ensures var e := TrimmedEnd(h.start, b);
            Release(h, a) ==
              if TrimHalts(h.start, h.end, b) then None
              else if e == b then Some(h2.(end := b, chunks := Drop(h2.chunks, h.end, b)))
              else Some(CutTop(h2, b, e).(free := With(CutTop(h2, b, e).chunks, h2.free, b)))
  {
    hide Shaped, Given, Flat, Users, TrimmedEnd, TrimHalts, Release, With;
    GivenFacts(h, a, h2, b);
  }

  lemma SettledPut(h: Heap, a: int, h2: Heap, b: int)
    requires Given(h, a, h2, b) && b in h2.chunks && b + h2.chunks[b].size != h.end
    ensures Release(h, a) == Some(h2.(free := With(h2.chunks, h2.free, b)))
  {
    hide Shaped, Given, Flat, Users, TrimmedEnd, TrimHalts, Release, With;
    GivenFacts(h, a, h2, b);
  }

  lemma GivenEnd(h: Heap, a: int, h2: Heap, b: int)
    requires Given(h, a, h2, b)
    ensures b in h2.chunks && h2.start == h.start && h2.end == h.end && h2.max == h.max && h.start <= b < h.end && b + h2.chunks[b].size <= h.end
    ensures b + h2.chunks[b].size in h2.chunks
  {
    hide Shaped, Given, Flat, Users, Release, Settle;
    GivenFacts(h, a, h2, b);
    LooseFree(h2, {b}, b);
    Around(h2, {b}, b);
  }

  /** The state between the two merges. */
  ghost predicate Half(m: Mem, head: int, h: Heap, a: int) {
    && Inv(h) && InUse(h, a) && HeadAside(head, h) && Tagged(m, h.chunks, h.start, h.end, {}) && Pages(m, head, h.start, h.end)
    && Ring(m, head, Lowered(h, a).0.free)
  }

  lemma HalfDone(m: Mem, m1: Mem, head: int, h: Heap, a: int)
    requires Inv(h) && Rep(m, head, h, {}) && InUse(h, a) && OffList(m, m1, head, h.free) && Ring(m1, head, Lowered(h, a).0.free)
    ensures Half(m1, head, h, a)
  {
    hide Shaped, Tagged, Ring, Lowered;
    InvMax(h);
    ShapedParts(h, {});
    MidTags(m, m1, head, h, h.free, {});
  }

  lemma HalfChoice(m: Mem, head: int, h: Heap, a: int)
    requires Half(m, head, h, a)
    ensures Shaped(h, {}) && a in h.chunks
    ensures var (h1, b) := Lowered(h, a);
            var (h2, n) := (Raised(h, a).0, a + h.chunks[a].size);
            && b in h1.chunks && b + h1.chunks[b].size == n && h.start <= n
            && Given(h, a, h2, b) && b in h2.chunks && n <= h.end && Ring(m, head, h1.free)
            && (if n == h.end then h2.chunks[b].size == n - b && h2.free == h1.free
                else UpRead(m, h, n) &&
                     if h.chunks[n].used then h2.chunks[b].size == n - b && h2.free == h1.free
                     else Node(n) in h1.free && h2.free == RemoveAt(h1.free, IndexOf(h1.free, Node(n))) && h2.chunks[b].size == n - b + h.chunks[n].size)
  {
    hide Shaped, Tagged, RemoveAt, IndexOf, ChunkSize, CInUse, PInUse, Users, Raised, Lowered, Bounds, Aligned, Ring, Pages;
    UpChoice(m, h, a);
    DownFacts(h, a);
    Around(h, {}, a);
  }

  lemma MidSame(m: Mem, head: int, h: Heap, a: int)
    requires Half(m, head, h, a) && Shaped(h, {}) && a in h.chunks && a + h.chunks[a].size == h.end && Raised(h, a).0.free == Lowered(h, a).0.free
    ensures MidRep(m, head, h, Raised(h, a).0, Raised(h, a).1)
  {
    hide Shaped, Tagged, Raised, Lowered, Ring, Pages, Inv, OffList;
    NothingRemoved(m, head, Lowered(h, a).0.free);
    MidAbsorbed(m, m, head, h, a);
  }
}
