/** For each step of alloc, palignedAlloc and free: what it writes lies outside the payloads that stay. */
module HeapContents {
  import opened LinkedLists
  import opened HeapModel
  import opened HeapSteps
  import opened HeapOps
  import opened HeapAlloc
  import opened HeapMemory
  import opened HeapPayloads
  import opened HeapTake
  import opened HeapGrow
  import opened HeapGive
  import opened HeapAligned

  lemma UsersWithin(h: Heap)
    ensures Within(Users(h), h)
  {
  }

  lemma WithinLess(h: Heap, a: int, u: map<int, int>)
    requires u == Users(h) - {a}
    ensures Within(u, h) && a !in u
  {
  }

  // ---------------------------------------------------------------- alloc

  /** removeChunk on a list of a sound heap. */
  lemma RemoveKeeps(m: Mem, m': Mem, head: int, h: Heap, u: map<int, int>)
    requires Ready(m, head, h) && Within(u, h) && OffList(m, m', head, h.free)
    ensures Keeps(m, m', u) && m'.Keys == m.Keys && CellsOff(u, head, h.free)
  {
    hide Shaped, Ring, OffList, Within, Keeps, CellsOff, AllFree, Tiled;
    ReadyIs(m, head, h);
    ShapedParts(h, {});
    FreeCells(h, u, head, h.free);
    KeepsLinks(m, m', u, head, h.free);
  }

  /** Lines 231-243 with a chunk left over: chunk a is off the list. */
  lemma CarveKeeps(m: Mem, m2: Mem, head: int, h: Heap, a: int, nb: int)
    requires Taken(m, head, h, a) && MIN_CHUNK_SIZE <= nb && nb + MIN_CHUNK_SIZE <= h.chunks[a].size
    requires CarveLinked(m, m2, head, h, a, nb) && CarveGoal(m2, head, h, a, nb)
    ensures Keeps(m, UseWords(m2, a, nb, h.end), Users(h)) && UseWords(m2, a, nb, h.end).Keys == m.Keys
  {
    var u, c := Users(h), h.chunks;
    hide Shaped, Ring, OffList, Within, Keeps, CellsOff, AllFree, Tiled, Users, Spare, CarveWords, UseWords, CutChunks, With, Tagged;
    TakenSpare(m, head, h, a, u);
    CarveMapped(m, head, h, a, nb);
    CarvedKeeps(m, c, h.end, a, nb, u);
    CellsPlus(u, head, h.free, h.free + [Node(a + nb)], Node(a + nb));
    KeepsLinks(CarveWords(m, c, h.end, a, nb), m2, u, head, h.free + [Node(a + nb)]);
    KeepsUse(m2, a, nb, h.end, u);
    KeepsTrans(m, CarveWords(m, c, h.end, a, nb), m2, u);
    KeepsTrans(m, m2, UseWords(m2, a, nb, h.end), u);
  }

  /** The words of the chunk taken, and the list without it. */
  lemma TakenSpare(m: Mem, head: int, h: Heap, a: int, u: map<int, int>)
    requires Taken(m, head, h, a) && u == Users(h)
    ensures CellsOff(u, head, h.free) && forall x :: a + 4 <= x <= a + h.chunks[a].size ==> Spare(u, x)
    ensures Spare(u, a + h.chunks[a].size + 4)
  {
    hide Shaped, Ring, Within, CellsOff, AllFree, Tiled, Users, Spare, Tagged;
    UsersWithin(h);
    LooseFree(h, {a}, a);
    ShapedParts(h, {a});
    FreeNotIn(h, u, a);
    FreeCells(h, u, head, h.free);
    TagSpare(h, u, a + h.chunks[a].size);
    forall x | a + 4 <= x <= a + h.chunks[a].size ensures Spare(u, x) {
      GapSpare(h, u, a, x);
    }
  }

  lemma CarvedKeeps(m: Mem, c: Chunks, end: int, a: int, nb: int, u: map<int, int>)
    requires a in c && a + nb + 4 in m && (a + c[a].size != end ==> a + c[a].size in m) && Spare(u, a + nb + 4) && Spare(u, a + c[a].size)
    ensures Keeps(m, CarveWords(m, c, end, a, nb), u) && CarveWords(m, c, end, a, nb).Keys == m.Keys
  {
    var m1 := m[a + nb + 4 := c[a].size - nb];
    KeepsStore(m, a + nb + 4, c[a].size - nb, u);
    KeepsStore(m1, a + c[a].size, c[a].size - nb, u);
    if a + c[a].size != end {
      KeepsTrans(m, m1, m1[a + c[a].size := c[a].size - nb], u);
    }
  }

  /** The same without one. */
  lemma WholeKeeps(m: Mem, head: int, h: Heap, a: int)
    requires Taken(m, head, h, a) && a + 4 in m && (a + h.chunks[a].size != h.end ==> a + h.chunks[a].size + 4 in m)
    ensures var m2 := UseWords(m, a, h.chunks[a].size, h.end); Keeps(m, m2, Users(h)) && m2.Keys == m.Keys
  {
    hide Shaped, Ring, Keeps, CellsOff, Users, Spare, UseWords, Tagged;
    LooseFree(h, {a}, a);
    Around(h, {a}, a);
    TakenSpare(m, head, h, a, Users(h));
    KeepsUse(m, a, h.chunks[a].size, h.end, Users(h));
  }

  /** expand */
  lemma MapKeeps(m: Mem, head: int, h: Heap, e: int, junk: int -> int)
    requires Ready(m, head, h) && h.end <= e <= h.max
    ensures Keeps(m, MapPages(m, h.end, e, junk), Users(h)) && m.Keys <= MapPages(m, h.end, e, junk).Keys
  {
    hide Shaped, Ring;
    ReadyIs(m, head, h);
  }

  /** insertChunk of a chunk that is free and not yet listed. */
  lemma PutKeeps(m: Mem, m': Mem, head: int, h: Heap, b: int, u: map<int, int>)
    requires Puttable(m, head, h, b) && Within(u, h) && b in h.chunks && OffList(m, m', head, h.free + [Node(b)])
    ensures Keeps(m, m', u) && m'.Keys == m.Keys
  {
    hide Shaped, Ring, OffList, Within, Keeps, CellsOff, Tiled;
    LooseFree(h, {b}, b);
    ShapedParts(h, {b});
    assert AllFree(h.chunks, h.free + [Node(b)]);
    hide AllFree;
    FreeCells(h, u, head, h.free + [Node(b)]);
    KeepsLinks(m, m', u, head, h.free + [Node(b)]);
  }

  /** The head of such a chunk, and then insertChunk. */
  lemma HeadPutKeeps(m: Mem, v: int, m': Mem, head: int, h: Heap, b: int, u: map<int, int>)
    requires b + 4 in m && Puttable(m[b + 4 := v], head, h, b) && Within(u, h) && b in h.chunks
    requires OffList(m[b + 4 := v], m', head, h.free + [Node(b)])
    ensures Keeps(m, m', u) && m'.Keys == m.Keys
  {
    hide Shaped, Ring, OffList, Within, Keeps, Tiled, Spare;
    ShapedParts(h, {b});
    TagSpare(h, u, b);
    KeepsStore(m, b + 4, v, u);
    PutKeeps(m[b + 4 := v], m', head, h, b, u);
    KeepsTrans(m, m[b + 4 := v], m', u);
  }

  /** alloc, lines 184-222 */
  lemma GrowKeeps(m: Mem, m2: Mem, m4: Mem, head: int, h: Heap, e: int, junk: int -> int, h1: Heap, b: int)
    requires Ready(m, head, h) && NewEnd(h, e) && (h1, b) == Topped(h, e) && OffList(MapPages(m, h.end, e, junk), m2, head, h.free)
    requires b + 4 in m2 && Puttable(m2[b + 4 := e - b + 1], head, h1, b) && OffList(m2[b + 4 := e - b + 1], m4, head, h1.free + [Node(b)])
    ensures Keeps(m, m4, Users(h)) && m.Keys <= m4.Keys
  {
    var u, m1 := Users(h), MapPages(m, h.end, e, junk);
    hide Shaped, Ring, OffList, Within, Keeps, CellsOff, AllFree, Tiled, Users, MapPages, Topped, Puttable, Ready, NewEnd;
    ReadyIs(m, head, h);
    NewEndIs(h, e);
    UsersWithin(h);
    ToppedIs(h, e);
    ToppedUsers(h, e);
    ShapedParts(h, {});
    MapKeeps(m, head, h, e, junk);
    FreeCells(h, u, head, h.free);
    KeepsLinks(m1, m2, u, head, h.free);
    HeadPutKeeps(m2, e - b + 1, m4, head, h1, b, u);
    KeepsTrans(m, m1, m2, u);
    KeepsTrans(m, m2, m4, u);
  }

  lemma ToppedUsers(h: Heap, e: int)
    requires Inv(h) && NewEnd(h, e) && Shaped(h, {}) && h.end + MIN_CHUNK_SIZE <= e
    ensures Within(Users(h), Topped(h, e).0)
  {
    hide Shaped, Users, Within, MeltDown;
    AppendLoose(h, {}, e);
    assert {} + {h.end} == {h.end};
    AppendUsers(h, e);
    MeltDownShape(h.(end := e, chunks := Append(h.chunks, h.end, e)), h.end);
    UsersWithin(Topped(h, e).0);
  }

  // ---------------------------------------------------------------- free

  /** Lines 276-293: the heaps with the chunk below, and both, merged have the users that stay. */
  lemma LoweredUsers(h: Heap, a: int)
    requires Shaped(h, {}) && InUse(h, a)
    ensures Within(Users(h) - {a}, Lowered(h, a).0)
  {
    hide Shaped, Users, Within, MeltDown;
    UnmarkedShape(h, a);
    MarkUsers(h, a);
    MeltDownShape(Unmarked(h, a), a);
    UsersWithin(Lowered(h, a).0);
  }

  lemma ClearKeeps(m: Mem, h: Heap, a: int, n: int)
    requires Shaped(h, {}) && n in h.chunks && n + 4 in m
    ensures Keeps(m, m[n + 4 := ClearPInUse(m[n + 4])], Users(h) - {a}) && m[n + 4 := ClearPInUse(m[n + 4])].Keys == m.Keys
  {
    hide Shaped, Users, Within, Keeps, Spare, Tiled;
    WithinLess(h, a, Users(h) - {a});
    ShapedParts(h, {});
    TagSpare(h, Users(h) - {a}, n);
    KeepsStore(m, n + 4, ClearPInUse(m[n + 4]), Users(h) - {a});
  }

  lemma LoweredKeeps(m: Mem, m': Mem, head: int, h: Heap, a: int)
    requires Half(m, head, h, a) && OffList(m, m', head, Lowered(h, a).0.free)
    ensures Keeps(m, m', Users(h) - {a}) && m'.Keys == m.Keys
  {
    hide Shaped, Users, Within, Keeps, Tiled, OffList, AllFree, CellsOff, Lowered, Ring, Tagged;
    InvMax(h);
    LoweredUsers(h, a);
    DownFacts(h, a);
    LoweredSame(h, a);
    ShapedParts(Lowered(h, a).0, {Lowered(h, a).1});
    FreeCells(Lowered(h, a).0, Users(h) - {a}, head, Lowered(h, a).0.free);
    KeepsLinks(m, m', Users(h) - {a}, head, Lowered(h, a).0.free);
  }

  lemma LoweredSame(h: Heap, a: int)
    requires Shaped(h, {}) && InUse(h, a)
    ensures Lowered(h, a).0.start == h.start && Lowered(h, a).0.end == h.end && Lowered(h, a).0.max == h.max
  {
    hide Shaped, Users, MeltDown;
    UnmarkedShape(h, a);
    MeltDownShape(Unmarked(h, a), a);
  }

  /** Lines 311-315 */
  lemma FreePutKeeps(m: Mem, m3: Mem, m': Mem, head: int, h: Heap, a: int, h2: Heap, b: int, e: int)
    requires Given(h, a, h2, b) && b in h2.chunks && e == b + h2.chunks[b].size && e in m && b + 4 in m
    requires m3 == m[e := e - b][b + 4 := e - b + 1] && Puttable(m3, head, h2, b) && OffList(m3, m', head, h2.free + [Node(b)])
    ensures Keeps(m, m', Users(h) - {a}) && m'.Keys == m.Keys
  {
    var u := Users(h) - {a};
    hide Shaped, Users, Within, Keeps, Spare, Tiled, OffList, Given, Ring, Tagged, Puttable, Flat, LowUsed, Release, Settle;
    GivenFacts(h, a, h2, b);
    UsersWithin(h2);
    LooseFree(h2, {b}, b);
    Around(h2, {b}, b);
    ShapedParts(h2, {b});
    FreeNotIn(h2, u, b);
    GapSpare(h2, u, b, e);
    KeepsStore(m, e, e - b, u);
    HeadPutKeeps(m[e := e - b], e - b + 1, m', head, h2, b, u);
    KeepsTrans(m, m[e := e - b], m', u);
  }

  /** contract */
  lemma UnmappedKeeps(m: Mem, lo: int, hi: int, u: map<int, int>)
    ensures Keeps(m, UnmapPages(m, lo, hi), u) && UnmapPages(m, lo, hi).Keys <= m.Keys
  {
  }

  /** Lines 295-316 at the top. */
  lemma TopPutKeeps(m: Mem, m3: Mem, m': Mem, head: int, h: Heap, a: int, h2: Heap, b: int, e: int, h3: Heap)
    requires Given(h, a, h2, b) && b in h2.chunks && b + h2.chunks[b].size == h.end && b + h2.chunks[b].size in h2.chunks
    requires b + MIN_CHUNK_SIZE <= e && (e == h.end || e <= h.end - MIN_CHUNK_SIZE) && h3 == CutTop(h2, b, e)
    requires b + 4 in UnmapPages(m, e, h.end) && m3 == UnmapPages(m, e, h.end)[b + 4 := e - b + 1]
    requires Puttable(m3, head, h3, b) && OffList(m3, m', head, h3.free + [Node(b)])
    ensures Keeps(m, m', Users(h) - {a}) && m'.Keys <= m.Keys
  {
    var u, m2 := Users(h) - {a}, UnmapPages(m, e, h.end);
    hide Shaped, Users, Within, Keeps, Tiled, OffList, Given, Ring, Tagged, CutTop, UnmapPages, Flat, Release, Settle, Puttable, LowUsed;
    GivenFacts(h, a, h2, b);
    CutTopUsers(h2, b, e);
    UnmappedKeeps(m, e, h.end, u);
    PutIn(m3, head, h3, b);
    HeadPutKeeps(m2, e - b + 1, m', head, h3, b, u);
    KeepsTrans(m, m2, m', u);
  }

  lemma PutIn(m: Mem, head: int, h: Heap, b: int)
    requires Puttable(m, head, h, b)
    ensures b in h.chunks
  {
    LooseFree(h, {b}, b);
  }

  lemma CutTopUsers(h: Heap, b: int, e: int)
    requires Shaped(h, {b}) && b in h.chunks && b + h.chunks[b].size == h.end && h.end in h.chunks && LowUsed(h.chunks, h.start, b)
    requires b + MIN_CHUNK_SIZE <= e && (e == h.end || e <= h.end - MIN_CHUNK_SIZE)
    ensures Within(Users(h), CutTop(h, b, e))
  {
    LooseFree(h, {b}, b);
    if e != h.end {
      assert Good(h.chunks, h.start, h.end, b);
      forall x | x in Users(h) ensures x in Users(CutTop(h, b, e)) && Users(CutTop(h, b, e))[x] == Users(h)[x] {
        assert Good(h.chunks, h.start, h.end, x) && x != b;
        if b < x { Ordered(h.chunks, h.start, h.end, b, x); }
      }
    }
  }

  // ---------------------------------------------------------------- palignedAlloc

  /** Lines 341-346: everything is written inside the chunk that is cut, or in the head above it. */
  lemma LeadKeeps(m: Mem, m1: Mem, m': Mem, head: int, h: Heap, a: int, lead: int)
    requires Leadable(m, head, h, a, lead) && a + h.chunks[a].size in h.chunks
    requires m1 == LeadWords(m, h.chunks, a, lead) && a in LeadHeap(h, a, lead).chunks
    requires Puttable(m1, head, LeadHeap(h, a, lead), a) && OffList(m1, m', head, LeadHeap(h, a, lead).free + [Node(a)])
    ensures Keeps(m, m', Users(h) - {a}) && m'.Keys == m.Keys
  {
    var u := Users(h) - {a};
    hide Shaped, Users, Within, Keeps, Tiled, OffList, Ring, Tagged, Spare, Leadable, Puttable, LeadHeap;
    WithinLess(h, a, u);
    LeadRead(m, head, h, a, lead);
    LeadParts(m, head, h, a, lead);
    GapSpare(h, u, a, a + 4);
    GapSpare(h, u, a, a + lead);
    GapSpare(h, u, a, a + lead + 4);
    LeadStores(m, h.chunks, a, lead, u);
    LeadUsers(m, head, h, a, lead);
    PutKeeps(m1, m', head, LeadHeap(h, a, lead), a, u);
    KeepsTrans(m, m1, m', u);
  }

  lemma LeadParts(m: Mem, head: int, h: Heap, a: int, lead: int)
    requires Leadable(m, head, h, a, lead)
    ensures Tiled(h.chunks, h.start, h.end) && a in h.chunks && MIN_CHUNK_SIZE <= lead && lead + MIN_CHUNK_SIZE <= h.chunks[a].size
  {
    ReadyIs(m, head, h);
    ShapedParts(h, {});
  }

  lemma LeadStores(m: Mem, c: Chunks, a: int, lead: int, u: map<int, int>)
    requires a in c && a + 4 in m && a + lead in m && a + lead + 4 in m && Spare(u, a + 4) && Spare(u, a + lead) && Spare(u, a + lead + 4)
    ensures Keeps(m, LeadWords(m, c, a, lead), u) && LeadWords(m, c, a, lead).Keys == m.Keys
  {
    hide Keeps, Spare;
    var m1 := m[a + lead + 4 := c[a].size - lead + 2];
    var m2 := m1[a + 4 := lead + 1];
    KeepsStore(m, a + lead + 4, c[a].size - lead + 2, u);
    KeepsStore(m1, a + 4, lead + 1, u);
    KeepsStore(m2, a + lead, lead, u);
    KeepsTrans(m, m1, m2, u);
    KeepsTrans(m, m2, m2[a + lead := lead], u);
  }

  lemma LeadUsers(m: Mem, head: int, h: Heap, a: int, lead: int)
    requires Leadable(m, head, h, a, lead) && a + h.chunks[a].size in h.chunks
    ensures Within(Users(h) - {a}, LeadHeap(h, a, lead))
  {
    hide Shaped, Ring, Tagged, Rep;
    LeadShape(m, head, h, a, lead);
    Around(h, {}, a);
  }

  /** Lines 355-356 */
  lemma CutKeeps(m: Mem, head: int, h: Heap, a: int, nb: int)
    requires Ready(m, head, h) && InUse(h, a) && MIN_CHUNK_SIZE <= nb && nb + MIN_CHUNK_SIZE <= h.chunks[a].size
    requires a + 4 in m && a + nb + 4 in m
    ensures var m' := CutWords(m, h.chunks, h.start, a, nb); Keeps(m, m', Users(h) - {a}) && m'.Keys == m.Keys
  {
    var u, c := Users(h) - {a}, h.chunks;
    hide Shaped, Users, Within, Keeps, Tiled, Ring, Tagged, Spare, LowUsed;
    ReadyIs(m, head, h);
    ShapedParts(h, {});
    WithinLess(h, a, u);
    GapSpare(h, u, a, a + 4);
    GapSpare(h, u, a, a + nb + 4);
    var v := nb + 2 + if LowUsed(c, h.start, a) then 1 else 0;
    KeepsStore(m, a + 4, v, u);
    KeepsStore(m[a + 4 := v], a + nb + 4, c[a].size - nb + 3, u);
    KeepsTrans(m, m[a + 4 := v], m[a + 4 := v][a + nb + 4 := c[a].size - nb + 3], u);
  }
}
