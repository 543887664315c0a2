/** palignedAlloc on memory: cutting off the front and the back of the chunk alloc returned. */
module HeapAligned {
  import opened LinkedLists
  import opened Machine
  import opened HeapModel
  import opened HeapSteps
  import opened HeapOps
  import opened HeapAlloc
  import opened HeapMemory
  import opened HeapTake
  import opened HeapGrow

  /** The chunks with the front of a cut off and free, not yet on the list. */
  ghost function LeadHeap(h: Heap, a: int, lead: int): Heap
    requires a in h.chunks && a + h.chunks[a].size in h.chunks
  {
    h.(chunks := Mark(Split(h.chunks, a, lead), a, false))
  }

  ghost predicate Leadable(m: Mem, head: int, h: Heap, a: int, lead: int) {
    && Ready(m, head, h) && InUse(h, a) && LowUsed(h.chunks, h.start, a)
    && MIN_CHUNK_SIZE <= lead <= h.chunks[a].size - MIN_CHUNK_SIZE && lead % 8 == 0
  }

  lemma LeadShape(m: Mem, head: int, h: Heap, a: int, lead: int)
    requires Leadable(m, head, h, a, lead)
    ensures Shaped(h, {}) && a + h.chunks[a].size in h.chunks && a + lead !in h.chunks && h.end <= h.max
    ensures Shaped(LeadHeap(h, a, lead), {a}) && Aligned(LeadHeap(h, a, lead).chunks)
    ensures a + lead in LeadHeap(h, a, lead).chunks && a + lead != h.end
  {
    hide Shaped;
    Around(h, {}, a);
    SplitLoose(h, {}, a, lead);
    SplitAligned(h.chunks, a, lead);
    var h1 := h.(chunks := Split(h.chunks, a, lead));
    MarkFree(h1, {}, a);
    assert {} + {a} == {a};
    MarkAligned(h1.chunks, a, false);
  }

  /** The words the code reads and writes are mapped; the chunk above is marked as following one in use. */
  lemma LeadRead(m: Mem, head: int, h: Heap, a: int, lead: int)
    requires Leadable(m, head, h, a, lead)
    ensures a + 4 in m && ChunkSize(m[a + 4]) == h.chunks[a].size && a + lead in m && a + lead + 4 in m
    ensures var e := a + h.chunks[a].size; e <= h.end && e in h.chunks && (e != h.end ==> e + 4 in m && PInUse(m[e + 4]))
  {
    hide Shaped, Ring, Tagged;
    Around(h, {}, a);
    var e := a + h.chunks[a].size;
    ReadyChunk(m, head, h, a);
    LeadShape(m, head, h, a, lead);
    InsidePages(m, head, h.start, h.end, a + lead);
    if e != h.end { ReadyChunk(m, head, h, e); }
  }

  lemma InsidePages(m: Mem, head: int, start: int, end: int, x: int)
    requires Pages(m, head, start, end) && start <= x && x + 4 < end
    ensures x in m && x + 4 in m
  {
  }

  /** Lines 341-344: everything is in place to put the lead on the list. */
  lemma LeadPut(m: Mem, head: int, h: Heap, a: int, lead: int)
    requires Leadable(m, head, h, a, lead)
    ensures a in h.chunks && a + h.chunks[a].size in h.chunks
    ensures Puttable(LeadWords(m, h.chunks, a, lead), head, LeadHeap(h, a, lead), a)
  {
    hide Shaped, Ring, Tagged, Tiled, Aligned, Pages, AllFree, LowUsed, Inv;
    LeadRead(m, head, h, a, lead);
    LeadShape(m, head, h, a, lead);
    Around(h, {}, a);
    var c, n, h1 := h.chunks, a + lead, LeadHeap(h, a, lead);
    ShapedParts(h, {});
    ShapedParts(h1, {a});
    LeadTags(m, c, h.start, h.end, a, lead);
    LooseFree(h1, {a}, a);
    TagsOffList(h1.chunks, h.start, h.end, h.free, head, a);
    TagsOffList(h1.chunks, h.start, h.end, h.free, head, n);
    var m1 := m[n + 4 := c[a].size - lead + 2];
    RingStore(m, head, h.free, n + 4, c[a].size - lead + 2);
    PagesStore(m, head, h.start, h.end, n + 4, c[a].size - lead + 2);
    RingStore(m1, head, h.free, a + 4, lead + 1);
    PagesStore(m1, head, h.start, h.end, a + 4, lead + 1);
    RingStore(m1[a + 4 := lead + 1], head, h.free, n, lead);
    PagesStore(m1[a + 4 := lead + 1], head, h.start, h.end, n, lead);
  }

  /** set_inuse on the new chunk with PINUSE_BIT clear, then the stores of lines 343-344. */
  lemma LeadWordsAre(m: Mem, c: Chunks, end: int, a: int, lead: int, junk: int)
    requires a in c && a + lead + 4 in m && MIN_CHUNK_SIZE <= lead && lead + MIN_CHUNK_SIZE <= c[a].size
    requires !PInUse(junk) && (a + c[a].size != end ==> a + c[a].size + 4 in m && PInUse(m[a + c[a].size + 4]))
    ensures UseWords(m[a + lead + 4 := junk], a + lead, c[a].size - lead, end)[a + 4 := lead + 1][a + lead := lead] == LeadWords(m, c, a, lead)
  {
  }

  /** Both set_inuse of lines 355-356 together. */
  lemma CutWordsAre(m: Mem, c: Chunks, start: int, end: int, a: int, nb: int)
    requires a in c && a + 4 in m && a + nb + 4 in m && MIN_CHUNK_SIZE <= nb && nb + MIN_CHUNK_SIZE <= c[a].size && a + nb != end
    requires PInUse(m[a + 4]) <==> LowUsed(c, start, a)
    requires a + c[a].size != end ==> a + c[a].size + 4 in m && PInUse(m[a + c[a].size + 4])
    ensures UseWords(UseWords(m, a, nb, end), a + nb, c[a].size - nb, end) == CutWords(m, c, start, a, nb)
  {
  }

  /** Lines 353-356 have cut chunk a, in use, into two chunks in use. */
  lemma CutRep(m: Mem, head: int, h: Heap, a: int, nb: int)
    requires Ready(m, head, h) && InUse(h, a) && MIN_CHUNK_SIZE <= nb && nb % 8 == 0 && h.chunks[a].size > nb + MIN_CHUNK_SIZE
    ensures a + h.chunks[a].size in h.chunks && a + nb != h.end && a + 4 in m && a + nb + 4 in m
    ensures (PInUse(m[a + 4]) <==> LowUsed(h.chunks, h.start, a))
    ensures a + h.chunks[a].size != h.end ==> a + h.chunks[a].size + 4 in m && PInUse(m[a + h.chunks[a].size + 4])
    ensures Rep(CutWords(m, h.chunks, h.start, a, nb), head, h.(chunks := Split(h.chunks, a, nb)), {})
  {
    hide Shaped, Ring, Tagged, Tiled, Aligned, Pages, AllFree, LowUsed, Inv;
    ReadyIs(m, head, h);
    Around(h, {}, a);
    var c, n, e := h.chunks, a + nb, a + h.chunks[a].size;
    ReadyChunk(m, head, h, a);
    if e != h.end { ReadyChunk(m, head, h, e); UsedBelow(h, a); }
    SplitLoose(h, {}, a, nb);
    var h1 := h.(chunks := Split(c, a, nb));
    ShapedParts(h, {});
    ShapedParts(h1, {});
    CutTags(m, c, h.start, h.end, a, nb);
    InsidePages(m, head, h.start, h.end, n);
    TagsOffList(h1.chunks, h.start, h.end, h.free, head, a);
    TagsOffList(h1.chunks, h.start, h.end, h.free, head, n);
    CutRing(m, head, h, a, nb);
  }

  lemma CutRing(m: Mem, head: int, h: Heap, a: int, nb: int)
    requires a in h.chunks && a + 4 in m && a + nb + 4 in m
    requires Ring(m, head, h.free) && Pages(m, head, h.start, h.end) && !Cell(a + 4, head, h.free) && !Cell(a + nb + 4, head, h.free)
    ensures Ring(CutWords(m, h.chunks, h.start, a, nb), head, h.free) && Pages(CutWords(m, h.chunks, h.start, a, nb), head, h.start, h.end)
  {
    hide Ring, Pages;
    var c, n := h.chunks, a + nb;
    var v := nb + 2 + if LowUsed(c, h.start, a) then 1 else 0;
    RingStore(m, head, h.free, a + 4, v);
    PagesStore(m, head, h.start, h.end, a + 4, v);
    RingStore(m[a + 4 := v], head, h.free, n + 4, c[a].size - nb + 3);
    PagesStore(m[a + 4 := v], head, h.start, h.end, n + 4, c[a].size - nb + 3);
  }

  lemma UsedBelow(h: Heap, a: int)
    requires Shaped(h, {}) && InUse(h, a)
    ensures a + h.chunks[a].size in h.chunks && LowUsed(h.chunks, h.start, a + h.chunks[a].size)
  {
    hide Shaped;
    Around(h, {}, a);
  }

  lemma ReadyLeadable(m: Mem, head: int, h: Heap, p: int, nb: int)
    requires Ready(m, head, h) && InUse(h, Entry(p)) && LowUsed(h.chunks, h.start, Entry(p)) && p % PAGE_SIZE != 0
    requires MIN_CHUNK_SIZE <= nb && nb + PAGE_SIZE + MIN_CHUNK_SIZE <= h.chunks[Entry(p)].size
    ensures Leadable(m, head, h, Entry(p), LeadSize(p))
  {
    hide Shaped, Ring, Tagged, LeadSize, Rep;
    AlignedAt(h.chunks, Entry(p));
    LeadFacts(p);
  }

  lemma LeadIsCut(h: Heap, a: int, lead: int)
    requires a in h.chunks && a + h.chunks[a].size in h.chunks
    ensures a in LeadHeap(h, a, lead).chunks
    ensures var h1 := LeadHeap(h, a, lead); CutLead(h, a, lead) == h1.(free := With(h1.chunks, h1.free, a))
  {
  }

  lemma ClearedLow(word: int)
    ensures !PInUse(ClearPInUse(word))
  {
  }

  lemma PayloadPage(p: int)
    requires p % PAGE_SIZE != 0
    ensures var br := p - p % PAGE_SIZE + PAGE_SIZE - 8;
            var pos := if br - Entry(p) >= MIN_CHUNK_SIZE then br else br + PAGE_SIZE;
            pos - Entry(p) == LeadSize(p) && Node(pos) == p + LeadSize(p)
  {
  }
}
