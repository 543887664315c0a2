/**
 The lines of heap.c that KernelHeap repairs, as they are written: for each, exactly when the code
 as written leaves a sound heap.
 */
module HeapAsWritten {
  import opened LinkedLists
  import opened HeapModel
  import opened HeapSteps
  import opened HeapOps
  import opened HeapAlloc
  import opened HeapRuns
  import opened HeapMemory
  import opened HeapTake
  import opened HeapGrow
  import opened HeapGive
  import opened HeapAligned

  /**
   What free leaves when a chunk of the heap follows: line 277 lets only addresses outside the heap
   through, so the chunk above is neither merged nor told.
   */
  ghost function FreedAsWritten(h: Heap, a: int): Heap
    requires Shaped(h, {}) && InUse(h, a)
  {
    DownFacts(h, a);
    var (h1, b) := Lowered(h, a);
    h1.(free := With(h1.chunks, h1.free, b))
  }

  /** The memory after lines 311 and 314 as written: foot and head of the freed chunk, then its links. */
  ghost predicate FreeWordsAsWritten(m: Mem, m': Mem, head: int, h: Heap, a: int)
    requires Shaped(h, {}) && InUse(h, a)
  {
    var (h1, b) := Lowered(h, a);
    var n := a + h.chunks[a].size;
    exists m1 ::
      && OffList(m, m1, head, h.free)
      && OffList(m1[n := n - b][b + 4 := n - b + 1], m', head, h1.free + [Node(b)])
  }

  /** Lines 277-293 as written: no free of a chunk below another one ever leaves a sound heap. */
  lemma FreeNeverSound(m: Mem, m': Mem, head: int, h: Heap, a: int)
    requires Ready(m, head, h) && InUse(h, a) && Shaped(h, {}) && a + h.chunks[a].size != h.end
    requires FreeWordsAsWritten(m, m', head, h, a)
    ensures !(Inv(FreedAsWritten(h, a)) && Rep(m', head, FreedAsWritten(h, a), {}))
  {
    hide Shaped, Ring, Lowered, OffList, Inv, With, Flat;
    var g, n := FreedAsWritten(h, a), a + h.chunks[a].size;
    ReadyIs(m, head, h);
    Around(h, {}, a);
    DownFacts(h, a);
    var (h1, b) := Lowered(h, a);
    AboveKept(h, a);
    LooseFree(h1, {b}, b);
    Around(h1, {b}, b);
    if !h.chunks[n].used {
      NotMerged(g, n, b);
    } else {
      AlignedOf(h);
      HeadRead(m, h.chunks, h.start, h.end, {}, n);
      AlignedAt(h.chunks, n);
      NextHeadKept(m, m', head, h, a);
      LoweredEnds(h, a);
      StaleBit(m', head, g, n, h.chunks[n].size);
    }
  }

  lemma NotMerged(h: Heap, n: int, b: int)
    requires n in h.chunks && b in h.chunks && n != h.start && h.chunks[n].prev == b && !h.chunks[n].used && !h.chunks[b].used
    ensures !Inv(h)
  {
    assert Inv(h) ==> Merged(h.chunks, h.start, n);
  }

  lemma StaleBit(m: Mem, head: int, h: Heap, n: int, size: int)
    requires n in h.chunks && n != h.end && n + 4 in m && !LowUsed(h.chunks, h.start, n) && PInUse(m[n + 4]) && h.chunks[n].size == size
    requires size % 8 == 0
    ensures !Rep(m, head, h, {})
  {
    assert Rep(m, head, h, {}) ==> Header(m, h.chunks, h.start, h.end, n);
  }

  /** None of the stores hits the head word of the chunk above. */
  lemma NextHeadKept(m: Mem, m': Mem, head: int, h: Heap, a: int)
    requires Ready(m, head, h) && InUse(h, a) && Shaped(h, {}) && FreeWordsAsWritten(m, m', head, h, a)
    requires var n := a + h.chunks[a].size; n != h.end && n in h.chunks && h.chunks[n].used && n + 4 in m
    ensures var n := a + h.chunks[a].size; n + 4 in m' && m'[n + 4] == m[n + 4]
  {
    hide Shaped, Ring, Lowered, Tagged, Inv, Tiled, OffList, Ready;
    var (h1, b) := Lowered(h, a);
    var n := a + h.chunks[a].size;
    var m1 :| OffList(m, m1, head, h.free) && OffList(m1[n := n - b][b + 4 := n - b + 1], m', head, h1.free + [Node(b)]);
    NextApart(m, head, h, a);
    NextHeadTwice(m, m1, m', head, h.free, h1.free + [Node(b)], n, b);
  }

  lemma NextHeadTwice(m: Mem, m1: Mem, m': Mem, head: int, f: seq<int>, f1: seq<int>, n: int, b: int)
    requires OffList(m, m1, head, f) && OffList(m1[n := n - b][b + 4 := n - b + 1], m', head, f1)
    requires !Cell(n + 4, head, f) && !Cell(n + 4, head, f1) && n + 4 in m && b < n
    ensures n + 4 in m' && m'[n + 4] == m[n + 4]
  {
    hide Cell;
  }

  /** The head word of the chunk above is no link, before the merge with the chunk below or after it. */
  lemma NextApart(m: Mem, head: int, h: Heap, a: int)
    requires Ready(m, head, h) && InUse(h, a) && Shaped(h, {})
    requires var n := a + h.chunks[a].size; n != h.end && n in h.chunks
    ensures var ((h1, b), n) := (Lowered(h, a), a + h.chunks[a].size);
            b < n && !Cell(n + 4, head, h.free) && !Cell(n + 4, head, h1.free + [Node(b)])
  {
    hide Shaped, Ring, Lowered, Tagged, Inv, Tiled, Cell;
    var (h1, b) := Lowered(h, a);
    var n := a + h.chunks[a].size;
    ReadyIs(m, head, h);
    DownFacts(h, a);
    AboveKept(h, a);
    LooseFree(h1, {b}, b);
    Around(h1, {b}, b);
    ShapedParts(h, {});
    ShapedParts(h1, {b});
    InvMax(h);
    TagsOffList(h.chunks, h.start, h.end, h.free, head, n);
    assert AllFree(h1.chunks, h1.free + [Node(b)]);
    LoweredEnds(h, a);
    TagsOffList(h1.chunks, h1.start, h1.end, h1.free + [Node(b)], head, n);
  }

  lemma LoweredEnds(h: Heap, a: int)
    requires Shaped(h, {}) && InUse(h, a)
    ensures Lowered(h, a).0.start == h.start && Lowered(h, a).0.end == h.end && Lowered(h, a).0.max == h.max
  {
    hide Shaped, Users, MeltDown;
    UnmarkedShape(h, a);
    MeltDownShape(Unmarked(h, a), a);
  }

  /** The chunks still tile the heap and the list still holds exactly the free ones; only the merge is missing. */
  lemma FreeStillTiles(h: Heap, a: int)
    requires Inv(h) && InUse(h, a) && Shaped(h, {})
    ensures var g := FreedAsWritten(h, a);
            Tiled(g.chunks, g.start, g.end) && ListSound(g.chunks, g.free) && forall x :: IsFree(g.chunks, x) ==> Node(x) in g.free
  {
    hide Lowered;
    DownFacts(h, a);
    var (h1, b) := Lowered(h, a);
    LooseFree(h1, {b}, b);
    WithSound(h1.chunks, h1.free, b);
  }

  datatype Outcome = Skips | Faults | Panics | Clears | Absorbs

  /** Lines 276-293 as written, up to what they do with the chunk at `next`; a word that is not mapped faults. */
  function AboveAsWritten(m: Mem, start: int, end: int, next: int): Outcome {
    if start <= next < end then Skips
    else if next + 4 !in m then Faults
    else if !PInUse(m[next + 4]) then Panics
    else if CInUse(m[next + 4]) then Clears
    else Absorbs
  }

  /**
   Once the chunk below has been taken off the list, free as written reads an unmapped word and faults
   exactly when the chunk is the last one; for any other it passes over the chunk above.
   */
  lemma FreeTopFaults(m: Mem, m1: Mem, head: int, h: Heap, a: int)
    requires Ready(m, head, h) && InUse(h, a) && OffList(m, m1, head, h.free)
    ensures AboveAsWritten(m1, h.start, h.end, a + h.chunks[a].size) == if a + h.chunks[a].size == h.end then Faults else Skips
  {
    hide Shaped, Ring, Tagged;
    ReadyIs(m, head, h);
    Around(h, {}, a);
    PagesEnd(m, head, h);
  }

  lemma PagesEnd(m: Mem, head: int, h: Heap)
    requires HeadAside(head, h) && Pages(m, head, h.start, h.end) && h.end <= h.max && h.start < h.end
    ensures h.end + 4 !in m
  {
  }

  /** An allocation of 100 bytes in a new heap, freed again by the code as written: two free chunks touch. */
  lemma FreeLeavesTwo()
    ensures var h := Carve(Fresh(0x9000_0000, 0x9010_0000, 0xA000_0000), 0, 104);
            && Inv(h) && InUse(h, 0x9000_0000) && Shaped(h, {})
            && IsFree(FreedAsWritten(h, 0x9000_0000).chunks, 0x9000_0000) && IsFree(FreedAsWritten(h, 0x9000_0000).chunks, 0x9000_0068)
            && FreedAsWritten(h, 0x9000_0000).chunks[0x9000_0068].prev == 0x9000_0000
  {
    var f := Fresh(0x9000_0000, 0x9010_0000, 0xA000_0000);
    FreshInv(0x9000_0000, 0x9010_0000, 0xA000_0000);
    CarveInv(f, 0, 104);
    var h := Carve(f, 0, 104);
    hide Shaped, Users;
    DownStartOf(h);
  }

  lemma DownStartOf(h: Heap)
    requires Shaped(h, {}) && InUse(h, h.start)
    ensures Lowered(h, h.start) == (Unmarked(h, h.start), h.start)
  {
    hide Shaped;
    UnmarkedShape(h, h.start);
    DownStart(Unmarked(h, h.start), h.start);
  }

  // ---------------------------------------------------------------- alloc and palignedAlloc

  /**
   Lines 231-238 as written do not touch the foot above the left-over chunk: it is right exactly when
   there is no chunk above. Otherwise it still leads back to the chunk that is now in use.
   */
  lemma SplitFootAsWritten(m: Mem, head: int, h: Heap, a: int, nb: int)
    requires Taken(m, head, h, a) && MIN_CHUNK_SIZE <= nb && h.chunks[a].size >= nb + MIN_CHUNK_SIZE && nb % 8 == 0
    ensures var e := a + h.chunks[a].size;
            var m' := m[a + nb + 4 := h.chunks[a].size - nb];
            && (Footer(m', CutChunks(h.chunks, a, nb), h.start, h.end, e) <==> e == h.end)
            && (e != h.end ==> e in m' && e - m'[e] == a)
  {
    hide Shaped, Ring;
    var c, e := h.chunks, a + h.chunks[a].size;
    LooseFree(h, {a}, a);
    Around(h, {a}, a);
    if e != h.end {
      FootRead(m, c, h.start, h.end, e);
      SplitLoose(h, {a}, a, nb);
      CarveShaped(h, a, nb);
    }
  }

  /** The memory after lines 341-344 as written: set_inuse keeps a payload bit as PINUSE_BIT of the new chunk. */
  ghost function LeadAsWritten(m: Mem, head: int, h: Heap, a: int, lead: int): Mem
    requires Leadable(m, head, h, a, lead)
  {
    LeadRead(m, head, h, a, lead);
    UseWords(m, a + lead, h.chunks[a].size - lead, h.end)[a + 4 := lead + 1][a + lead := lead]
  }

  /** With insertChunk done, the heap is sound exactly when that payload bit happened to be 0. */
  lemma LeadBitAsWritten(m: Mem, m': Mem, head: int, h: Heap, a: int, lead: int)
    requires Leadable(m, head, h, a, lead)
    requires a + h.chunks[a].size in h.chunks ==>
               var h1 := LeadHeap(h, a, lead);
               a in h1.chunks && Ring(m', head, With(h1.chunks, h.free, a)) && OffList(LeadAsWritten(m, head, h, a, lead), m', head, h.free + [Node(a)])
    ensures a + h.chunks[a].size in h.chunks && a + lead + 4 in m
    ensures Rep(m', head, CutLead(h, a, lead), {}) <==> !PInUse(m[a + lead + 4])
  {
    hide Shaped, Ring, Tagged, Tiled, Aligned, Pages, OffList, With, Inv, LowUsed, Ready;
    LeadRead(m, head, h, a, lead);
    LeadShape(m, head, h, a, lead);
    var n, h1 := a + lead, LeadHeap(h, a, lead);
    LeadIsCut(h, a, lead);
    if !PInUse(m[n + 4]) {
      LeadWordsAre(m, h.chunks, h.end, a, lead, m[n + 4]);
      assert m[n + 4 := m[n + 4]] == m;
      LeadPut(m, head, h, a, lead);
      PutDone(LeadWords(m, h.chunks, a, lead), m', head, h1, a);
    } else {
      LeadHeadKept(m, m', head, h, a, lead);
      ReadyIs(m, head, h);
      Around(h, {}, a);
      LeadHeadWrong(m', head, h, a, lead);
    }
  }

  /** The head of the new chunk says that a chunk in use lies below it, and insertChunk leaves it. */
  lemma LeadHeadKept(m: Mem, m': Mem, head: int, h: Heap, a: int, lead: int)
    requires Leadable(m, head, h, a, lead) && a + h.chunks[a].size in h.chunks && a + lead + 4 in m && PInUse(m[a + lead + 4])
    requires OffList(LeadAsWritten(m, head, h, a, lead), m', head, h.free + [Node(a)])
    ensures a + lead + 4 in m' && m'[a + lead + 4] == h.chunks[a].size - lead + 3
  {
    hide Shaped, Ring, Tagged, Tiled, Aligned, Pages, Inv, LowUsed, LeadAsWritten;
    LeadShape(m, head, h, a, lead);
    var n, h1 := a + lead, LeadHeap(h, a, lead);
    ShapedParts(h1, {a});
    LooseFree(h1, {a}, a);
    assert AllFree(h1.chunks, h1.free + [Node(a)]);
    ReadyIs(m, head, h);
    TagsOffList(h1.chunks, h.start, h.end, h1.free + [Node(a)], head, n);
    LeadHeadStored(m, head, h, a, lead);
    hide Cell, LeadHeap;
  }

  lemma LeadHeadStored(m: Mem, head: int, h: Heap, a: int, lead: int)
    requires Leadable(m, head, h, a, lead) && a + h.chunks[a].size in h.chunks && a + lead + 4 in m && PInUse(m[a + lead + 4])
    ensures var m1 := LeadAsWritten(m, head, h, a, lead); a + lead + 4 in m1 && m1[a + lead + 4] == h.chunks[a].size - lead + 3
  {
    hide Ready;
    LeadRead(m, head, h, a, lead);
  }

  lemma LeadHeadWrong(m: Mem, head: int, h: Heap, a: int, lead: int)
    requires a in h.chunks && a + h.chunks[a].size in h.chunks && 0 < lead < h.chunks[a].size && a + lead !in h.chunks && a + lead != h.end
    requires h.chunks[a].used && h.start <= a && a + lead + 4 in m && m[a + lead + 4] == h.chunks[a].size - lead + 3
    ensures !Rep(m, head, CutLead(h, a, lead), {})
  {
    var g := CutLead(h, a, lead);
    assert a + lead in g.chunks && g.chunks[a + lead] == Chunk(h.chunks[a].size - lead, true, a) && !g.chunks[a].used;
    assert !Header(m, g.chunks, g.start, g.end, a + lead);
  }
}
