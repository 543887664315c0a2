/** expand and contract on memory, and the top chunk around them. */
module HeapGrow {
  import opened LinkedLists
  import opened Machine
  import opened HeapModel
  import opened HeapSteps
  import opened HeapOps
  import opened HeapAlloc
  import opened HeapMemory
  import opened HeapTake

  /** Mapping the pages of [lo, hi); what a fresh frame holds is up to `junk`. */
  function MapPages(m: Mem, lo: int, hi: int, junk: int -> int): Mem {
    m + map x | lo <= x < hi :: junk(x)
  }

  /** Unmapping the pages of [lo, hi). */
  function UnmapPages(m: Mem, lo: int, hi: int): Mem {
    map x | x in m && !(lo <= x < hi) :: m[x]
  }

  lemma MapMore(m: Mem, lo: int, mid: int, hi: int, junk: int -> int)
    requires lo <= mid <= hi
    ensures MapPages(MapPages(m, lo, mid, junk), mid, hi, junk) == MapPages(m, lo, hi, junk)
  {
  }

  lemma UnmapMore(m: Mem, lo: int, mid: int, hi: int)
    requires lo <= mid <= hi
    ensures UnmapPages(UnmapPages(m, mid, hi), lo, mid) == UnmapPages(m, lo, hi)
  {
  }

  // ---------------------------------------------------------------- growing

  /** e is where expand may put the end. */
  predicate NewEnd(h: Heap, e: int) {
    h.end + PAGE_SIZE <= e <= h.max && e % PAGE_SIZE == 0
  }

  lemma RingCells(m: Mem, head: int, f: seq<int>, m': Mem)
    requires Ring(m, head, f) && (forall x :: Cell(x, head, f) ==> x in m' && (x in m ==> m'[x] == m[x]))
    ensures Ring(m', head, f)
  {
    forall i | 0 <= i < |f| ensures Mapped(m', f[i]) && m'[f[i]] == m[f[i]] && m'[f[i] + 4] == m[f[i] + 4] {
      assert f[i] in f && Cell(f[i], head, f) && Cell(f[i] + 4, head, f);
    }
    assert Cell(head, head, f) && Cell(head + 4, head, f);
    RingFrame(m, m', head, f);
  }

  /** The list is still there after expand has mapped more pages. */
  lemma GrownList(m: Mem, head: int, h: Heap, e: int, junk: int -> int)
    requires Ready(m, head, h) && h.end <= e <= h.max
    ensures var m1 := MapPages(m, h.end, e, junk);
            Ring(m1, head, h.free) && SizesRead(m1, h.chunks, h.free) && Pages(m1, head, h.start, e)
            && forall x :: x in m && x < h.end ==> x in m1 && m1[x] == m[x]
  {
    hide Shaped, Tagged, Ring, SizesRead;
    ReadyList(m, head, h);
    var m1 := MapPages(m, h.end, e, junk);
    assert forall x :: x in m && !(h.end <= x < e) ==> x in m1 && m1[x] == m[x];
    ListBelow(m, head, h);
    forall x | Cell(x, head, h.free) ensures x in m1 && (x in m ==> m1[x] == m[x]) {
      if x in h.free { assert Mapped(m, x); }
      if x - 4 in h.free { assert Mapped(m, x - 4); }
    }
    RingCells(m, head, h.free, m1);
    SizesKept(m, m1, h.chunks, h.free);
  }

  lemma SizesKept(m: Mem, m': Mem, c: Chunks, f: seq<int>)
    requires SizesRead(m, c, f)
    requires forall l :: l in f && Entry(l) + 4 in m ==> Entry(l) + 4 in m' && m'[Entry(l) + 4] == m[Entry(l) + 4]
    ensures SizesRead(m', c, f)
  {
  }

  /** The words of the list lie in the heap, the head aside. */
  lemma ListBelow(m: Mem, head: int, h: Heap)
    requires Ready(m, head, h)
    ensures forall l :: l in h.free ==> Entry(l) in h.chunks && h.start <= Entry(l) && l + 8 <= h.end && Mapped(m, l)
  {
    hide Ring;
    forall l | l in h.free ensures Entry(l) in h.chunks && h.start <= Entry(l) && l + 8 <= h.end && Mapped(m, l) {
      var i := IndexOf(h.free, l);
      OnList(h, {}, i);
      Around(h, {}, Entry(l));
      NodeMapped(m, head, h, Entry(l));
    }
  }

  // ---------------------------------------------------------------- putting a chunk on the list

  /** Everything is in place for insertChunk on chunk b. */
  ghost predicate Puttable(m: Mem, head: int, h: Heap, b: int) {
    && Shaped(h, {b}) && Aligned(h.chunks) && HeadAside(head, h) && h.end <= h.max
    && Pages(m, head, h.start, h.end) && Ring(m, head, h.free) && Tagged(m, h.chunks, h.start, h.end, {})
  }

  lemma PutReady(m: Mem, head: int, h: Heap, b: int)
    requires Puttable(m, head, h, b)
    ensures b in h.chunks && b + 4 in m && ChunkSize(m[b + 4]) == h.chunks[b].size && SizesRead(m, h.chunks, h.free)
    ensures Ring(m, head, h.free) && Mapped(m, Node(b)) && Outside(Node(b), head, h.free)
  {
    hide Shaped, Ring, Tagged;
    LooseFree(h, {b}, b);
    Around(h, {b}, b);
    ShapedParts(h, {b});
    HeadRead(m, h.chunks, h.start, h.end, {}, b);
    RepSizes(m, h.chunks, h.start, h.end, {}, h.free);
    NodeMapped(m, head, h, b);
    NodeOutside(h.chunks, h.start, h.end, h.free, head, b);
  }

  lemma PutDone(m: Mem, m': Mem, head: int, h: Heap, b: int)
    requires Puttable(m, head, h, b) && b in h.chunks
    requires Ring(m', head, With(h.chunks, h.free, b)) && OffList(m, m', head, h.free + [Node(b)])
    ensures Rep(m', head, h.(free := With(h.chunks, h.free, b)), {})
  {
    hide Shaped, Ring, Tagged, With;
    LooseFree(h, {b}, b);
    ShapedParts(h, {b});
    var f := h.free + [Node(b)];
    assert AllFree(h.chunks, f);
    TaggedOffList(m, m', h.chunks, h.start, h.end, {}, head, f);
  }

  // ---------------------------------------------------------------- the top chunk

  /** The highest entry on the list is the last chunk if and only if that chunk is free. */
  lemma TopEntry(h: Heap, l: int)
    requires Shaped(h, {}) && l in h.free && forall x :: x in h.free ==> x <= l
    ensures h.end in h.chunks && Entry(l) in h.chunks && h.chunks[h.end].prev in h.chunks
    ensures Entry(l) + h.chunks[Entry(l)].size == h.end <==> Entry(l) == h.chunks[h.end].prev
    ensures !h.chunks[h.chunks[h.end].prev].used ==> Entry(l) == h.chunks[h.end].prev
  {
    hide Shaped;
    var c, a := h.chunks, Entry(l);
    var i := IndexOf(h.free, l);
    OnList(h, {}, i);
    Around(h, {}, a);
    var t := c[h.end].prev;
    EndIsNotStart(h);
    Around(h, {}, t);
    if !c[t].used {
      NotLoose(h, {}, t);
      assert Node(t) <= l;
      if t < a {
        ShapedParts(h, {});
        Ordered(c, h.start, h.end, t, a);
      }
    }
  }

  lemma EndIsNotStart(h: Heap)
    requires Shaped(h, {})
    ensures h.end in h.chunks && h.start < h.end && Good(h.chunks, h.start, h.end, h.end)
  {
  }

  lemma NoTopEntry(h: Heap)
    requires Shaped(h, {}) && h.free == []
    ensures h.end in h.chunks && h.chunks[h.end].prev in h.chunks && h.chunks[h.chunks[h.end].prev].used
  {
    hide Shaped;
    EndIsNotStart(h);
    if !h.chunks[h.chunks[h.end].prev].used { NotLoose(h, {}, h.chunks[h.end].prev); }
  }

  /** The heap while alloc has the new top chunk in hand, and that chunk. */
  ghost function Topped(h: Heap, e: int): (r: (Heap, int))
    requires Shaped(h, {}) && h.end + MIN_CHUNK_SIZE <= e
  {
    AppendLoose(h, {}, e);
    assert {} + {h.end} == {h.end};
    MeltDown(h.(end := e, chunks := Append(h.chunks, h.end, e)), h.end)
  }

  lemma ToppedIs(h: Heap, e: int)
    requires Inv(h) && NewEnd(h, e)
    ensures h.end in h.chunks && h.chunks[h.end].prev in h.chunks
    ensures var (h1, b) := Topped(h, e);
            var t := h.chunks[h.end].prev;
            && Shaped(h1, {b}) && Aligned(h1.chunks) && b in h1.chunks && LowUsed(h1.chunks, h.start, b) && h1.chunks[b].size == e - b
            && h1.start == h.start && h1.end == e && h1.max == h.max
            && (if h.chunks[t].used then b == h.end && h1.free == h.free
                else b == t && Node(t) in h.free && h1.free == RemoveAt(h.free, IndexOf(h.free, Node(t))))
            && Grow(h, e) == (h1.(free := With(h1.chunks, h1.free, b)), b)
  {
    hide Shaped, Aligned, Melt, With, RemoveAt, IndexOf;
    AppendLoose(h, {}, e);
    assert {} + {h.end} == {h.end};
    PageIsEight(e);
    AppendAligned(h.chunks, h.end, e);
    AppendFacts(h, e);
    var h0 := h.(end := e, chunks := Append(h.chunks, h.end, e));
    MeltsAligned(h0, h.end);
    MeltDownShape(h0, h.end);
    DownFree(h0, h.end);
  }

  lemma DownFree(h: Heap, a: int)
    requires Shaped(h, {a}) && a in h.chunks && a != h.start && h.chunks[a].prev in h.chunks
    ensures var (h1, b) := MeltDown(h, a);
            if h.chunks[h.chunks[a].prev].used then b == a && h1.free == h.free
            else b == h.chunks[a].prev && Node(b) in h.free && h1.free == RemoveAt(h.free, IndexOf(h.free, Node(b)))
  {
    hide Shaped, Join;
    LooseFree(h, {a}, a);
    Around(h, {a}, a);
    if !h.chunks[h.chunks[a].prev].used {
      Around(h, {a}, h.chunks[a].prev);
      MeltShape(h, h.chunks[a].prev, a, h.chunks[a].prev);
    }
  }

  lemma ToppedTop(h: Heap, e: int)
    requires Shaped(h, {}) && h.end + MIN_CHUNK_SIZE <= e && h.end in h.chunks && h.chunks[h.end].prev in h.chunks
    requires var (h1, b) := Topped(h, e); b in h1.chunks && LowUsed(h1.chunks, h.start, b) && Shaped(h1, {b})
    requires h.chunks[h.chunks[h.end].prev].used || Topped(h, e).1 == h.chunks[h.end].prev
    ensures TopIs(h.chunks, Topped(h, e).0.chunks, h.start, Topped(h, e).1, e)
  {
    hide Shaped, With;
    EndIsNotStart(h);
    AppendLoose(h, {}, e);
    assert {} + {h.end} == {h.end};
    var c, t := h.chunks, h.chunks[h.end].prev;
    var h0 := h.(end := e, chunks := Append(c, h.end, e));
    ShapedParts(h, {});
    Around(h, {}, t);
    forall x | x in c ensures x <= h.end && (x < h.end ==> x <= t) {
      assert Good(c, h.start, h.end, x);
      if t < x { Ordered(c, h.start, h.end, t, x); }
    }
    LooseFree(h0, {h.end}, h.end);
    LooseFree(Topped(h, e).0, {Topped(h, e).1}, Topped(h, e).1);
    if c[t].used {
      DownFree(h0, h.end);
    } else {
      AppendAt(c, h.end, e, t);
      MeltTop(h0, h.end, t);
    }
  }

  lemma AppendAt(c: Chunks, end: int, e: int, t: int)
    requires end in c && e !in c && t in c && t != end && end != e
    ensures var c' := Append(c, end, e); t in c' && c'[t] == c[t] && c'[end].prev == c[end].prev && end + c'[end].size == e && c'[e] == Chunk(0, true, end)
    ensures forall x :: x in Append(c, end, e) <==> x in c || x == e
    ensures forall x :: x in c && x != end ==> Append(c, end, e)[x] == c[x]
  {
  }

  lemma MeltTop(h: Heap, a: int, t: int)
    requires Shaped(h, {a}) && a in h.chunks && a != h.start && t == h.chunks[a].prev && t in h.chunks && !h.chunks[t].used
    requires t + h.chunks[t].size == a && a + h.chunks[a].size == h.end && t < a < h.end && h.end in h.chunks
    ensures var c' := MeltDown(h, a).0.chunks;
            && (forall x :: x in c' <==> x in h.chunks && x != a)
            && (forall x :: x in c' && x != t && x != h.end ==> c'[x] == h.chunks[x])
  {
    hide Shaped;
    LooseFree(h, {a}, a);
    Around(h, {a}, a);
    Around(h, {a}, t);
    MeltShape(h, t, a, t);
  }

  lemma HeadOfTop(c: Chunks, start: int, e: int, b: int)
    requires b in c && !c[b].used && LowUsed(c, start, b) && c[b].size == e - b
    ensures HeadWord(c, start, b) == e - b + 1
  {
  }

  lemma GrowTopTags(m: Mem, m2: Mem, head: int, h: Heap, e: int, junk: int -> int, h1: Heap, b: int)
    requires Ready(m, head, h) && NewEnd(h, e) && (h1, b) == Topped(h, e)
    requires OffList(MapPages(m, h.end, e, junk), m2, head, h.free)
    ensures Tagged(m2, h1.chunks, h.start, e, {b})
  {
    hide Shaped, Ring, Aligned, Tagged, Topped, OffList, TopIs, Tiled, Ready, HeadWord, LowUsed, MapPages, With, RemoveAt, Grow, AllFree, Inv, Pages, NewEnd;
    ReadyIs(m, head, h);
    NewEndIs(h, e);
    ToppedIs(h, e);
    ToppedTop(h, e);
    GrownList(m, head, h, e, junk);
    ShapedParts(h, {});
    ShapedParts(h1, {b});
    BelowEnd(h, b, e);
    TagsGrown(m, MapPages(m, h.end, e, junk), m2, head, h, b);
    TopTags(m, m2, h.chunks, h1.chunks, h.start, h.end, e, b);
  }

  lemma GrowTags(m: Mem, m2: Mem, head: int, h: Heap, e: int, junk: int -> int, h1: Heap, b: int)
    requires Ready(m, head, h) && NewEnd(h, e) && (h1, b) == Topped(h, e)
    requires OffList(MapPages(m, h.end, e, junk), m2, head, h.free)
    ensures Tagged(m2[b + 4 := e - b + 1], h1.chunks, h.start, e, {})
  {
    hide Shaped, Ring, Aligned, Tagged, Topped, OffList, TopIs, Tiled, Ready, HeadWord, LowUsed, MapPages, With, RemoveAt, Grow, AllFree, Inv, Pages, NewEnd;
    ReadyIs(m, head, h);
    NewEndIs(h, e);
    ToppedIs(h, e);
    ShapedParts(h1, {b});
    LooseFree(h1, {b}, b);
    Around(h1, {b}, b);
    GrowTopTags(m, m2, head, h, e, junk, h1, b);
    PutHead(m2, h1.chunks, h.start, e, {b}, b);
    assert {b} - {b} == {};
    HeadOfTop(h1.chunks, h.start, e, b);
  }

  /** After the stores of lines 207-221 the new top chunk is ready for the list. */
  lemma GrowPut(m: Mem, m2: Mem, head: int, h: Heap, e: int, junk: int -> int, h1: Heap, b: int)
    requires Ready(m, head, h) && NewEnd(h, e) && (h1, b) == Topped(h, e)
    requires OffList(MapPages(m, h.end, e, junk), m2, head, h.free) && Ring(m2, head, h1.free)
    ensures b + 4 in m2
    ensures Puttable(m2[b + 4 := e - b + 1], head, h1, b)
  {
    hide Shaped, Ring, Aligned, Tagged, Topped, OffList, Tiled, Ready, LowUsed, MapPages, With, RemoveAt, Grow, AllFree, Inv, Pages, NewEnd;
    ReadyIs(m, head, h);
    NewEndIs(h, e);
    ToppedIs(h, e);
    GrowTags(m, m2, head, h, e, junk, h1, b);
    GrownList(m, head, h, e, junk);
    ShapedParts(h1, {b});
    LooseFree(h1, {b}, b);
    Around(h1, {b}, b);
    PagesKept(MapPages(m, h.end, e, junk), m2, head, h.start, e, h.free);
    NodeMapped(m2, head, h1, b);
    PagesStore(m2, head, h.start, e, b + 4, e - b + 1);
    TagsOffList(h1.chunks, h.start, e, h1.free, head, b);
    RingStore(m2, head, h1.free, b + 4, e - b + 1);
  }

  lemma PagesKept(m: Mem, m': Mem, head: int, start: int, end: int, f: seq<int>)
    requires OffList(m, m', head, f) && Pages(m, head, start, end)
    ensures Pages(m', head, start, end)
  {
  }

  lemma PagesStore(m: Mem, head: int, start: int, end: int, x: int, v: int)
    requires Pages(m, head, start, end) && x in m
    ensures Pages(m[x := v], head, start, end)
  {
  }

  lemma NewEndIs(h: Heap, e: int)
    requires NewEnd(h, e)
    ensures h.end + PAGE_SIZE <= e <= h.max
  {
  }

  lemma ReadyIs(m: Mem, head: int, h: Heap)
    requires Ready(m, head, h)
    ensures Inv(h) && Shaped(h, {}) && HeadAside(head, h) && Tagged(m, h.chunks, h.start, h.end, {}) && h.end <= h.max
    ensures Ring(m, head, h.free) && Pages(m, head, h.start, h.end)
  {
  }

  lemma BelowEnd(h: Heap, b: int, e: int)
    requires Inv(h) && NewEnd(h, e) && b == Topped(h, e).1
    ensures b <= h.end && (b in h.chunks)
  {
    hide Shaped, Topped;
    ToppedIs(h, e);
    EndIsNotStart(h);
    Around(h, {}, h.chunks[h.end].prev);
  }

  lemma TagsGrown(m: Mem, m1: Mem, m2: Mem, head: int, h: Heap, b: int)
    requires Ready(m, head, h) && b in h.chunks && b <= h.end && OffList(m1, m2, head, h.free)
    requires forall x :: x in m && x < h.end ==> x in m1 && m1[x] == m[x]
    ensures forall x :: x in h.chunks && x < b ==> SameTags(m, m2, x)
  {
    hide Shaped, Ring, Tagged;
    ShapedParts(h, {});
    forall x | x in h.chunks && x < b ensures SameTags(m, m2, x) {
      Around(h, {}, x);
      TagsOffList(h.chunks, h.start, h.end, h.free, head, x);
    }
  }

  /** Lines 199-219: which chunk becomes the top one, as the code finds it. */
  lemma GrowChoice(m: Mem, head: int, h: Heap, e: int, junk: int -> int, top: int)
    requires Ready(m, head, h) && NewEnd(h, e)
    requires h.free == [] ==> top == 0
    requires h.free != [] ==> top in h.free && forall l :: l in h.free ==> l <= top
    ensures var (h1, b) := Topped(h, e);
            var m1 := MapPages(m, h.end, e, junk);
            if top == 0 then b == h.end && h1.free == h.free
            else
              && Entry(top) != 0 && Entry(top) + 4 in m1 && Entry(top) in h.chunks && ChunkSize(m1[Entry(top) + 4]) == h.chunks[Entry(top)].size
              && !CInUse(m1[Entry(top) + 4])
              && (if Entry(top) + h.chunks[Entry(top)].size == h.end
                  then b == Entry(top) && h1.free == RemoveAt(h.free, IndexOf(h.free, top)) else b == h.end && h1.free == h.free)
    ensures Shaped(h, {}) && h.end + MIN_CHUNK_SIZE <= e
  {
    hide Shaped, Ring, Tagged, Topped, MapPages, RemoveAt, Inv, Pages, Ready, NewEnd, Grow, With, OffList, ChunkSize, CInUse, PInUse, IndexOf;
    ReadyIs(m, head, h);
    NewEndIs(h, e);
    ToppedIs(h, e);
    if h.free == [] {
      NoTopEntry(h);
    } else {
      ListBelow(m, head, h);
      TopEntry(h, top);
      var i := IndexOf(h.free, top);
      OnList(h, {}, i);
      Around(h, {}, Entry(top));
      ReadyChunk(m, head, h, Entry(top));
      GrownList(m, head, h, e, junk);
      StartPositive(h);
    }
  }

  lemma StartPositive(h: Heap)
    requires Inv(h)
    ensures 0 < h.start
  {
  }

  lemma NothingRemoved(m: Mem, head: int, f: seq<int>)
    ensures OffList(m, m, head, f)
  {
  }

  lemma GrowDone(m: Mem, head: int, h: Heap, e: int)
    requires Inv(h) && NewEnd(h, e) && Rep(m, head, Grow(h, e).0, {})
    ensures Ready(m, head, Grow(h, e).0)
    ensures var g := Grow(h, e).0; g.start == h.start && g.end == e && g.max == h.max
  {
    hide Shaped, Aligned, Grow, Rep;
    GrowInv(h, e);
    GrowShape(h, e);
  }

  lemma EntriesPositive(m: Mem, head: int, h: Heap)
    requires Ready(m, head, h)
    ensures forall l :: l in h.free ==> l > 0
  {
    ListBelow(m, head, h);
  }

  lemma ExpandNew(h: Heap, nb: int)
    requires Inv(h) && 0 < nb < TWO32 && ExpandFits(h, nb) && ExpandedEnd(h, nb).Some?
    ensures NewEnd(h, ExpandedEnd(h, nb).value)
  {
    ExpandExact(h, nb);
  }
}
