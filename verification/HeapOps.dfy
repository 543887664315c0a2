/** alloc, free and palignedAlloc on the values of HeapModel, and what they keep. */
module HeapOps {
  import opened LinkedLists
  import opened Machine
  import opened HeapModel
  import opened HeapSteps

  datatype Option<+T> = None | Some(value: T)

  /** The chunks in use, with their sizes. */
  ghost function Users(h: Heap): map<int, int> {
    map a | a in h.chunks && a != h.end && h.chunks[a].used :: h.chunks[a].size
  }

  lemma Around(h: Heap, loose: set<int>, a: int)
    requires Shaped(h, loose) && a in h.chunks && (IsFree(h.chunks, a) || a != h.end)
    ensures a != h.end && Good(h.chunks, h.start, h.end, a) && Good(h.chunks, h.start, h.end, h.end)
    ensures a + h.chunks[a].size in h.chunks && Good(h.chunks, h.start, h.end, a + h.chunks[a].size)
    ensures a < h.end && a + h.chunks[a].size <= h.end
  {
    assert Good(h.chunks, h.start, h.end, a) && Good(h.chunks, h.start, h.end, h.end);
    assert Good(h.chunks, h.start, h.end, a + h.chunks[a].size);
  }

  lemma LooseFree(h: Heap, loose: set<int>, a: int)
    requires Shaped(h, loose) && a in loose
    ensures IsFree(h.chunks, a) && Node(a) !in h.free
  {
  }

  lemma OnList(h: Heap, loose: set<int>, i: int)
    requires Shaped(h, loose) && 0 <= i < |h.free|
    ensures IsFree(h.chunks, Entry(h.free[i])) && Entry(h.free[i]) !in loose
  {
    assert Node(Entry(h.free[i])) == h.free[i];
  }

  lemma NotLoose(h: Heap, loose: set<int>, a: int)
    requires Shaped(h, loose) && IsFree(h.chunks, a) && a !in loose
    ensures Node(a) in h.free
  {
  }

  lemma Quiet(h: Heap, loose: set<int>, a: int)
    requires Shaped(h, loose) && a in h.chunks && a !in loose && h.chunks[a].prev !in loose
    ensures Merged(h.chunks, h.start, a)
  {
  }

  // ---------------------------------------------------------------- taking a chunk

  /** alloc, lines 229-243: the chunk at list position i serves nb bytes; what is left over goes back on the list. */
  ghost function Carve(h: Heap, i: int, nb: int): Heap
    requires Shaped(h, {}) && 0 <= i < |h.free|
  {
    var c, a, f := h.chunks, Entry(h.free[i]), RemoveAt(h.free, i);
    OnList(h, {}, i);
    Around(h, {}, a);
    if c[a].size >= nb + MIN_CHUNK_SIZE then
      var c' := Mark(Split(c, a, nb), a, true);
      h.(chunks := c', free := With(c', f, a + nb))
    else
      h.(chunks := Mark(c, a, true), free := f)
  }

  lemma CarveInv(h: Heap, i: int, nb: int)
    requires Inv(h) && 0 <= i < |h.free| && MIN_CHUNK_SIZE <= nb <= SizeAt(h.chunks, h.free[i]) && nb % 8 == 0
    ensures var a, h' := Entry(h.free[i]), Carve(h, i, nb);
            && Inv(h') && a in h'.chunks && a != h.end && LowUsed(h'.chunks, h.start, a)
            && nb <= h'.chunks[a].size < nb + MIN_CHUNK_SIZE
            && a !in Users(h) && Users(h') == Users(h)[a := h'.chunks[a].size]
  {
    CarveShape(h, i, nb);
    CarveAligned(h, i, nb);
  }

  lemma CarveAligned(h: Heap, i: int, nb: int)
    requires Shaped(h, {}) && Aligned(h.chunks) && 0 <= i < |h.free| && nb % 8 == 0
    ensures Aligned(Carve(h, i, nb).chunks)
  {
    hide Shaped;
    var c, a := h.chunks, Entry(h.free[i]);
    OnList(h, {}, i);
    Around(h, {}, a);
    if c[a].size >= nb + MIN_CHUNK_SIZE {
      SplitAligned(c, a, nb);
      MarkAligned(Split(c, a, nb), a, true);
    } else {
      MarkAligned(c, a, true);
    }
  }

  lemma CarveShape(h: Heap, i: int, nb: int)
    requires Shaped(h, {}) && 0 <= i < |h.free| && MIN_CHUNK_SIZE <= nb <= SizeAt(h.chunks, h.free[i])
    ensures var a, h' := Entry(h.free[i]), Carve(h, i, nb);
            && Shaped(h', {}) && a in h'.chunks && a != h.end && LowUsed(h'.chunks, h.start, a)
            && nb <= h'.chunks[a].size < nb + MIN_CHUNK_SIZE
            && a !in Users(h) && Users(h') == Users(h)[a := h'.chunks[a].size]
  {
    hide Shaped, With, Split, RemoveAt;
    var c, a := h.chunks, Entry(h.free[i]);
    OnList(h, {}, i);
    Around(h, {}, a);
    Quiet(h, {}, a);
    Quiet(h, {}, a + c[a].size);
    TakeOff(h, {}, i);
    var h1 := h.(free := RemoveAt(h.free, i));
    assert {} + {a} == {a};
    if c[a].size >= nb + MIN_CHUNK_SIZE {
      CarveSplit(h1, a, nb);
      CarveUsers(h1, a, nb);
    } else {
      MarkUsed(h1, {a}, a);
      assert {a} - {a} == {};
    }
  }

  lemma CarveSplit(h: Heap, a: int, nb: int)
    requires Shaped(h, {a}) && a in h.chunks && LowUsed(h.chunks, h.start, a)
    requires MIN_CHUNK_SIZE <= nb && h.chunks[a].size >= nb + MIN_CHUNK_SIZE
    requires a + h.chunks[a].size in h.chunks && h.chunks[a + h.chunks[a].size].used
    ensures a + nb !in h.chunks
    ensures var c' := Mark(Split(h.chunks, a, nb), a, true);
            && Shaped(h.(chunks := c', free := With(c', h.free, a + nb)), {})
            && LowUsed(c', h.start, a) && c'[a].size == nb
  {
    hide Shaped, With;
    var c, n := h.chunks, a + nb;
    LooseFree(h, {a}, a);
    Around(h, {a}, a);
    SplitLoose(h, {a}, a, nb);
    var h1 := h.(chunks := Split(c, a, nb));
    MarkUsed(h1, {a} + {n}, a);
    assert {a} + {n} - {a} == {n};
    var c2 := Mark(h1.chunks, a, true);
    PutOn(h1.(chunks := c2), {n}, n);
    assert {n} - {n} == {};
  }

  lemma CarveUsers(h: Heap, a: int, nb: int)
    requires a in h.chunks && a != h.end && a + h.chunks[a].size in h.chunks && !h.chunks[a].used
    requires a < a + nb < a + h.chunks[a].size <= h.end && a + nb !in h.chunks
    ensures Users(h.(chunks := Mark(Split(h.chunks, a, nb), a, true))) == Users(h)[a := nb]
  {
  }
  // ---------------------------------------------------------------- giving a chunk back

  /** Chunk p, free, melts with the free chunk after it; whichever of the two is on the list comes off. */
  ghost function Melt(h: Heap, p: int, listed: int): Heap
    requires p in h.chunks && p + h.chunks[p].size in h.chunks
    requires p + h.chunks[p].size + h.chunks[p + h.chunks[p].size].size in h.chunks
    requires Node(listed) in h.free
  {
    h.(chunks := Join(h.chunks, p), free := Without(h.free, listed))
  }

  lemma MeltShape(h: Heap, p: int, x: int, y: int)
    requires Shaped(h, {x}) && p in h.chunks && IsFree(h.chunks, y) && y != x
    requires (p == x && y == p + h.chunks[p].size) || (p == y && x == p + h.chunks[p].size)
    ensures Node(y) in h.free && Good(h.chunks, h.start, h.end, p)
    ensures p + h.chunks[p].size in h.chunks && p + h.chunks[p].size + h.chunks[p + h.chunks[p].size].size in h.chunks
    ensures Shaped(Melt(h, p, y), {p})
    ensures var c' := Melt(h, p, y).chunks; IsFree(c', p) && c'[p].size == h.chunks[x].size + h.chunks[y].size && c'[p].prev == h.chunks[p].prev
  {
    hide Shaped, Without, Join;
    var c, n := h.chunks, p + h.chunks[p].size;
    LooseFree(h, {x}, x);
    NotLoose(h, {x}, y);
    Around(h, {x}, p);
    Around(h, {x}, n);
    TakeOff(h, {x}, IndexOf(h.free, Node(y)));
    var h1 := h.(free := RemoveAt(h.free, IndexOf(h.free, Node(y))));
    assert Without(h.free, y) == h1.free by { WithoutIs(h.free, y); }
    assert {x} + {y} == {p, n};
    JoinLoose(h1, {p, n}, p);
    assert {p, n} - {n} == {p};
    JoinAt(c, p);
  }

  lemma WithoutIs(free: seq<int>, a: int)
    requires Node(a) in free
    ensures Without(free, a) == RemoveAt(free, IndexOf(free, Node(a)))
  {
  }

  lemma JoinAt(c: Chunks, p: int)
    requires p in c && p + c[p].size in c && p + c[p].size + c[p + c[p].size].size in c
    requires 0 < c[p].size && 0 < c[p + c[p].size].size
    ensures p in Join(c, p) && Join(c, p)[p] == c[p].(size := c[p].size + c[p + c[p].size].size)
  {
  }

  lemma MeltUsers(h: Heap, p: int, listed: int)
    requires p in h.chunks && p + h.chunks[p].size in h.chunks && p != h.end && p + h.chunks[p].size != h.end
    requires p + h.chunks[p].size + h.chunks[p + h.chunks[p].size].size in h.chunks
    requires 0 < h.chunks[p].size && 0 < h.chunks[p + h.chunks[p].size].size
    requires !h.chunks[p].used && !h.chunks[p + h.chunks[p].size].used && Node(listed) in h.free
    ensures Users(Melt(h, p, listed)) == Users(h)
  {
    hide Without;
    var n := p + h.chunks[p].size;
    var c' := Join(h.chunks, p);
    assert forall x :: x in c' <==> x in h.chunks && x != n;
  }

  /** free, lines 263-274: chunk a, just freed, melts with a free chunk below it. */
  ghost function MeltDown(h: Heap, a: int): (r: (Heap, int))
    requires Shaped(h, {a})
  {
    LooseFree(h, {a}, a);
    Around(h, {a}, a);
    if LowUsed(h.chunks, h.start, a) then (h, a)
    else
      var p := h.chunks[a].prev;
      Around(h, {a}, p);
      MeltShape(h, p, a, p);
      (Melt(h, p, p), p)
  }

  lemma MeltDownShape(h: Heap, a: int)
    requires Shaped(h, {a})
    ensures var (h', b) := MeltDown(h, a);
            && Shaped(h', {b}) && IsFree(h'.chunks, b) && LowUsed(h'.chunks, h.start, b) && Users(h') == Users(h)
            && h' == h.(chunks := h'.chunks, free := h'.free) && b + h'.chunks[b].size == a + h.chunks[a].size
            && h'.chunks[b].size >= h.chunks[a].size
  {
    hide Shaped, Melt, Users;
    LooseFree(h, {a}, a);
    Around(h, {a}, a);
    if !LowUsed(h.chunks, h.start, a) {
      var p := h.chunks[a].prev;
      Around(h, {a}, p);
      MeltShape(h, p, a, p);
      MeltUsers(h, p, p);
      if p != h.start {
        Around(h, {a}, h.chunks[p].prev);
        Quiet(h, {a}, p);
      }
      MeltLow(h, p, p);
    }
  }

  lemma MeltLow(h: Heap, p: int, listed: int)
    requires p in h.chunks && p + h.chunks[p].size in h.chunks && 0 < h.chunks[p].size && 0 < h.chunks[p + h.chunks[p].size].size
    requires p + h.chunks[p].size + h.chunks[p + h.chunks[p].size].size in h.chunks
    requires Node(listed) in h.free && LowUsed(h.chunks, h.start, p)
    ensures p in Melt(h, p, listed).chunks && LowUsed(Melt(h, p, listed).chunks, h.start, p)
    ensures Melt(h, p, listed) == h.(chunks := Melt(h, p, listed).chunks, free := Melt(h, p, listed).free)
  {
    hide Without;
  }

  /** free, lines 276-293: a free chunk above melts in. */
  ghost function MeltUp(h: Heap, b: int): Heap
    requires Shaped(h, {b})
  {
    LooseFree(h, {b}, b);
    Around(h, {b}, b);
    var n := b + h.chunks[b].size;
    if n == h.end || h.chunks[n].used then h
    else
      MeltShape(h, b, b, n);
      Melt(h, b, n)
  }

  lemma MeltUpShape(h: Heap, b: int)
    requires Shaped(h, {b}) && b in h.chunks && LowUsed(h.chunks, h.start, b)
    ensures var h' := MeltUp(h, b);
            && Shaped(h', {b}) && IsFree(h'.chunks, b) && LowUsed(h'.chunks, h.start, b) && Users(h') == Users(h)
            && h' == h.(chunks := h'.chunks, free := h'.free) && h'.chunks[b].size >= h.chunks[b].size
            && b + h'.chunks[b].size in h'.chunks && h'.chunks[b + h'.chunks[b].size].used
  {
    hide Shaped, Melt, Users;
    LooseFree(h, {b}, b);
    Around(h, {b}, b);
    var n := b + h.chunks[b].size;
    if n != h.end && !h.chunks[n].used {
      Around(h, {b}, n);
      MeltShape(h, b, b, n);
      MeltUsers(h, b, n);
      MeltLow(h, b, n);
      Quiet(h, {b}, n + h.chunks[n].size);
      MeltNext(h, b, n);
    }
  }

  lemma MeltNext(h: Heap, p: int, listed: int)
    requires p in h.chunks && p + h.chunks[p].size in h.chunks && 0 < h.chunks[p].size && 0 < h.chunks[p + h.chunks[p].size].size
    requires p + h.chunks[p].size + h.chunks[p + h.chunks[p].size].size in h.chunks && Node(listed) in h.free
    ensures var c' := Melt(h, p, listed).chunks;
            var e := p + h.chunks[p].size + h.chunks[p + h.chunks[p].size].size;
            p in c' && p + c'[p].size == e && e in c' && c'[e].used == h.chunks[e].used
  {
    hide Without;
  }

  // ---------------------------------------------------------------- the end of the heap

  /** The rounding of expand and contract: up to a whole number of pages. */
  function RoundUp(x: int): (r: int)
    ensures r % PAGE_SIZE == 0 && x <= r < x + PAGE_SIZE
  {
    if x % PAGE_SIZE != 0 then x - x % PAGE_SIZE + PAGE_SIZE else x
  }

  /** free, lines 297-302 with contract: where the heap is to end when its last chunk, b, is free. */
  function TrimmedEnd(start: int, b: int): int {
    var off := b - start;
    var n := if off % PAGE_SIZE != 0 then RoundUp(off + MIN_CHUNK_SIZE) else off;
    start + if n < HEAP_MIN_SIZE then HEAP_MIN_SIZE else n
  }

  /** The ASSERT of contract fails. */
  predicate TrimHalts(start: int, end: int, b: int) {
    (b - start) % PAGE_SIZE != 0 && b - start + MIN_CHUNK_SIZE >= end - start
  }

  lemma RoundUpLeast(x: int, m: int)
    requires m % PAGE_SIZE == 0 && x <= m
    ensures RoundUp(x) <= m
  {
    var q, k := RoundUp(x) / PAGE_SIZE, m / PAGE_SIZE;
    assert RoundUp(x) == q * PAGE_SIZE && m == k * PAGE_SIZE;
  }

  lemma OnPages(start: int, x: int)
    requires start % PAGE_SIZE == 0
    ensures (x - start) % PAGE_SIZE == 0 <==> x % PAGE_SIZE == 0
    ensures (start + x) % PAGE_SIZE == 0 <==> x % PAGE_SIZE == 0
  {
    var k := start / PAGE_SIZE;
    assert start == k * PAGE_SIZE;
  }

  lemma Multiples(x: int, y: int)
    requires x % PAGE_SIZE == 0 && y % PAGE_SIZE == 0 && x < y
    ensures x + PAGE_SIZE <= y
  {
  }

  lemma PageIsEight(x: int)
    requires x % PAGE_SIZE == 0
    ensures x % 8 == 0
  {
    assert x == (x / PAGE_SIZE) * 512 * 8;
  }

  /** A shrink stays above the minimum, ends on a page, and leaves nothing of the last chunk or at least a whole chunk. */
  lemma TrimFacts(start: int, end: int, b: int)
    requires start % PAGE_SIZE == 0 && end % PAGE_SIZE == 0
    requires start + HEAP_MIN_SIZE <= end && start <= b && b + MIN_CHUNK_SIZE <= end
    ensures TrimHalts(start, end, b) <==> b + MIN_CHUNK_SIZE == end
    ensures var e := TrimmedEnd(start, b);
            !TrimHalts(start, end, b) ==>
              && e % PAGE_SIZE == 0 && start + HEAP_MIN_SIZE <= e <= end
              && (e == b || b + MIN_CHUNK_SIZE <= e) && (e == end || e + PAGE_SIZE <= end)
  {
    var off := b - start;
    OnPages(start, end);
    OnPages(start, b);
    if off % PAGE_SIZE != 0 {
      if off + MIN_CHUNK_SIZE < end - start {
        var r := RoundUp(off + MIN_CHUNK_SIZE);
        RoundUpLeast(off + MIN_CHUNK_SIZE, end - start);
        OnPages(start, r);
        TrimPage(start, end, r);
      }
    } else {
      Multiples(b, end);
      TrimPage(start, end, off);
      if off < HEAP_MIN_SIZE { Multiples(off, HEAP_MIN_SIZE); }
    }
  }

  lemma TrimPage(start: int, end: int, n: int)
    requires start % PAGE_SIZE == 0 && end % PAGE_SIZE == 0 && n % PAGE_SIZE == 0
    requires start + HEAP_MIN_SIZE <= end && start + n <= end
    ensures var e := start + if n < HEAP_MIN_SIZE then HEAP_MIN_SIZE else n;
            e % PAGE_SIZE == 0 && start + HEAP_MIN_SIZE <= e <= end && (e == end || e + PAGE_SIZE <= end)
  {
    var m := if n < HEAP_MIN_SIZE then HEAP_MIN_SIZE else n;
    OnPages(start, m);
    if start + m < end { Multiples(start + m, end); }
  }

  /** free, lines 295-316: the merged chunk b goes on the list, or the heap shrinks into it. */
  ghost function Settle(h: Heap, b: int): Option<Heap>
    requires Shaped(h, {b})
  {
    LooseFree(h, {b}, b);
    Around(h, {b}, b);
    var c, e := h.chunks, TrimmedEnd(h.start, b);
    if b + c[b].size != h.end then Some(h.(free := With(c, h.free, b)))
    else if TrimHalts(h.start, h.end, b) then None
    else if e == b then Some(h.(end := b, chunks := Drop(c, h.end, b)))
    else if e == h.end then Some(h.(free := With(c, h.free, b)))
    else Some(Shrink(h, b, e))
  }

  ghost function Shrink(h: Heap, b: int, e: int): Heap
    requires b in h.chunks && b != h.end && b + h.chunks[b].size in h.chunks
  {
    var c' := Drop(Split(h.chunks, b, e - b), h.end, e);
    h.(end := e, chunks := c', free := With(c', h.free, b))
  }

  lemma ShrinkShape(h: Heap, b: int, e: int)
    requires Shaped(h, {b}) && b in h.chunks && b != h.end && LowUsed(h.chunks, h.start, b)
    requires b + h.chunks[b].size == h.end && h.end in h.chunks && b + MIN_CHUNK_SIZE <= e <= h.end - MIN_CHUNK_SIZE
    ensures Shaped(Shrink(h, b, e), {}) && Users(Shrink(h, b, e)) == Users(h)
  {
    hide Shaped, With;
    var c := h.chunks;
    LooseFree(h, {b}, b);
    Around(h, {b}, b);
    SplitLoose(h, {b}, b, e - b);
    var h1 := h.(chunks := Split(c, b, e - b));
    assert {b} + {e} == {b, e};
    DropLoose(h1, {b, e}, e);
    assert {b, e} - {e} == {b};
    var h2 := h1.(end := e, chunks := Drop(h1.chunks, h.end, e));
    PutOn(h2, {b}, b);
    assert {b} - {b} == {};
    assert Shrink(h, b, e) == h2.(free := With(h2.chunks, h2.free, b));
  }

  lemma SettleShape(h: Heap, b: int)
    requires Shaped(h, {b}) && b in h.chunks && LowUsed(h.chunks, h.start, b)
    requires b + h.chunks[b].size in h.chunks && h.chunks[b + h.chunks[b].size].used
    requires var e := TrimmedEnd(h.start, b);
             b + h.chunks[b].size == h.end && !TrimHalts(h.start, h.end, b) ==>
               (e == b && b != h.start) || (b + MIN_CHUNK_SIZE <= e && (e == h.end || e <= h.end - MIN_CHUNK_SIZE))
    ensures Settle(h, b).Some? ==>
              var h' := Settle(h, b).value;
              Shaped(h', {}) && Users(h') == Users(h) && h'.start == h.start && h'.max == h.max
  {
    hide Shaped, With, Shrink, TrimmedEnd, TrimHalts;
    var c, e := h.chunks, TrimmedEnd(h.start, b);
    LooseFree(h, {b}, b);
    Around(h, {b}, b);
    assert {b} - {b} == {};
    if b + c[b].size != h.end {
      PutOn(h, {b}, b);
    } else if TrimHalts(h.start, h.end, b) {
    } else if e == b {
      DropLoose(h, {b}, b);
    } else if e == h.end {
      PutOn(h, {b}, b);
    } else {
      ShrinkShape(h, b, e);
      ShrinkIs(h, b, e);
    }
  }

  lemma ShrinkIs(h: Heap, b: int, e: int)
    requires b in h.chunks && b != h.end && b + h.chunks[b].size in h.chunks
    ensures Shrink(h, b, e).start == h.start && Shrink(h, b, e).max == h.max && Shrink(h, b, e).end == e
  {
  }

  ghost predicate InUse(h: Heap, a: int) {
    a in h.chunks && a != h.end && h.chunks[a].used
  }

  /** free on a live chunk; None is the failed ASSERT of contract. */
  ghost function Release(h: Heap, a: int): Option<Heap>
    requires Shaped(h, {}) && InUse(h, a)
  {
    MarkFree(h, {}, a);
    assert {} + {a} == {a};
    var (h1, b) := MeltDown(h.(chunks := Mark(h.chunks, a, false)), a);
    MeltDownShape(h.(chunks := Mark(h.chunks, a, false)), a);
    MeltUpShape(h1, b);
    Settle(MeltUp(h1, b), b)
  }

  lemma MeltAligned(h: Heap, p: int, listed: int)
    requires Aligned(h.chunks) && p in h.chunks && p + h.chunks[p].size in h.chunks
    requires p + h.chunks[p].size + h.chunks[p + h.chunks[p].size].size in h.chunks && Node(listed) in h.free
    ensures Aligned(Melt(h, p, listed).chunks)
  {
    JoinAligned(h.chunks, p);
  }

  lemma MeltsAligned(h: Heap, a: int)
    requires Shaped(h, {a}) && Aligned(h.chunks)
    ensures var (h1, b) := MeltDown(h, a); Shaped(h1, {b}) && Aligned(h1.chunks) && Aligned(MeltUp(h1, b).chunks)
  {
    hide Shaped, Melt, Aligned;
    LooseFree(h, {a}, a);
    Around(h, {a}, a);
    var (h1, b) := MeltDown(h, a);
    MeltDownShape(h, a);
    if !LowUsed(h.chunks, h.start, a) {
      var p := h.chunks[a].prev;
      Around(h, {a}, p);
      MeltShape(h, p, a, p);
      MeltAligned(h, p, p);
    }
    LooseFree(h1, {b}, b);
    Around(h1, {b}, b);
    var n := b + h1.chunks[b].size;
    if n != h1.end && !h1.chunks[n].used {
      MeltShape(h1, b, b, n);
      MeltAligned(h1, b, n);
    }
  }

  lemma PageOverEight(e: int, b: int)
    requires e % PAGE_SIZE == 0 && b % 8 == 0
    ensures (e - b) % 8 == 0
  {
    var k, j := e / PAGE_SIZE, b / 8;
    assert e == 8 * (512 * k) && b == 8 * j;
    assert e - b == 8 * (512 * k - j);
  }

  lemma CutEight(start: int, end: int, b: int)
    requires start % PAGE_SIZE == 0 && end % PAGE_SIZE == 0 && b % 8 == 0
    requires start + HEAP_MIN_SIZE <= end && start <= b && b + MIN_CHUNK_SIZE <= end
    ensures !TrimHalts(start, end, b) ==> (TrimmedEnd(start, b) - b) % 8 == 0
  {
    hide TrimmedEnd, TrimHalts;
    TrimFacts(start, end, b);
    if !TrimHalts(start, end, b) { PageOverEight(TrimmedEnd(start, b), b); }
  }

  lemma SettleAligned(h: Heap, b: int)
    requires Shaped(h, {b}) && Aligned(h.chunks) && b in h.chunks
    requires !TrimHalts(h.start, h.end, b) ==> (TrimmedEnd(h.start, b) - b) % 8 == 0
    ensures Settle(h, b).Some? ==> Aligned(Settle(h, b).value.chunks)
  {
    hide Shaped, Aligned, With, TrimmedEnd, TrimHalts, RoundUp;
    var c, e := h.chunks, TrimmedEnd(h.start, b);
    LooseFree(h, {b}, b);
    Around(h, {b}, b);
    if b + c[b].size == h.end && !TrimHalts(h.start, h.end, b) {
      if e == b {
        DropAligned(c, h.end, b);
      } else if e != h.end {
        SplitAligned(c, b, e - b);
        DropAligned(Split(c, b, e - b), h.end, e);
        assert Shrink(h, b, e).chunks == Drop(Split(c, b, e - b), h.end, e);
      }
    }
  }

  /** Giving a chunk back halts exactly when it is the topmost one, 16 bytes long, above a chunk in use. */
  lemma ReleaseInv(h: Heap, a: int)
    requires Inv(h) && InUse(h, a)
    ensures Release(h, a).None? <==> a + MIN_CHUNK_SIZE == h.end && LowUsed(h.chunks, h.start, a)
    ensures Release(h, a).Some? ==>
              var h' := Release(h, a).value;
              Inv(h') && Users(h') == Users(h) - {a} && h'.start == h.start && h'.max == h.max && h'.end <= h.end
  {
    hide Shaped, Aligned, Users, MeltDown, MeltUp, Settle;
    var h0 := h.(chunks := Mark(h.chunks, a, false));
    MarkFree(h, {}, a);
    assert {} + {a} == {a};
    MarkUsers(h, a);
    MarkAligned(h.chunks, a, false);
    var (h1, b) := MeltDown(h0, a);
    MeltDownShape(h0, a);
    MeltsAligned(h0, a);
    var h2 := MeltUp(h1, b);
    MeltUpShape(h1, b);
    SettleInv(h2, b);
    ReleaseHalts(h, a);
  }

  lemma MarkUsers(h: Heap, a: int)
    requires InUse(h, a)
    ensures Users(h.(chunks := Mark(h.chunks, a, false))) == Users(h) - {a}
  {
  }

  lemma SettleInv(h: Heap, b: int)
    requires Shaped(h, {b}) && Aligned(h.chunks) && Bounds(h) && b in h.chunks && LowUsed(h.chunks, h.start, b)
    requires b + h.chunks[b].size in h.chunks && h.chunks[b + h.chunks[b].size].used
    ensures Settle(h, b).None? <==> b + MIN_CHUNK_SIZE == h.end
    ensures Settle(h, b).Some? ==>
              var h' := Settle(h, b).value;
              Inv(h') && Users(h') == Users(h) && h'.start == h.start && h'.max == h.max && h'.end <= h.end
  {
    hide Shaped, With, Shrink, TrimmedEnd, TrimHalts, RoundUp;
    LooseFree(h, {b}, b);
    Around(h, {b}, b);
    assert EightAt(h.chunks, b);
    TrimFacts(h.start, h.end, b);
    CutEight(h.start, h.end, b);
    SettleAligned(h, b);
    SettleShape(h, b);
    if b + h.chunks[b].size == h.end && TrimmedEnd(h.start, b) != b && TrimmedEnd(h.start, b) != h.end {
      ShrinkIs(h, b, TrimmedEnd(h.start, b));
    }
  }

  lemma ReleaseHalts(h: Heap, a: int)
    requires Inv(h) && InUse(h, a)
    ensures Release(h, a).None? <==> a + MIN_CHUNK_SIZE == h.end && LowUsed(h.chunks, h.start, a)
  {
    hide Shaped, Aligned, Users, Settle, Melt, MeltUp;
    var h0 := h.(chunks := Mark(h.chunks, a, false));
    MarkFree(h, {}, a);
    assert {} + {a} == {a};
    MarkAligned(h.chunks, a, false);
    Around(h, {}, a);
    if a != h.start { Around(h, {}, h.chunks[a].prev); }
    var (h1, b) := MeltDown(h0, a);
    MeltDownShape(h0, a);
    MeltsAligned(h0, a);
    MeltUpShape(h1, b);
    SettleInv(MeltUp(h1, b), b);
    Around(MeltUp(h1, b), {b}, b);
  }
}
