/** What a free undoes: an allocation from a chunk that is not the last leaves no trace once it is freed. */
module HeapUndo {
  import opened LinkedLists
  import opened Machine
  import opened HeapModel
  import opened HeapSteps
  import opened HeapOps
  import opened HeapAlloc
  import opened HeapRuns
  import opened HeapHalts

  /** Cut and joined again. */
  lemma JoinSplit(c: Chunks, a: int, k: int)
    requires a in c && a + c[a].size in c && a + k !in c && 0 < k < c[a].size && c[a + c[a].size].prev == a
    ensures var s := Split(c, a, k);
            a in s && a + s[a].size in s && a + s[a].size + s[a + s[a].size].size in s && Join(s, a) == c
  {
    var s, n := Split(c, a, k), a + c[a].size;
    assert s[a] == c[a].(size := k) && s[a + k] == Chunk(c[a].size - k, c[a].used, a) && s[n] == c[n].(prev := a + k);
    assert c[n] == c[n].(prev := a) && c[a] == c[a].(size := c[a].size);
    var j := Join(s, a);
    assert j.Keys == c.Keys;
    forall x | x in c ensures j[x] == c[x] { }
  }

  lemma MarkTwice(c: Chunks, a: int)
    requires a in c && !c[a].used
    ensures Mark(Mark(c, a, true), a, false) == c
  {
  }

  /** Put on the list and taken off again. */
  lemma WithoutWith(c: Chunks, free: seq<int>, a: int)
    requires a in c && Node(a) !in free
    ensures Node(a) in With(c, free, a) && Without(With(c, free, a), a) == free
  {
    var k := Position(c, free, c[a].size);
    var f := With(c, free, a);
    assert f[k] == Node(a);
    var i := IndexOf(f, Node(a));
    assert i == k by {
      assert forall j :: 0 <= j < |f| && j != k ==> f[j] == free[if j < k then j else j - 1];
    }
    assert RemoveAt(f, k) == free;
  }

  lemma RemovedAt(free: seq<int>, k: nat)
    requires k < |free|
    ensures var f := RemoveAt(free, k);
            |f| == |free| - 1 && (forall i :: 0 <= i < |f| ==> f[i] == free[if i < k then i else i + 1]) && InsertAt(f, k, free[k]) == free
  {
  }

  /** Taken off from the first place that is big enough and put on again: the list is as it was, equal sizes included. */
  lemma WithAgain(c: Chunks, free: seq<int>, nb: int)
    requires ListSound(c, free) && Position(c, free, nb) < |free|
    ensures var k := Position(c, free, nb);
            Entry(free[k]) in c && With(c, RemoveAt(free, k), Entry(free[k])) == free
  {
    hide Position, RemoveAt, InsertAt;
    var k := Position(c, free, nb);
    var a, f := Entry(free[k]), RemoveAt(free, k);
    RemovedAt(free, k);
    SizeOf(c, free, k);
    hide SizeAt;
    if k < |f| { Sorted(c, free, k); }
    hide ListSound;
    PositionIs(c, f, c[a].size, k);
  }

  lemma SizeOf(c: Chunks, free: seq<int>, k: nat)
    requires ListSound(c, free) && k < |free|
    ensures Entry(free[k]) in c && SizeAt(c, free[k]) == c[Entry(free[k])].size
  {
    assert IsFree(c, Entry(free[k]));
  }

  lemma Sorted(c: Chunks, free: seq<int>, k: nat)
    requires ListSound(c, free) && k + 1 < |free|
    ensures SizeAt(c, free[k]) <= SizeAt(c, free[k + 1])
  {
  }

  lemma PositionIs(c: Chunks, free: seq<int>, size: int, k: nat)
    requires k <= |free| && (forall i :: 0 <= i < k ==> SizeAt(c, free[i]) < size) && (k < |free| ==> SizeAt(c, free[k]) >= size)
    ensures Position(c, free, size) == k
  {
    hide SizeAt;
  }

  lemma SizeOfFree(h: Heap, k: nat)
    requires Shaped(h, {}) && k < |h.free|
    ensures Entry(h.free[k]) in h.chunks && SizeAt(h.chunks, h.free[k]) == h.chunks[Entry(h.free[k])].size
  {
    SizeOf(h.chunks, h.free, k);
  }

  lemma CutPlace(h: Heap, a: int, nb: int)
    requires Shaped(h, {}) && IsFree(h.chunks, a) && a != h.end && Good(h.chunks, h.start, h.end, a)
    requires MIN_CHUNK_SIZE <= nb && nb + MIN_CHUNK_SIZE <= h.chunks[a].size
    ensures a + nb !in h.chunks
  {
    SplitTiled(h.chunks, h.start, h.end, a, nb);
  }

  lemma NotListed(h: Heap, k: nat, x: int)
    requires Shaped(h, {}) && k < |h.free| && x !in h.chunks
    ensures Node(x) !in RemoveAt(h.free, k)
  {
    var f := RemoveAt(h.free, k);
    forall i | 0 <= i < |f| ensures f[i] != Node(x) {
      var j := if i < k then i else i + 1;
      assert f[i] == h.free[j];
      OnList(h, {}, j);
    }
  }

  lemma SplitIs(c: Chunks, a: int, nb: int)
    requires a in c && a + c[a].size in c && a + nb !in c && 0 < nb < c[a].size && !c[a].used
    ensures var s := Split(c, a, nb);
            && a in s && s[a].size == nb && !s[a].used && s[a].prev == c[a].prev && a + nb in s && !s[a + nb].used
            && (c[a].prev in c && c[a].prev != a && c[a].prev != a + c[a].size ==> c[a].prev in s && s[c[a].prev].used == c[c[a].prev].used)
  {
  }

  /** h1 is h with nb bytes of free chunk a in use and the rest on the list; f is the list without a. */
  ghost predicate IsCut(h: Heap, a: int, f: seq<int>, nb: int, h1: Heap) {
    && a in h.chunks && a + h.chunks[a].size in h.chunks && a + nb != h.end
    && var s := Split(h.chunks, a, nb);
       && a in s && s[a].size == nb && a + nb in s && !s[a + nb].used && a + nb + s[a + nb].size in s
       && Join(s, a) == h.chunks && Node(a + nb) !in f
       && h1 == h.(chunks := Mark(s, a, true), free := With(Mark(s, a, true), f, a + nb)) && Mark(Mark(s, a, true), a, false) == s
  }

  lemma CutMelts(h: Heap, k: int, nb: int)
    requires Shaped(h, {}) && 0 <= k < |h.free| && MIN_CHUNK_SIZE <= nb && nb + MIN_CHUNK_SIZE <= SizeAt(h.chunks, h.free[k])
    ensures IsCut(h, Entry(h.free[k]), RemoveAt(h.free, k), nb, Carve(h, k, nb))
  {
    hide Shaped, Split, RemoveAt, Join, SizeAt, With, Mark;
    var c, a := h.chunks, Entry(h.free[k]);
    OnList(h, {}, k);
    Around(h, {}, a);
    SizeOfFree(h, k);
    CutPlace(h, a, nb);
    JoinSplit(c, a, nb);
    SplitIs(c, a, nb);
    NotListed(h, k, a + nb);
    MarkTwice(Split(c, a, nb), a);
  }

  /** What free makes of a chunk that alloc cut in two: all of it is free again, and goes together. */
  lemma CutBack(h: Heap, a: int, f: seq<int>, nb: int, h1: Heap, h2: Heap)
    requires IsCut(h, a, f, nb, h1) && a in h1.chunks && h2 == h1.(chunks := Mark(h1.chunks, a, false)) && Shaped(h2, {a})
    ensures MeltUp(h2, a) == h.(free := f)
  {
    hide Shaped, With, Without, Split, Join, Mark;
    var c := Mark(Split(h.chunks, a, nb), a, true);
    MarkKeys(Split(h.chunks, a, nb), a, true);
    WithoutWith(c, f, a + nb);
    UpJoins(h2, a, a + nb);
  }

  lemma MarkKeys(c: Chunks, a: int, used: bool)
    requires a in c
    ensures Mark(c, a, used).Keys == c.Keys && forall x :: x in c ==> Mark(c, a, used)[x].size == c[x].size
  {
  }

  /** The chunk that alloc took, free again: what is merged is the heap before the call, with that chunk off the list. */
  lemma CarveMelts(h: Heap, k: int, nb: int)
    requires Shaped(h, {}) && 0 <= k < |h.free| && MIN_CHUNK_SIZE <= nb <= SizeAt(h.chunks, h.free[k])
    requires Shaped(Carve(h, k, nb), {}) && InUse(Carve(h, k, nb), Entry(h.free[k])) && LowUsed(Carve(h, k, nb).chunks, h.start, Entry(h.free[k]))
    ensures var (a, h1) := (Entry(h.free[k]), Carve(h, k, nb));
            var h2 := h1.(chunks := Mark(h1.chunks, a, false));
            Shaped(h2, {a}) && MeltDown(h2, a) == (h2, a) && MeltUp(h2, a) == h.(free := RemoveAt(h.free, k))
  {
    var a, h1 := Entry(h.free[k]), Carve(h, k, nb);
    var h2 := h1.(chunks := Mark(h1.chunks, a, false));
    hide Shaped, RemoveAt, Carve, SizeAt, MeltDown, MeltUp, Mark, IsCut;
    FreedAgain(h1, a, h2);
    DownNone(h2, a);
    if SizeAt(h.chunks, h.free[k]) >= nb + MIN_CHUNK_SIZE {
      CutMelts(h, k, nb);
      CutBack(h, a, RemoveAt(h.free, k), nb, h1, h2);
    } else {
      CarveWhole(h, k, nb);
      NextUsed(h, k);
      UpNone(h2, a);
    }
  }

  lemma FreedAgain(h: Heap, a: int, h2: Heap)
    requires Shaped(h, {}) && InUse(h, a) && LowUsed(h.chunks, h.start, a) && h2 == h.(chunks := Mark(h.chunks, a, false))
    ensures Shaped(h2, {a}) && a in h2.chunks && LowUsed(h2.chunks, h.start, a)
  {
    hide Shaped;
    Around(h, {}, a);
    MarkFree(h, {}, a);
    assert {} + {a} == {a};
    LowSame(h.chunks, h.start, a);
  }

  lemma DownNone(h: Heap, a: int)
    requires Shaped(h, {a}) && a in h.chunks && LowUsed(h.chunks, h.start, a)
    ensures MeltDown(h, a) == (h, a)
  {
    hide Shaped;
  }

  lemma UpNone(h: Heap, a: int)
    requires Shaped(h, {a}) && a in h.chunks && a + h.chunks[a].size in h.chunks && h.chunks[a + h.chunks[a].size].used
    ensures MeltUp(h, a) == h
  {
    hide Shaped;
  }

  lemma UpJoins(h: Heap, a: int, n: int)
    requires Shaped(h, {a}) && a in h.chunks && n == a + h.chunks[a].size && n in h.chunks && n != h.end && !h.chunks[n].used
    requires Node(n) in h.free && n + h.chunks[n].size in h.chunks
    ensures MeltUp(h, a) == h.(chunks := Join(h.chunks, a), free := Without(h.free, n))
  {
    hide Shaped, Join, Without;
  }

  /** Above a free chunk stands one in use, or the end of the heap. */
  lemma NextUsed(h: Heap, k: nat)
    requires Shaped(h, {}) && k < |h.free|
    ensures var a := Entry(h.free[k]); a in h.chunks && a + h.chunks[a].size in h.chunks && h.chunks[a + h.chunks[a].size].used
  {
    hide Shaped;
    var a := Entry(h.free[k]);
    OnList(h, {}, k);
    Around(h, {}, a);
    Quiet(h, {}, a + h.chunks[a].size);
  }

  lemma LowSame(c: Chunks, start: int, a: int)
    requires a in c && (c[a].prev != a || a == start)
    ensures LowUsed(Mark(c, a, false), start, a) <==> LowUsed(c, start, a)
  {
  }

  lemma CarveWhole(h: Heap, k: int, nb: int)
    requires Shaped(h, {}) && 0 <= k < |h.free| && SizeAt(h.chunks, h.free[k]) < nb + MIN_CHUNK_SIZE
    ensures var (a, h1) := (Entry(h.free[k]), Carve(h, k, nb));
            && IsFree(h.chunks, a) && h1 == h.(chunks := Mark(h.chunks, a, true), free := RemoveAt(h.free, k))
            && Mark(h1.chunks, a, false) == h.chunks
  {
    OnList(h, {}, k);
    MarkTwice(h.chunks, Entry(h.free[k]));
  }

  /** Nothing to trim: the chunk is not the last, or the heap is no bigger than it has to be. */
  predicate Untrimmed(h: Heap, a: int)
    requires a in h.chunks
  {
    a + h.chunks[a].size != h.end || (!TrimHalts(h.start, h.end, a) && TrimmedEnd(h.start, a) == h.end)
  }

  /** Freeing what was just allocated without growth gives back the heap as it was, the order of its list included, unless the heap shrinks. */
  lemma ReleaseUndoes(h: Heap, nb: int)
    requires Inv(h) && MIN_CHUNK_SIZE <= nb && nb % 8 == 0 && Position(h.chunks, h.free, nb) < |h.free|
    ensures var (k, a) := (Position(h.chunks, h.free, nb), Entry(h.free[Position(h.chunks, h.free, nb)]));
            var h1 := Carve(h, k, nb);
            && Shaped(h1, {}) && InUse(h1, a) && a in h.chunks
            && (Release(h1, a) == Some(h) <==> Untrimmed(h, a))
  {
    var k := Position(h.chunks, h.free, nb);
    var a, h1 := Entry(h.free[k]), Carve(h, k, nb);
    hide Shaped, RemoveAt, Carve, With, MeltDown, MeltUp, Mark, Aligned, Users, Position, TrimmedEnd, TrimHalts;
    SizeOfFree(h, k);
    CarveInv(h, k, nb);
    CarveUsed(h, k, nb);
    CarveMelts(h, k, nb);
    TakeOff(h, {}, k);
    assert {} + {a} == {a};
    ListOf(h, nb);
    FreshLast(h, a);
    SettleBack(h, a, RemoveAt(h.free, k));
  }

  lemma CarveUsed(h: Heap, k: int, nb: int)
    requires Shaped(h, {}) && 0 <= k < |h.free| && 0 < nb
    ensures var (a, h1) := (Entry(h.free[k]), Carve(h, k, nb)); a in h1.chunks && h1.chunks[a].used && h1.end == h.end && h1.start == h.start
  {
    hide Shaped, With;
    OnList(h, {}, k);
    Around(h, {}, Entry(h.free[k]));
  }

  lemma ListOf(h: Heap, nb: int)
    requires Shaped(h, {}) && Position(h.chunks, h.free, nb) < |h.free|
    ensures var k := Position(h.chunks, h.free, nb); Entry(h.free[k]) in h.chunks && With(h.chunks, RemoveAt(h.free, k), Entry(h.free[k])) == h.free
  {
    hide With, RemoveAt;
    WithAgain(h.chunks, h.free, nb);
  }

  lemma FreshLast(h: Heap, a: int)
    requires Shaped(h, {}) && IsFree(h.chunks, a)
    ensures a < h.end && a + h.chunks[a].size in h.chunks
  {
    hide Shaped;
    Around(h, {}, a);
  }

  lemma SettleBack(h: Heap, a: int, f: seq<int>)
    requires Shaped(h.(free := f), {a}) && a in h.chunks && a < h.end && With(h.chunks, f, a) == h.free
    ensures Settle(h.(free := f), a) == Some(h) <==> Untrimmed(h, a)
  {
    hide Shaped, With, TrimmedEnd, TrimHalts;
    LooseFree(h.(free := f), {a}, a);
    Around(h.(free := f), {a}, a);
  }

  // ---------------------------------------------------------------- the end after a free

  /** A page boundary that leaves the first megabyte, and of the free chunk b nothing or at least a whole chunk. */
  predicate FitEnd(start: int, b: int, e: int) {
    e % 4096 == 0 && start + 0x10_0000 <= e && (e == b || b + 16 <= e)
  }

  /** The heap shrinks as far as it can. */
  lemma TrimLeast(start: int, b: int, e: int)
    requires start % 4096 == 0 && start <= b
    ensures FitEnd(start, b, TrimmedEnd(start, b))
    ensures FitEnd(start, b, e) ==> TrimmedEnd(start, b) <= e
  {
    var off, t := b - start, TrimmedEnd(start, b);
    OnPages(start, b);
    OnPages(start, e);
    OnPages(start, t);
    OnPages(start, e - start);
    if off % PAGE_SIZE != 0 {
      OnPages(start, RoundUp(off + MIN_CHUNK_SIZE));
      if FitEnd(start, b, e) { RoundUpLeast(off + MIN_CHUNK_SIZE, e - start); }
    } else if off < HEAP_MIN_SIZE {
      Multiples(off, HEAP_MIN_SIZE);
    }
  }

  /** What free leaves of the heap when the merged chunk b is the last one, and that it leaves the end alone otherwise. */
  lemma SettleEnd(h: Heap, b: int)
    requires Shaped(h, {b}) && b in h.chunks && Settle(h, b).Some?
    ensures var e := Settle(h, b).value.end;
            if b + h.chunks[b].size != h.end then e == h.end else e == TrimmedEnd(h.start, b)
  {
    hide Shaped, With, TrimmedEnd, TrimHalts;
    LooseFree(h, {b}, b);
    Around(h, {b}, b);
  }

  // ---------------------------------------------------------------- calls

  /** p is the payload the call returned; unless its chunk was the last, freeing it leads back to where we were. */
  ghost predicate Undone(h: Heap, live: map<int, int>, size: int, r: Run, p: int)
    requires r.Running? && Sound(r.h, r.live)
  {
    && p !in live && r.live == live[p := size] && Entry(p) in h.chunks
    && (Entry(p) + h.chunks[Entry(p)].size != h.end ==> Step(r.h, r.live, Free(p)) == Running(h, live))
  }

  /** alloc from a chunk that is not the last, and then free: heap and allocations are as before, whatever the request. */
  lemma FreeUndoesAlloc(h: Heap, live: map<int, int>, size: int)
    requires Sound(h, live) && 0 <= size <= 0xFFFF_FFFF - 11 && !NoneFits(h, ChunkFor(size))
    ensures var r := Step(h, live, Alloc(size));
            r.Running? && Sound(r.h, r.live) && exists p :: Undone(h, live, size, r, p)
  {
    var nb := ChunkFor(size);
    hide Shaped, Aligned, Bounds, Users, Carve, Release, Position, NoneFits, ChunkFor, Request2Size;
    ChunkIs(size);
    SearchFinds(h, nb);
    ReleaseUndoes(h, nb);
    StepSound(h, live, Alloc(size));
    var k := Position(h.chunks, h.free, nb);
    var p, r := h.free[k], Step(h, live, Alloc(size));
    OnList(h, {}, k);
    assert r == Running(Carve(h, k, nb), live[p := size]);
    assert p !in live;
    Inside(r.h, Entry(p));
    assert live[p := size] - {p} == live;
    assert Undone(h, live, size, r, p);
  }

  lemma Inside(h: Heap, a: int)
    requires Inv(h) && InUse(h, a)
    ensures 0 < h.start <= Node(a) < h.end
  {
    hide Shaped, Aligned;
    Around(h, {}, a);
  }
}
