/** Whole runs of the heap: any sequence of alloc, palignedAlloc and free calls after createHeap. */
module HeapRuns {
  import opened LinkedLists
  import opened Machine
  import opened HeapModel
  import opened HeapSteps
  import opened HeapOps
  import opened HeapAlloc

  // ---------------------------------------------------------------- createHeap

  /** createHeap: one free chunk over the whole range. */
  function Fresh(start: int, end: int, max: int): Heap {
    Heap(start, end, max, map[start := Chunk(end - start, false, start), end := Chunk(0, true, start)], [Node(start)])
  }

  lemma FreshInv(start: int, end: int, max: int)
    requires start % PAGE_SIZE == 0 && end % PAGE_SIZE == 0 && 0 < start && start + HEAP_MIN_SIZE <= end <= max < TWO32
    ensures Inv(Fresh(start, end, max)) && Users(Fresh(start, end, max)) == map[]
  {
    PageIsEight(start);
    PageIsEight(end);
    FreshAligned(start, end, max);
    FreshShape(start, end, max);
  }

  lemma FreshAligned(start: int, end: int, max: int)
    requires start % 8 == 0 && end % 8 == 0 && start < end
    ensures Aligned(Fresh(start, end, max).chunks)
  {
    var c := Fresh(start, end, max).chunks;
    forall a | a in c ensures EightAt(c, a) {
      assert a == start || a == end;
    }
  }

  lemma FreshShape(start: int, end: int, max: int)
    requires start + HEAP_MIN_SIZE <= end
    ensures Shaped(Fresh(start, end, max), {})
  {
    var h := Fresh(start, end, max);
    forall a | a in h.chunks ensures Good(h.chunks, start, end, a) {}
    forall a | a in h.chunks ensures Merged(h.chunks, start, a) {}
    assert h.free[0] == Node(start) && Entry(Node(start)) == start;
  }

  // ---------------------------------------------------------------- runs

  datatype Op = Alloc(size: int) | AlignedAlloc(size: int) | Free(ptr: int)

  /**
   `live` maps the payload of every allocation not yet freed to the size asked for. A run stops when
   an ASSERT or PANIC stops the kernel, or when the caller frees what is not allocated or asks for
   more than 32-bit arithmetic can serve.
   */
  datatype Run = Running(h: Heap, live: map<int, int>) | Halted | Misused

  ghost predicate Sound(h: Heap, live: map<int, int>) {
    && Inv(h)
    && (forall p :: p in live <==> InUse(h, Entry(p)))
    && (forall p :: p in live ==> 0 <= live[p] && live[p] + CHUNK_OVERHEAD <= h.chunks[Entry(p)].size)
  }

  ghost function Step(h: Heap, live: map<int, int>, op: Op): Run
    requires Sound(h, live)
  {
    match op
    case Alloc(size) =>
      var nb := Request2Size(size);
      if !(0 <= size <= TWO32 - 12 && Servable(h, nb)) then Misused
      else
        RequestFits(size);
        var r := AllocChunk(h, nb);
        if r.None? then Halted else Running(r.value.0, live[r.value.1 := size])
    case AlignedAlloc(size) =>
      var nb := Request2Size(size);
      if !(0 <= size <= TWO32 - 12 && nb <= TWO32 - PAGE_SIZE - 24 && Servable(h, PaddedSize(nb))) then Misused
      else
        RequestFits(size);
        var r := PAllocChunk(h, nb);
        if r.None? then Halted else Running(r.value.0, live[r.value.1 := size])
    case Free(p) =>
      if p == 0 then Running(h, live)
      else if !(h.start <= p < h.end) then Halted
      else if p !in live then Misused
      else
        var r := Release(h, Entry(p));
        if r.None? then Halted else Running(r.value, live - {p})
  }

  lemma LiveFromUsers(h: Heap, live: map<int, int>, p: int)
    requires Sound(h, live)
    ensures p in live <==> Entry(p) in Users(h)
    ensures p in live ==> Users(h)[Entry(p)] == h.chunks[Entry(p)].size
  {
  }

  lemma SoundAfterAlloc(h: Heap, live: map<int, int>, h': Heap, p: int, size: int)
    requires Sound(h, live) && Inv(h') && InUse(h', Entry(p)) && Entry(p) !in Users(h)
    requires Users(h') == Users(h)[Entry(p) := h'.chunks[Entry(p)].size]
    requires 0 <= size && size + CHUNK_OVERHEAD <= h'.chunks[Entry(p)].size
    ensures Sound(h', live[p := size])
  {
    hide Inv;
    forall q ensures q in live[p := size] <==> InUse(h', Entry(q)) {
      LiveFromUsers(h, live, q);
      assert InUse(h', Entry(q)) <==> Entry(q) in Users(h');
    }
    forall q | q in live[p := size] ensures 0 <= live[p := size][q] && live[p := size][q] + CHUNK_OVERHEAD <= h'.chunks[Entry(q)].size {
      LiveFromUsers(h, live, q);
      assert Users(h')[Entry(q)] == h'.chunks[Entry(q)].size;
    }
  }

  lemma SoundAfterFree(h: Heap, live: map<int, int>, h': Heap, p: int)
    requires Sound(h, live) && Inv(h') && p in live && Users(h') == Users(h) - {Entry(p)}
    ensures Sound(h', live - {p})
  {
    hide Inv;
    forall q ensures q in live - {p} <==> InUse(h', Entry(q)) {
      LiveFromUsers(h, live, q);
      assert InUse(h', Entry(q)) <==> Entry(q) in Users(h');
    }
    forall q | q in live - {p} ensures live[q] + CHUNK_OVERHEAD <= h'.chunks[Entry(q)].size {
      LiveFromUsers(h, live, q);
      assert Users(h')[Entry(q)] == h'.chunks[Entry(q)].size;
    }
  }

  lemma StepSound(h: Heap, live: map<int, int>, op: Op)
    requires Sound(h, live)
    ensures Step(h, live, op).Running? ==>
              var r := Step(h, live, op); Sound(r.h, r.live) && r.h.start == h.start && r.h.max == h.max
  {
    hide Shaped, Aligned, Bounds, Users, Request2Size, Servable, AllocChunk, PAllocChunk, Release, InUse;
    match op
    case Alloc(size) =>
      var nb := Request2Size(size);
      if 0 <= size <= TWO32 - 12 && Servable(h, nb) {
        RequestFits(size);
        AllocInv(h, nb);
        if AllocChunk(h, nb).Some? {
          var (h', p) := AllocChunk(h, nb).value;
          SoundAfterAlloc(h, live, h', p, size);
        }
      }
    case AlignedAlloc(size) =>
      var nb := Request2Size(size);
      if 0 <= size <= TWO32 - 12 && nb <= TWO32 - PAGE_SIZE - 24 && Servable(h, PaddedSize(nb)) {
        RequestFits(size);
        PAllocInv(h, nb);
        if PAllocChunk(h, nb).Some? {
          var (h', p) := PAllocChunk(h, nb).value;
          SoundAfterAlloc(h, live, h', p, size);
        }
      }
    case Free(p) =>
      if p in live {
        ReleaseInv(h, Entry(p));
        if Release(h, Entry(p)).Some? {
          SoundAfterFree(h, live, Release(h, Entry(p)).value, p);
        }
      }
  }

  ghost function RunFrom(h: Heap, live: map<int, int>, ops: seq<Op>): Run
    requires Sound(h, live)
    decreases |ops|
  {
    if ops == [] then Running(h, live)
    else
      var r := Step(h, live, ops[0]);
      StepSound(h, live, ops[0]);
      if r.Running? then RunFrom(r.h, r.live, ops[1..]) else r
  }

  lemma {:induction false} RunSound(h: Heap, live: map<int, int>, ops: seq<Op>)
    requires Sound(h, live)
    ensures RunFrom(h, live, ops).Running? ==>
              var r := RunFrom(h, live, ops); Sound(r.h, r.live) && r.h.start == h.start && r.h.max == h.max
    decreases |ops|
  {
    hide Sound, Step;
    if ops != [] {
      StepSound(h, live, ops[0]);
      var r := Step(h, live, ops[0]);
      if r.Running? { RunSound(r.h, r.live, ops[1..]); }
    }
  }

  // ---------------------------------------------------------------- what a sound heap promises

  /** The chunk that holds address x, found by walking up from a. */
  ghost function Owner(c: Chunks, start: int, end: int, a: int, x: int): int
    requires Tiled(c, start, end) && a in c && a <= x < end
    decreases end - a
  {
    assert Good(c, start, end, a);
    if x < a + c[a].size then a else Owner(c, start, end, a + c[a].size, x)
  }

  predicate Holds(c: Chunks, o: int, x: int) {
    o in c && o <= x < o + c[o].size
  }

  /** Address x lies in exactly one chunk. */
  ghost predicate InOneChunk(c: Chunks, x: int) {
    (exists o :: Holds(c, o, x)) && forall o, o' :: Holds(c, o, x) && Holds(c, o', x) ==> o == o'
  }

  /** The chunks tile the heap: every address below the end lies in exactly one of them. */
  lemma {:induction false} Covered(c: Chunks, start: int, end: int, a: int, x: int)
    requires Tiled(c, start, end) && a in c && a <= x < end
    ensures Holds(c, Owner(c, start, end, a, x), x) && InOneChunk(c, x)
    decreases end - a
  {
    assert Good(c, start, end, a);
    if x >= a + c[a].size {
      Covered(c, start, end, a + c[a].size, x);
    } else {
      assert Holds(c, a, x);
      forall o' | Holds(c, o', x) ensures o' == a {
        if o' < a { Ordered(c, start, end, o', a); }
        if a < o' { Ordered(c, start, end, a, o'); }
      }
    }
  }

  /** Live payloads never share a byte, and none covers the size word of any chunk. */
  lemma PayloadsApart(h: Heap, live: map<int, int>, p: int, q: int)
    requires Sound(h, live) && p in live && q in h.chunks && q != Entry(p)
    ensures p + live[p] <= q + 4 || q + 8 <= p
    ensures Node(q) in live ==> p + live[p] <= Node(q) || Node(q) + live[Node(q)] <= p
  {
    hide Aligned, Listed, Coalesced;
    var a := Entry(p);
    assert InUse(h, Entry(p));
    if a < q {
      Ordered(h.chunks, h.start, h.end, a, q);
    } else {
      Ordered(h.chunks, h.start, h.end, q, a);
      if Node(q) in live { assert InUse(h, Entry(Node(q))); }
    }
  }

  /** A payload ends inside the heap unless it belongs to the last chunk and needs the foot word that would follow it. */
  lemma PayloadInside(h: Heap, live: map<int, int>, p: int)
    requires Sound(h, live) && p in live
    ensures h.start < p
    ensures p + live[p] <= h.end <==>
              Entry(p) + h.chunks[Entry(p)].size != h.end || live[p] + 2 * CHUNK_OVERHEAD <= h.chunks[Entry(p)].size
  {
    hide Aligned, Listed, Coalesced;
    var a := Entry(p);
    assert InUse(h, a);
    assert Good(h.chunks, h.start, h.end, a);
    var n := a + h.chunks[a].size;
    assert Good(h.chunks, h.start, h.end, n);
    if n != h.end { assert Good(h.chunks, h.start, h.end, n + h.chunks[n].size); }
  }

  /** The heap alloc serves a chunk of nb bytes from, grown if it has to be, and the chunk it takes. */
  ghost function Server(h: Heap, nb: int): (Heap, int)
    requires Inv(h) && MIN_CHUNK_SIZE <= nb < TWO32 && Servable(h, nb) && AllocChunk(h, nb).Some?
  {
    var k := Position(h.chunks, h.free, nb);
    if k < |h.free| then (h, Entry(h.free[k]))
    else
      ExpandExact(h, nb);
      var g := Grow(h, ExpandedEnd(h, nb).value).0;
      GrowShape(h, ExpandedEnd(h, nb).value);
      GrownServes(h, ExpandedEnd(h, nb).value, nb);
      (g, Entry(g.free[Position(g.chunks, g.free, nb)]))
  }

  /** How alloc leaves the chunk it takes: whole, or cut to nb bytes with another chunk above. */
  lemma Serves(h: Heap, nb: int)
    requires Inv(h) && MIN_CHUNK_SIZE <= nb < TWO32 && nb % 8 == 0 && Servable(h, nb) && AllocChunk(h, nb).Some?
    ensures var ((s, a), (h', p)) := (Server(h, nb), AllocChunk(h, nb).value);
            && a == Entry(p) && a in s.chunks && a in h'.chunks && h'.end == s.end && a + s.chunks[a].size <= s.end
            && h'.chunks[a].size == if s.chunks[a].size >= nb + MIN_CHUNK_SIZE then nb else s.chunks[a].size
  {
    hide Shaped, Aligned, Users, Grow, With;
    var k := Position(h.chunks, h.free, nb);
    if k < |h.free| {
      CarveSize(h, k, nb);
    } else {
      var e := ExpandedEnd(h, nb).value;
      ExpandExact(h, nb);
      GrowShape(h, e);
      GrownServes(h, e, nb);
      CarveSize(Grow(h, e).0, Position(Grow(h, e).0.chunks, Grow(h, e).0.free, nb), nb);
    }
  }

  lemma CarveSize(h: Heap, i: int, nb: int)
    requires Shaped(h, {}) && 0 <= i < |h.free| && 0 < nb
    ensures var (a, h') := (Entry(h.free[i]), Carve(h, i, nb));
            && a in h.chunks && a in h'.chunks && h'.end == h.end && a + h.chunks[a].size <= h.end
            && h'.chunks[a].size == if h.chunks[a].size >= nb + MIN_CHUNK_SIZE then nb else h.chunks[a].size
  {
    hide Shaped, With;
    OnList(h, {}, i);
    Around(h, {}, Entry(h.free[i]));
  }

  /**
   Before the call: the payload alloc returns will leave the heap exactly when the chunk it takes is the
   last one, is not cut, and has less than eight bytes more than the request.
   */
  lemma AllocInside(h: Heap, live: map<int, int>, size: int)
    requires Sound(h, live) && Step(h, live, Alloc(size)).Running?
    ensures var nb := Request2Size(size);
            && MIN_CHUNK_SIZE <= nb < TWO32 && Servable(h, nb) && AllocChunk(h, nb).Some?
            && var ((s, a), r) := (Server(h, nb), Step(h, live, Alloc(size)));
               && Node(a) in r.live && a in s.chunks
               && (Node(a) + size > r.h.end <==>
                     a + s.chunks[a].size == s.end && s.chunks[a].size < nb + MIN_CHUNK_SIZE && s.chunks[a].size < size + 2 * CHUNK_OVERHEAD)
  {
    hide Inv, AllocChunk, Server, Users;
    RequestFits(size);
    SoundInv(h, live);
    StepSound(h, live, Alloc(size));
    var nb, r := Request2Size(size), Step(h, live, Alloc(size));
    Serves(h, nb);
    PayloadInside(r.h, r.live, Node(Server(h, nb).1));
  }

  /** The whole first megabyte, asked for in one piece: the last four payload bytes lie beyond the end of the heap. */
  lemma PayloadBeyondEnd()
    ensures var h := Fresh(0x9000_0000, 0x9010_0000, 0xA000_0000);
            var r := Step(h, map[], Alloc(0xF_FFFC));
            Sound(h, map[]) && r.Running? && r.live == map[0x9000_0008 := 0xF_FFFC] && r.h.end == 0x9010_0000
            && 0x9000_0008 + 0xF_FFFC > r.h.end
  {
    FreshInv(0x9000_0000, 0x9010_0000, 0xA000_0000);
    var h := Fresh(0x9000_0000, 0x9010_0000, 0xA000_0000);
    assert Sound(h, map[]);
    assert Request2Size(0xF_FFFC) == 0x10_0000;
    assert Position(h.chunks, h.free, 0x10_0000) == 0;
  }

  /** createHeap and then any run: the chunks tile the heap, the list holds exactly the free ones by size, payloads are apart. */
  lemma HeapSafety(start: int, end: int, max: int, ops: seq<Op>)
    requires start % PAGE_SIZE == 0 && end % PAGE_SIZE == 0 && 0 < start && start + HEAP_MIN_SIZE <= end <= max < TWO32
    ensures Sound(Fresh(start, end, max), map[])
    ensures var r := RunFrom(Fresh(start, end, max), map[], ops);
            r.Running? ==>
              && Sound(r.h, r.live) && r.h.start == start && r.h.end % PAGE_SIZE == 0 && start + HEAP_MIN_SIZE <= r.h.end <= max
              && (forall x :: start <= x < r.h.end ==> InOneChunk(r.h.chunks, x))
              && (forall p, q :: p in r.live && q in r.live && p != q ==> p + r.live[p] <= q || q + r.live[q] <= p)
              && (forall l :: l in r.h.free <==> IsFree(r.h.chunks, Entry(l)))
              && (forall i, j :: 0 <= i < j < |r.h.free| ==> SizeAt(r.h.chunks, r.h.free[i]) <= SizeAt(r.h.chunks, r.h.free[j]))
  {
    hide *;
    FreshSound(start, end, max);
    var r := RunFrom(Fresh(start, end, max), map[], ops);
    RunSound(Fresh(start, end, max), map[], ops);
    if r.Running? {
      assert Fresh(start, end, max).start == start && Fresh(start, end, max).max == max by { FreshIs(start, end, max); }
      Promises(r.h, r.live);
    }
  }

  lemma FreshIs(start: int, end: int, max: int)
    ensures Fresh(start, end, max).start == start && Fresh(start, end, max).max == max
  {
  }

  lemma FreshSound(start: int, end: int, max: int)
    requires start % PAGE_SIZE == 0 && end % PAGE_SIZE == 0 && 0 < start && start + HEAP_MIN_SIZE <= end <= max < TWO32
    ensures Sound(Fresh(start, end, max), map[])
  {
    hide Inv;
    FreshInv(start, end, max);
    var h := Fresh(start, end, max);
    forall a ensures !InUse(h, a) { assert a in Users(h) <==> InUse(h, a); }
  }

  lemma Promises(h: Heap, live: map<int, int>)
    requires Sound(h, live)
    ensures h.end % PAGE_SIZE == 0 && h.start + HEAP_MIN_SIZE <= h.end <= h.max
    ensures forall x :: h.start <= x < h.end ==> InOneChunk(h.chunks, x)
    ensures forall p, q :: p in live && q in live && p != q ==> p + live[p] <= q || q + live[q] <= p
    ensures forall l :: l in h.free <==> IsFree(h.chunks, Entry(l))
    ensures forall i, j :: 0 <= i < j < |h.free| ==> SizeAt(h.chunks, h.free[i]) <= SizeAt(h.chunks, h.free[j])
  {
    forall x | h.start <= x < h.end ensures InOneChunk(h.chunks, x) {
      Covered(h.chunks, h.start, h.end, h.start, x);
    }
    forall p, q | p in live && q in live && p != q ensures p + live[p] <= q || q + live[q] <= p {
      assert InUse(h, Entry(q));
      PayloadsApart(h, live, p, Entry(q));
    }
    forall l ensures l in h.free <==> IsFree(h.chunks, Entry(l)) {
      if IsFree(h.chunks, Entry(l)) { assert Node(Entry(l)) in h.free; }
    }
  }

  /** A fresh heap of one megabyte, asked for 0x70000000 bytes: the new end comes out at 1 MiB, far below the heap, and expand accepts it. */
  lemma ExpandWraps()
    ensures var h := Fresh(0x9000_0000, 0x9010_0000, 0xA000_0000);
            Sound(h, map[]) && !ExpandFits(h, 0x7000_0000) && ExpandedEnd(h, 0x7000_0000) == Some(0x10_0000)
  {
    FreshSound(0x9000_0000, 0x9010_0000, 0xA000_0000);
    assert RoundUp(0x7010_0000) == 0x7010_0000;
  }

  // ---------------------------------------------------------------- a run that stops the kernel

  /** The first megabyte but 16 bytes in use, the rest free or in use. */
  function NearlyFull(topUsed: bool): Heap {
    Heap(0x9000_0000, 0x9010_0000, 0xA000_0000,
         map[0x9000_0000 := Chunk(0xF_FFF0, true, 0x9000_0000), 0x900F_FFF0 := Chunk(16, topUsed, 0x9000_0000), 0x9010_0000 := Chunk(0, true, 0x900F_FFF0)],
         if topUsed then [] else [0x900F_FFF8])
  }

  lemma FirstStep()
    ensures var h := Fresh(0x9000_0000, 0x9010_0000, 0xA000_0000);
            Sound(h, map[]) && Step(h, map[], Alloc(0xF_FFEC)) == Running(NearlyFull(false), map[0x9000_0008 := 0xF_FFEC])
  {
    var h := Fresh(0x9000_0000, 0x9010_0000, 0xA000_0000);
    FreshSound(0x9000_0000, 0x9010_0000, 0xA000_0000);
    assert Request2Size(0xF_FFEC) == 0xF_FFF0;
    assert Position(h.chunks, h.free, 0xF_FFF0) == 0;
    var k := Carve(h, 0, 0xF_FFF0);
    assert RemoveAt(h.free, 0) == [];
    assert k.free == NearlyFull(false).free;
    assert k.chunks == NearlyFull(false).chunks;
  }

  lemma SecondStep()
    requires Sound(NearlyFull(false), map[0x9000_0008 := 0xF_FFEC])
    ensures Step(NearlyFull(false), map[0x9000_0008 := 0xF_FFEC], Alloc(8)) == Running(NearlyFull(true), map[0x9000_0008 := 0xF_FFEC, 0x900F_FFF8 := 8])
  {
    var h := NearlyFull(false);
    assert Request2Size(8) == 16;
    assert Position(h.chunks, h.free, 16) == 0;
    var k := Carve(h, 0, 16);
    assert RemoveAt(h.free, 0) == [];
    assert k.chunks == NearlyFull(true).chunks;
  }

  /** A fresh heap, two allocations that fill it, and the free of the second, 16 bytes at the top: the ASSERT of line 160 fails. */
  lemma HaltingRun()
    ensures var h := Fresh(0x9000_0000, 0x9010_0000, 0xA000_0000);
            Sound(h, map[]) && RunFrom(h, map[], [Alloc(0xF_FFEC), Alloc(8), Free(0x900F_FFF8)]) == Halted
  {
    hide Step, Sound, Fresh, NearlyFull;
    var h := Fresh(0x9000_0000, 0x9010_0000, 0xA000_0000);
    var live1 := map[0x9000_0008 := 0xF_FFEC];
    var live2 := map[0x9000_0008 := 0xF_FFEC, 0x900F_FFF8 := 8];
    var ops := [Alloc(0xF_FFEC), Alloc(8), Free(0x900F_FFF8)];
    FirstStep();
    RunNext(h, map[], ops, NearlyFull(false), live1);
    SecondStep();
    RunNext(NearlyFull(false), live1, ops[1..], NearlyFull(true), live2);
    ThirdStep();
    StepSound(NearlyFull(true), live2, Free(0x900F_FFF8));
    assert ops[1..][1..][0] == Free(0x900F_FFF8);
  }

  lemma ThirdStep()
    requires Sound(NearlyFull(true), map[0x9000_0008 := 0xF_FFEC, 0x900F_FFF8 := 8])
    ensures Step(NearlyFull(true), map[0x9000_0008 := 0xF_FFEC, 0x900F_FFF8 := 8], Free(0x900F_FFF8)) == Halted
  {
    hide Inv, Release;
    ReleaseInv(NearlyFull(true), 0x900F_FFF0);
  }

  // ---------------------------------------------------------------- a payload that loses its last word

  /** The first megabyte in use as one chunk, and perhaps a page more with a chunk of 16 bytes in use. */
  function OneMegabyte(more: bool): Heap {
    if more then
      Heap(0x9000_0000, 0x9010_1000, 0xA000_0000,
           map[0x9000_0000 := Chunk(0x10_0000, true, 0x9000_0000), 0x9010_0000 := Chunk(16, true, 0x9000_0000),
               0x9010_0010 := Chunk(0xFF0, false, 0x9010_0000), 0x9010_1000 := Chunk(0, true, 0x9010_0010)],
           [0x9010_0018])
    else
      Heap(0x9000_0000, 0x9010_0000, 0xA000_0000,
           map[0x9000_0000 := Chunk(0x10_0000, true, 0x9000_0000), 0x9010_0000 := Chunk(0, true, 0x9000_0000)], [])
  }

  lemma WholeStep()
    ensures var h := Fresh(0x9000_0000, 0x9010_0000, 0xA000_0000);
            Sound(h, map[]) && Step(h, map[], Alloc(0xF_FFFC)) == Running(OneMegabyte(false), map[0x9000_0008 := 0xF_FFFC])
  {
    var h := Fresh(0x9000_0000, 0x9010_0000, 0xA000_0000);
    FreshSound(0x9000_0000, 0x9010_0000, 0xA000_0000);
    assert Request2Size(0xF_FFFC) == 0x10_0000;
    assert Position(h.chunks, h.free, 0x10_0000) == 0;
    var k := Carve(h, 0, 0x10_0000);
    assert RemoveAt(h.free, 0) == [];
    assert k.chunks == OneMegabyte(false).chunks;
  }

  /** The page that expand adds. */
  function Grown(): Heap {
    Heap(0x9000_0000, 0x9010_1000, 0xA000_0000,
         map[0x9000_0000 := Chunk(0x10_0000, true, 0x9000_0000), 0x9010_0000 := Chunk(0x1000, false, 0x9000_0000),
             0x9010_1000 := Chunk(0, true, 0x9010_0000)],
         [0x9010_0008])
  }

  lemma GrownIs()
    requires Shaped(OneMegabyte(false), {})
    ensures Grow(OneMegabyte(false), 0x9010_1000).0 == Grown()
  {
    var h := OneMegabyte(false);
    hide Shaped;
    AppendLoose(h, {}, 0x9010_1000);
    assert {} + {h.end} == {h.end};
    assert Append(h.chunks, h.end, 0x9010_1000) == Grown().chunks;
  }

  lemma GrowStep()
    requires Sound(OneMegabyte(false), map[0x9000_0008 := 0xF_FFFC])
    ensures Step(OneMegabyte(false), map[0x9000_0008 := 0xF_FFFC], Alloc(8)) == Running(OneMegabyte(true), map[0x9000_0008 := 0xF_FFFC, 0x9010_0008 := 8])
  {
    var live := map[0x9000_0008 := 0xF_FFFC];
    hide Inv, AllocChunk, Request2Size, Servable;
    GrowNumbers();
    SoundInv(OneMegabyte(false), live);
    GrowAlloc();
    hide OneMegabyte, Sound;
    ServedStep(OneMegabyte(false), live, 8, OneMegabyte(true), 0x9010_0008);
    assert live[0x9010_0008 := 8] == map[0x9000_0008 := 0xF_FFFC, 0x9010_0008 := 8];
  }

  lemma SoundInv(h: Heap, live: map<int, int>)
    requires Sound(h, live)
    ensures Inv(h)
  {
  }

  lemma ServedStep(h: Heap, live: map<int, int>, size: int, h': Heap, p: int)
    requires Sound(h, live) && 0 <= size <= TWO32 - 12 && Servable(h, Request2Size(size)) && MIN_CHUNK_SIZE <= Request2Size(size) < TWO32
    requires Inv(h) && AllocChunk(h, Request2Size(size)) == Some((h', p))
    ensures Step(h, live, Alloc(size)) == Running(h', live[p := size])
  {
    hide Inv, AllocChunk, Request2Size, Servable;
  }

  lemma GrowAlloc()
    requires Inv(OneMegabyte(false))
    ensures Servable(OneMegabyte(false), 16) && AllocChunk(OneMegabyte(false), 16) == Some((OneMegabyte(true), 0x9010_0008))
  {
    GrowNumbers();
    hide Bounds, Aligned, ExpandedEnd, ExpandFits, Grow, Carve, Shaped;
    GrownIs();
    GrowShape(OneMegabyte(false), 0x9010_1000);
    GrownCarve();
  }

  lemma GrowNumbers()
    ensures var h := OneMegabyte(false);
            Request2Size(8) == 16 && Position(h.chunks, h.free, 16) == 0 && ExpandedEnd(h, 16) == Some(0x9010_1000) && ExpandFits(h, 16)
  {
    assert RoundUp(0x10_0010) == 0x10_1000;
  }

  lemma GrownCarve()
    requires Shaped(Grown(), {})
    ensures Position(Grown().chunks, Grown().free, 16) == 0 && Carve(Grown(), 0, 16) == OneMegabyte(true)
  {
    var g := Grown();
    var k := Carve(g, 0, 16);
    assert RemoveAt(g.free, 0) == [];
    assert k.chunks == OneMegabyte(true).chunks;
    assert With(k.chunks, [], 0x9010_0010) == [0x9010_0018];
  }

  lemma GiveStep()
    requires Shaped(OneMegabyte(true), {})
    ensures InUse(OneMegabyte(true), 0x9010_0000) && Release(OneMegabyte(true), 0x9010_0000) == Some(OneMegabyte(false))
  {
    var h, a := OneMegabyte(true), 0x9010_0000;
    hide Shaped;
    var h0 := h.(chunks := Mark(h.chunks, a, false));
    MarkFree(h, {}, a);
    assert {} + {a} == {a};
    assert MeltDown(h0, a) == (h0, a);
    MeltDownShape(h0, a);
    MeltUpShape(h0, a);
    GiveMelt(h0);
    assert TrimmedEnd(h.start, a) == a;
    assert Settle(MeltUp(h0, a), a).value.chunks == OneMegabyte(false).chunks;
  }

  /** The two free chunks above the first megabyte become one. */
  lemma GiveMelt(h: Heap)
    requires h.chunks == map[0x9000_0000 := Chunk(0x10_0000, true, 0x9000_0000), 0x9010_0000 := Chunk(16, false, 0x9000_0000),
                             0x9010_0010 := Chunk(0xFF0, false, 0x9010_0000), 0x9010_1000 := Chunk(0, true, 0x9010_0010)]
    requires h.free == [0x9010_0018] && h.end == 0x9010_1000 && Shaped(h, {0x9010_0000})
    ensures MeltUp(h, 0x9010_0000).free == []
    ensures MeltUp(h, 0x9010_0000).chunks ==
            map[0x9000_0000 := Chunk(0x10_0000, true, 0x9000_0000), 0x9010_0000 := Chunk(0x1000, false, 0x9000_0000),
                0x9010_1000 := Chunk(0, true, 0x9010_0000)]
  {
    hide Shaped;
    LooseFree(h, {0x9010_0000}, 0x9010_0000);
    Around(h, {0x9010_0000}, 0x9010_0000);
    MeltShape(h, 0x9010_0000, 0x9010_0000, 0x9010_0010);
    assert Join(h.chunks, 0x9010_0000) ==
           map[0x9000_0000 := Chunk(0x10_0000, true, 0x9000_0000), 0x9010_0000 := Chunk(0x1000, false, 0x9000_0000),
               0x9010_1000 := Chunk(0, true, 0x9010_0000)];
    assert Without(h.free, 0x9010_0010) == [];
  }

  /**
   One megabyte, asked for but four bytes: its last word lies beyond the end of the heap; within it once
   another allocation has made the heap grow; and beyond it again when that one is freed.
   */
  lemma PayloadComesAndGoes()
    ensures var h := Fresh(0x9000_0000, 0x9010_0000, 0xA000_0000);
            var live := map[0x9000_0008 := 0xF_FFFC];
            && Sound(h, map[])
            && RunFrom(h, map[], [Alloc(0xF_FFFC)]) == Running(OneMegabyte(false), live)
            && RunFrom(h, map[], [Alloc(0xF_FFFC), Alloc(8)]) == Running(OneMegabyte(true), live[0x9010_0008 := 8])
            && RunFrom(h, map[], [Alloc(0xF_FFFC), Alloc(8), Free(0x9010_0008)]) == Running(OneMegabyte(false), live)
            && OneMegabyte(false).end < 0x9000_0008 + 0xF_FFFC < OneMegabyte(true).end
  {
    hide Step, Sound, Fresh, OneMegabyte;
    var h := Fresh(0x9000_0000, 0x9010_0000, 0xA000_0000);
    var live1 := map[0x9000_0008 := 0xF_FFFC];
    var live2 := live1[0x9010_0008 := 8];
    var one, two, three := [Alloc(0xF_FFFC)], [Alloc(0xF_FFFC), Alloc(8)], [Alloc(0xF_FFFC), Alloc(8), Free(0x9010_0008)];
    WholeStep();
    RunNext(h, map[], one, OneMegabyte(false), live1);
    RunNext(h, map[], two, OneMegabyte(false), live1);
    RunNext(h, map[], three, OneMegabyte(false), live1);
    GrowStep();
    RunNext(OneMegabyte(false), live1, two[1..], OneMegabyte(true), live2);
    RunNext(OneMegabyte(false), live1, three[1..], OneMegabyte(true), live2);
    FreeTopStep();
    RunNext(OneMegabyte(true), live2, three[1..][1..], OneMegabyte(false), live1);
    MegabyteEnds();
  }

  lemma MegabyteEnds()
    ensures OneMegabyte(false).end == 0x9010_0000 && OneMegabyte(true).end == 0x9010_1000
  {
  }

  lemma FreeTopStep()
    requires Sound(OneMegabyte(true), map[0x9000_0008 := 0xF_FFFC, 0x9010_0008 := 8])
    ensures Step(OneMegabyte(true), map[0x9000_0008 := 0xF_FFFC, 0x9010_0008 := 8], Free(0x9010_0008)) ==
            Running(OneMegabyte(false), map[0x9000_0008 := 0xF_FFFC])
  {
    GiveStep();
    hide Release;
    assert map[0x9000_0008 := 0xF_FFFC, 0x9010_0008 := 8] - {0x9010_0008} == map[0x9000_0008 := 0xF_FFFC];
  }

  lemma RunNext(h: Heap, live: map<int, int>, ops: seq<Op>, h': Heap, live': map<int, int>)
    requires Sound(h, live) && ops != [] && Step(h, live, ops[0]) == Running(h', live')
    ensures Sound(h', live') && RunFrom(h, live, ops) == RunFrom(h', live', ops[1..])
  {
    hide Step, Sound;
    StepSound(h, live, ops[0]);
  }
}
