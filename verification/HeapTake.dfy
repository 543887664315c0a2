/** alloc, lines 229-243, on memory: each lemma is what one stretch of the code needs or has achieved. */
module HeapTake {
  import opened LinkedLists
  import opened HeapModel
  import opened HeapSteps
  import opened HeapOps
  import opened HeapMemory

  /** The sizes the list walks read are those of the chunks. */
  ghost predicate SizesRead(m: Mem, c: Chunks, f: seq<int>) {
    forall l :: l in f ==> Entry(l) in c && Entry(l) + 4 in m && ChunkSize(m[Entry(l) + 4]) == c[Entry(l)].size
  }

  lemma RepSizes(m: Mem, c: Chunks, start: int, end: int, stale: set<int>, f: seq<int>)
    requires Tagged(m, c, start, end, stale) && AllFree(c, f) && Aligned(c) && Tiled(c, start, end)
    requires forall a :: a in stale ==> Node(a) !in f
    ensures SizesRead(m, c, f)
  {
    forall l | l in f ensures Entry(l) in c && Entry(l) + 4 in m && ChunkSize(m[Entry(l) + 4]) == c[Entry(l)].size {
      var a := Entry(l);
      assert IsFree(c, a) && EightAt(c, a);
      assert Good(c, start, end, end);
      assert l == Node(a) && a !in stale;
      assert Header(m, c, start, end, a);
      WordBits(c, start, a);
    }
  }

  /** The head word of a chunk, read back. */
  lemma HeadRead(m: Mem, c: Chunks, start: int, end: int, stale: set<int>, a: int)
    requires Tagged(m, c, start, end, stale) && Aligned(c) && a in c && a != end && a !in stale
    ensures a + 4 in m && m[a + 4] == HeadWord(c, start, a) && ChunkSize(m[a + 4]) == c[a].size
    ensures (PInUse(m[a + 4]) <==> LowUsed(c, start, a)) && (CInUse(m[a + 4]) <==> c[a].used)
  {
    assert Header(m, c, start, end, a) && EightAt(c, a);
    WordBits(c, start, a);
  }

  ghost predicate Ready(m: Mem, head: int, h: Heap) {
    Inv(h) && Rep(m, head, h, {})
  }

  lemma ReadyList(m: Mem, head: int, h: Heap)
    requires Ready(m, head, h)
    ensures Ring(m, head, h.free) && SizesRead(m, h.chunks, h.free)
  {
    SoundAllFree(h.chunks, h.free);
    RepSizes(m, h.chunks, h.start, h.end, {}, h.free);
  }

  lemma ReadyChunk(m: Mem, head: int, h: Heap, a: int)
    requires Ready(m, head, h) && a in h.chunks && a != h.end
    ensures a + 4 in m && a in m && Mapped(m, Node(a)) && ChunkSize(m[a + 4]) == h.chunks[a].size && m[a + 4] == HeadWord(h.chunks, h.start, a)
    ensures (PInUse(m[a + 4]) <==> LowUsed(h.chunks, h.start, a)) && (CInUse(m[a + 4]) <==> h.chunks[a].used)
    ensures a + h.chunks[a].size in h.chunks && a + h.chunks[a].size <= h.end
  {
    HeadRead(m, h.chunks, h.start, h.end, {}, a);
    NodeMapped(m, head, h, a);
    Around(h, {}, a);
  }

  /** Taking an entry off the list leaves a memory that still represents the rest. */
  lemma Removed(m: Mem, m1: Mem, head: int, h: Heap, i: int)
    requires Shaped(h, {}) && h.end <= h.max && Rep(m, head, h, {}) && 0 <= i < |h.free|
    requires Ring(m1, head, RemoveAt(h.free, i)) && OffList(m, m1, head, h.free)
    ensures Rep(m1, head, h.(free := RemoveAt(h.free, i)), {})
  {
    hide Ring;
    SoundAllFree(h.chunks, h.free);
    TaggedOffList(m, m1, h.chunks, h.start, h.end, {}, head, h.free);
  }

  ghost predicate Taken(m: Mem, head: int, h: Heap, a: int) {
    && Shaped(h, {a}) && Aligned(h.chunks) && h.end <= h.max && Rep(m, head, h, {})
    && a in h.chunks && a != h.end && LowUsed(h.chunks, h.start, a)
    && a + h.chunks[a].size in h.chunks && h.chunks[a + h.chunks[a].size].used
  }

  lemma TakenFrom(m: Mem, m1: Mem, head: int, h: Heap, i: int)
    requires Ready(m, head, h) && 0 <= i < |h.free|
    requires Ring(m1, head, RemoveAt(h.free, i)) && OffList(m, m1, head, h.free)
    ensures Taken(m1, head, h.(free := RemoveAt(h.free, i)), Entry(h.free[i]))
  {
    hide Shaped, Rep, Ring, OffList, Aligned;
    var a := Entry(h.free[i]);
    OnList(h, {}, i);
    Around(h, {}, a);
    Quiet(h, {}, a);
    Quiet(h, {}, a + h.chunks[a].size);
    Removed(m, m1, head, h, i);
    TakeOff(h, {}, i);
    assert {} + {a} == {a};
  }

  lemma CarveMapped(m: Mem, head: int, h: Heap, a: int, nb: int)
    requires Taken(m, head, h, a) && MIN_CHUNK_SIZE <= nb && h.chunks[a].size >= nb + MIN_CHUNK_SIZE
    ensures a + nb + 4 in m && (a + h.chunks[a].size != h.end ==> a + h.chunks[a].size in m)
    ensures a + h.chunks[a].size <= h.end && a + 4 in m && ChunkSize(m[a + 4]) == h.chunks[a].size && PInUse(m[a + 4])
  {
    hide Shaped, Ring, Tagged;
    Around(h, {a}, a);
    ShapedParts(h, {a});
    NodeMapped(m, head, h, a);
    HeadRead(m, h.chunks, h.start, h.end, {}, a);
    if a + h.chunks[a].size != h.end { NodeMapped(m, head, h, a + h.chunks[a].size); }
  }

  ghost function CutChunks(c: Chunks, a: int, nb: int): Chunks
    requires a in c && a + c[a].size in c
  {
    Mark(Split(c, a, nb), a, true)
  }

  /** The stores of lines 234-235 done: the left-over chunk n is ready for insertChunk. */
  ghost predicate Carved(m: Mem, head: int, h: Heap, c: Chunks, a: int, n: int) {
    && n in c && n + 4 in m && m[n + 4] == c[n].size && ChunkSize(m[n + 4]) == c[n].size
    && Ring(m, head, h.free) && SizesRead(m, c, h.free) && Mapped(m, Node(n)) && Outside(Node(n), head, h.free)
    && Tagged(m, c, h.start, h.end, {a, n}) && a + 4 in m && PInUse(m[a + 4])
  }

  lemma CarveReady(m: Mem, head: int, h: Heap, a: int, nb: int)
    requires Taken(m, head, h, a) && MIN_CHUNK_SIZE <= nb && h.chunks[a].size >= nb + MIN_CHUNK_SIZE && nb % 8 == 0
    ensures Carved(CarveWords(m, h.chunks, h.end, a, nb), head, h, CutChunks(h.chunks, a, nb), a, a + nb)
  {
    hide Shaped, Ring, Outside, Tagged, SizesRead;
    var c, n, e := h.chunks, a + nb, a + h.chunks[a].size;
    var m' := CarveWords(m, c, h.end, a, nb);
    LooseFree(h, {a}, a);
    Around(h, {a}, a);
    ShapedParts(h, {a});
    CarveMapped(m, head, h, a, nb);
    CarveTags(m, c, h.start, h.end, a, nb);
    CarveList(m, head, h, a, nb);
    InsideOffList(c, h.start, h.end, h.free, head, a, n + 4);
    RingStore(m, head, h.free, n + 4, c[a].size - nb);
    if e != h.end {
      TagsOffList(c, h.start, h.end, h.free, head, e);
      RingStore(m[n + 4 := c[a].size - nb], head, h.free, e, c[a].size - nb);
    }
  }

  lemma ShapedParts(h: Heap, loose: set<int>)
    requires Shaped(h, loose)
    ensures Tiled(h.chunks, h.start, h.end) && AllFree(h.chunks, h.free)
    ensures forall a :: a in loose ==> Node(a) !in h.free
  {
  }

  /** The chunks after the cut, the left-over chunk still loose. */
  lemma CarveShaped(h: Heap, a: int, nb: int)
    requires Shaped(h, {a}) && Aligned(h.chunks) && a in h.chunks && a != h.end && a + h.chunks[a].size in h.chunks
    requires MIN_CHUNK_SIZE <= nb && h.chunks[a].size >= nb + MIN_CHUNK_SIZE && nb % 8 == 0
    ensures var c' := CutChunks(h.chunks, a, nb); Shaped(h.(chunks := c'), {a + nb}) && Aligned(c')
  {
    hide Shaped;
    Around(h, {a}, a);
    SplitLoose(h, {a}, a, nb);
    SplitAligned(h.chunks, a, nb);
    var h1 := h.(chunks := Split(h.chunks, a, nb));
    MarkUsed(h1, {a} + {a + nb}, a);
    assert {a} + {a + nb} - {a} == {a + nb};
    MarkAligned(h1.chunks, a, true);
  }

  lemma CarveList(m: Mem, head: int, h: Heap, a: int, nb: int)
    requires Taken(m, head, h, a) && MIN_CHUNK_SIZE <= nb && h.chunks[a].size >= nb + MIN_CHUNK_SIZE && nb % 8 == 0
    requires Tagged(CarveWords(m, h.chunks, h.end, a, nb), CutChunks(h.chunks, a, nb), h.start, h.end, {a, a + nb})
    ensures var c', n := CutChunks(h.chunks, a, nb), a + nb;
            var m' := CarveWords(m, h.chunks, h.end, a, nb);
            && n in c' && SizesRead(m', c', h.free) && Mapped(m, Node(n)) && Outside(Node(n), head, h.free)
            && ChunkSize(c'[n].size) == c'[n].size
  {
    hide Shaped, Ring, Tagged;
    var c', n := CutChunks(h.chunks, a, nb), a + nb;
    var m' := CarveWords(m, h.chunks, h.end, a, nb);
    LooseFree(h, {a}, a);
    ShapedParts(h, {a});
    CarveShaped(h, a, nb);
    var h' := h.(chunks := c');
    ShapedParts(h', {n});
    RepSizes(m', c', h.start, h.end, {a, n}, h.free);
    LooseFree(h', {n}, n);
    Around(h', {n}, n);
    NodeOutside(c', h.start, h.end, h.free, head, n);
    NodeMapped(m, head, h', n);
    assert EightAt(c', n);
  }

  /** set_inuse on a chunk whose head, and whose successor's PINUSE_BIT, are still to be written. */
  lemma UseRep(m: Mem, head: int, c: Chunks, start: int, end: int, f: seq<int>, a: int)
    requires Ring(m, head, f) && Tiled(c, start, end) && AllFree(c, f) && (head + 8 <= start || end + 8 <= head)
    requires a in c && a != end && c[a].used && a + 4 in m && Tagged(m, c, start, end, {a, a + c[a].size})
    requires PInUse(m[a + 4]) <==> LowUsed(c, start, a)
    requires var n := a + c[a].size; n != end ==> n in c && n + 4 in m && SetPInUse(m[n + 4]) == HeadWord(c, start, n)
    ensures var m' := UseWords(m, a, c[a].size, end); Ring(m', head, f) && Tagged(m', c, start, end, {}) && m'.Keys == m.Keys
  {
    hide Ring, Tagged;
    var n := a + c[a].size;
    UseTags(m, c, start, end, a);
    TagsOffList(c, start, end, f, head, a);
    var m1 := m[a + 4 := (if PInUse(m[a + 4]) then 1 else 0) + 2 + c[a].size];
    RingStore(m, head, f, a + 4, m1[a + 4]);
    if n != end {
      TagsOffList(c, start, end, f, head, n);
      RingStore(m1, head, f, n + 4, SetPInUse(m1[n + 4]));
    }
  }

  /** Link changes leave the head words of a and n as they were. */
  lemma CarveInserted(m1: Mem, m2: Mem, head: int, c: Chunks, start: int, end: int, f: seq<int>, a: int, n: int)
    requires Tiled(c, start, end) && AllFree(c, f) && (head + 8 <= start || end + 8 <= head) && OffList(m1, m2, head, f)
    requires Tagged(m1, c, start, end, {a, n}) && a in c && n in c && a != end && n != end && a + 4 in m1 && n + 4 in m1
    ensures Tagged(m2, c, start, end, {a, n}) && a + 4 in m2 && n + 4 in m2 && m2[a + 4] == m1[a + 4] && m2[n + 4] == m1[n + 4]
  {
    TaggedOffList(m1, m2, c, start, end, {a, n}, head, f);
    TagsOffList(c, start, end, f, head, a);
    TagsOffList(c, start, end, f, head, n);
  }

  lemma WithIn(c: Chunks, f: seq<int>, n: int)
    requires n in c
    ensures forall l :: l in With(c, f, n) <==> l in f + [Node(n)]
  {
    var k := Position(c, f, c[n].size);
    assert f == f[..k] + f[k..];
  }

  /** The values of HeapOps.Carve once the hole is off the list. */
  ghost function Cut(h: Heap, a: int, nb: int): Heap
    requires a in h.chunks && a + h.chunks[a].size in h.chunks
  {
    var c' := CutChunks(h.chunks, a, nb);
    h.(chunks := c', free := With(c', h.free, a + nb))
  }

  /** insertChunk has put the left-over chunk on the list. */
  ghost predicate CarveLinked(m: Mem, m2: Mem, head: int, h: Heap, a: int, nb: int) {
    && a in h.chunks && a + h.chunks[a].size in h.chunks
    && Ring(m2, head, Cut(h, a, nb).free)
    && OffList(CarveWords(m, h.chunks, h.end, a, nb), m2, head, h.free + [Node(a + nb)])
  }

  /** set_inuse now yields a memory that represents the heap after the cut. */
  ghost predicate CarveGoal(m2: Mem, head: int, h: Heap, a: int, nb: int) {
    && a in h.chunks && a + h.chunks[a].size in h.chunks && a + 4 in m2 && a + nb + 4 in m2
    && Rep(UseWords(m2, a, nb, h.end), head, Cut(h, a, nb), {})
  }

  /** After insertChunk, set_inuse completes both heads. */
  lemma CarveDone(m: Mem, m2: Mem, head: int, h: Heap, a: int, nb: int)
    requires Taken(m, head, h, a) && MIN_CHUNK_SIZE <= nb && h.chunks[a].size >= nb + MIN_CHUNK_SIZE && nb % 8 == 0
    requires CarveLinked(m, m2, head, h, a, nb)
    ensures CarveGoal(m2, head, h, a, nb)
  {
    hide Shaped, Ring, Outside, Tagged, SizesRead, With, OffList, Tiled;
    var c, n := h.chunks, a + nb;
    var c' := CutChunks(c, a, nb);
    var f, f' := h.free + [Node(n)], With(c', h.free, n);
    CarveReady(m, head, h, a, nb);
    CarveMapped(m, head, h, a, nb);
    CarveShaped(h, a, nb);
    ShapedParts(h.(chunks := c'), {n});
    LooseFree(h.(chunks := c'), {n}, n);
    Around(h.(chunks := c'), {n}, n);
    assert AllFree(c', f);
    WithIn(c', h.free, n);
    assert AllFree(c', f');
    CarveInserted(CarveWords(m, c, h.end, a, nb), m2, head, c', h.start, h.end, f, a, n);
    assert c'[a].size == nb && c'[n].prev == a;
    HeadsDone(m2[n + 4], c', h.start, a, n);
    CarveLow(h, a, nb);
    UseRep(m2, head, c', h.start, h.end, f', a);
    KeysKept(CarveWords(m, c, h.end, a, nb), m2, head, f);
  }

  lemma CarveLow(h: Heap, a: int, nb: int)
    requires Shaped(h, {a}) && a in h.chunks && LowUsed(h.chunks, h.start, a)
    requires MIN_CHUNK_SIZE <= nb && h.chunks[a].size >= nb + MIN_CHUNK_SIZE
    requires a + h.chunks[a].size in h.chunks && h.chunks[a + h.chunks[a].size].used
    ensures LowUsed(CutChunks(h.chunks, a, nb), h.start, a)
  {
    hide Shaped, With;
    CarveSplit(h, a, nb);
  }

  lemma KeysKept(m: Mem, m': Mem, head: int, f: seq<int>)
    requires OffList(m, m', head, f)
    ensures m'.Keys == m.Keys
  {
  }

  lemma HeadsDone(word: int, c: Chunks, start: int, a: int, n: int)
    requires n in c && a in c && !c[n].used && c[n].prev == a && c[a].used && word == c[n].size && ChunkSize(word) == word
    ensures SetPInUse(word) == HeadWord(c, start, n)
  {
  }

  /** alloc, lines 239-241: the whole chunk is taken. */
  lemma TakeWhole(m: Mem, head: int, h: Heap, a: int)
    requires Taken(m, head, h, a)
    ensures a + 4 in m && (a + h.chunks[a].size != h.end ==> a + h.chunks[a].size + 4 in m)
    ensures Rep(UseWords(m, a, h.chunks[a].size, h.end), head, h.(chunks := Mark(h.chunks, a, true)), {})
  {
    hide Shaped, Ring;
    var c, n := h.chunks, a + h.chunks[a].size;
    var c' := Mark(c, a, true);
    LooseFree(h, {a}, a);
    Around(h, {a}, a);
    ShapedParts(h, {a});
    HeadRead(m, c, h.start, h.end, {}, a);
    MarkUsed(h, {a}, a);
    assert {a} - {a} == {};
    ShapedParts(h.(chunks := c'), {});
    if n != h.end {
      HeadRead(m, c, h.start, h.end, {}, n);
      assert EightAt(c, n);
    }
    WholeTags(m, c, h.start, h.end, a);
    UseRep(m, head, c', h.start, h.end, h.free, a);
  }

  lemma WholeTags(m: Mem, c: Chunks, start: int, end: int, a: int)
    requires Tiled(c, start, end) && Tagged(m, c, start, end, {}) && a in c && a != end
    ensures Tagged(m, Mark(c, a, true), start, end, {a, a + c[a].size})
  {
    var c', n := Mark(c, a, true), a + c[a].size;
    forall b | b in c' ensures (b !in {a, n} ==> Header(m, c', start, end, b)) && Footer(m, c', start, end, b) {
      assert Good(c, start, end, b);
      if b != start { assert Good(c, start, end, c[b].prev); }
      assert Header(m, c, start, end, b) && Footer(m, c, start, end, b);
    }
  }

  lemma TakenRead(m: Mem, head: int, h: Heap, a: int)
    requires Taken(m, head, h, a)
    ensures a in h.chunks && a + 4 in m && ChunkSize(m[a + 4]) == h.chunks[a].size && a + h.chunks[a].size in h.chunks
  {
    HeadRead(m, h.chunks, h.start, h.end, {}, a);
  }

  lemma TakeBegin(m: Mem, head: int, h: Heap, i: int, nb: int)
    requires Inv(h) && Rep(m, head, h, {}) && 0 <= i < |h.free|
    ensures Ready(m, head, h) && Ring(m, head, h.free) && Shaped(h, {}) && Entry(h.free[i]) in h.chunks
  {
    OnList(h, {}, i);
  }

  lemma CarveWordsAre(m: Mem, c: Chunks, end: int, a: int, nb: int)
    requires a in c
    ensures var m1 := m[a + nb + 4 := c[a].size - nb];
            CarveWords(m, c, end, a, nb) == if a + c[a].size == end then m1 else m1[a + c[a].size := c[a].size - nb]
  {
  }

  lemma CutIsCarve(h: Heap, i: int, nb: int)
    requires Shaped(h, {}) && 0 <= i < |h.free|
    ensures var a, h1 := Entry(h.free[i]), h.(free := RemoveAt(h.free, i));
            && a in h.chunks && a + h.chunks[a].size in h.chunks
            && Carve(h, i, nb) == if h.chunks[a].size >= nb + MIN_CHUNK_SIZE then Cut(h1, a, nb) else h1.(chunks := Mark(h.chunks, a, true))
  {
    hide Shaped;
    OnList(h, {}, i);
    Around(h, {}, Entry(h.free[i]));
  }
}
