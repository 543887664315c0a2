/**
 The allocator of kernel/src/memory_managment/heap.c as a state machine on values:
 which chunks tile the heap, which of them are in use, and the order of the free list.
 */
module HeapModel {
  import opened LinkedLists
  import opened Machine

  const HEAP_MIN_SIZE := 0x100000
  const MIN_CHUNK_SIZE := 16
  const CHUNK_OVERHEAD := 4

  /** A chunk is named by its address; `prev` is the address of the chunk just below it. */
  datatype Chunk = Chunk(size: int, used: bool, prev: int)

  type Chunks = map<int, Chunk>

  /**
   `chunks` has an entry for every chunk and one more, of size 0, at `end`.
   `free` is the free list in order, as addresses of list_heads (eight bytes into the chunk).
   */
  datatype Heap = Heap(start: int, end: int, max: int, chunks: Chunks, free: seq<int>)

  function Entry(l: int): int { l - 8 }

  function Node(a: int): int { a + 8 }

  // ---------------------------------------------------------------- tiling

  /** Chunk a lies in [start, end) and fits exactly between its two neighbours. */
  predicate Good(c: Chunks, start: int, end: int, a: int) {
    && a in c && start <= a <= end
    && (if a == end then c[a].size == 0 && c[a].used
        else c[a].size >= MIN_CHUNK_SIZE && a + c[a].size in c && c[a + c[a].size].prev == a)
    && (a != start ==> c[a].prev in c && c[a].prev != end && c[a].prev + c[c[a].prev].size == a)
  }

  ghost predicate Tiled(c: Chunks, start: int, end: int) {
    && start in c && end in c && start < end
    && (forall a {:trigger Good(c, start, end, a)} :: a in c ==> Good(c, start, end, a))
  }

  /** The local fits leave no room for overlap anywhere: of two chunks one ends before the other starts. */
  lemma {:induction false} Ordered(c: Chunks, start: int, end: int, a: int, b: int)
    requires Tiled(c, start, end) && a in c && b in c && a < b
    ensures a + c[a].size <= b
    decreases a + b - 2 * start
  {
    assert Good(c, start, end, a) && Good(c, start, end, b);
    var p := c[b].prev;
    assert Good(c, start, end, p);
    if a < p {
      Ordered(c, start, end, a, p);
    } else if p < a {
      Ordered(c, start, end, p, a);
    }
  }

  /** Chunks start and end on multiples of eight. */
  predicate EightAt(c: Chunks, a: int) {
    a in c && a % 8 == 0 && c[a].size % 8 == 0
  }

  ghost predicate Aligned(c: Chunks) {
    forall a {:trigger EightAt(c, a)} :: a in c ==> EightAt(c, a)
  }

  predicate IsFree(c: Chunks, a: int) {
    a in c && !c[a].used
  }

  /** The chunk just below a is in use, or there is none. */
  predicate LowUsed(c: Chunks, start: int, a: int)
    requires a in c
  {
    a == start || c[a].prev !in c || c[c[a].prev].used
  }

  /** Chunk a is not free next to a free chunk below it. */
  predicate Merged(c: Chunks, start: int, a: int) {
    a in c ==> c[a].used || LowUsed(c, start, a)
  }

  /** No two free chunks touch, the ones in `loose` aside. */
  ghost predicate Coalesced(c: Chunks, start: int, loose: set<int>) {
    forall a {:trigger Merged(c, start, a)} :: a in c && a !in loose && c[a].prev !in loose ==> Merged(c, start, a)
  }

  // ---------------------------------------------------------------- free list

  function SizeAt(c: Chunks, l: int): int {
    if Entry(l) in c then c[Entry(l)].size else 0
  }

  /** The list holds only free chunks, none twice, by non-decreasing size. */
  ghost predicate ListSound(c: Chunks, free: seq<int>) {
    && (forall i :: 0 <= i < |free| ==> IsFree(c, Entry(free[i])))
    && (forall i, j :: 0 <= i < j < |free| ==> free[i] != free[j] && SizeAt(c, free[i]) <= SizeAt(c, free[j]))
  }

  ghost predicate Bounds(h: Heap) {
    && h.start % PAGE_SIZE == 0 && h.end % PAGE_SIZE == 0
    && 0 < h.start && h.start + HEAP_MIN_SIZE <= h.end <= h.max < TWO32
  }

  /** The free list holds exactly the free chunks that are not in `loose`. */
  ghost predicate Listed(c: Chunks, free: seq<int>, loose: set<int>) {
    && ListSound(c, free)
    && (forall a :: a in loose ==> IsFree(c, a) && Node(a) !in free)
    && (forall a :: IsFree(c, a) && a !in loose ==> Node(a) in free)
  }

  /**
   The shape of the heap while the chunks in `loose` are being worked on: these are free and off
   the list. With nothing loose, the list holds exactly the free chunks and no two of them touch.
   */
  ghost predicate Shaped(h: Heap, loose: set<int>) {
    Tiled(h.chunks, h.start, h.end) && Listed(h.chunks, h.free, loose) && Coalesced(h.chunks, h.start, loose)
  }

  ghost predicate Inv(h: Heap) {
    Bounds(h) && Aligned(h.chunks) && Shaped(h, {})
  }

  /** findSmallestChunk and the search of insertChunk: the first list position whose chunk has at least `size` bytes. */
  function Position(c: Chunks, free: seq<int>, size: int): (k: nat)
    ensures k <= |free|
    ensures forall i :: 0 <= i < k ==> SizeAt(c, free[i]) < size
    ensures k < |free| ==> SizeAt(c, free[k]) >= size
  {
    if free == [] || SizeAt(c, free[0]) >= size then 0 else 1 + Position(c, free[1..], size)
  }

  // ---------------------------------------------------------------- moves on the tiling

  /** Cut chunk a in two; both halves keep the flag. */
  function Split(c: Chunks, a: int, k: int): Chunks
    requires a in c && a + c[a].size in c
  {
    var n := a + c[a].size;
    c[n := c[n].(prev := a + k)][a := c[a].(size := k)][a + k := Chunk(c[a].size - k, c[a].used, a)]
  }

  /** Melt chunk a with the chunk after it; the result keeps a's flag. */
  function Join(c: Chunks, a: int): Chunks
    requires a in c && a + c[a].size in c && a + c[a].size + c[a + c[a].size].size in c
  {
    var n := a + c[a].size;
    var e := n + c[n].size;
    (c - {n})[e := c[e].(prev := a)][a := c[a].(size := c[a].size + c[n].size)]
  }

  function Mark(c: Chunks, a: int, used: bool): Chunks
    requires a in c
  {
    c[a := c[a].(used := used)]
  }

  lemma SplitTiled(c: Chunks, start: int, end: int, a: int, k: int)
    requires Tiled(c, start, end) && a in c && a != end && Good(c, start, end, a)
    requires MIN_CHUNK_SIZE <= k <= c[a].size - MIN_CHUNK_SIZE
    ensures a + k !in c && Tiled(Split(c, a, k), start, end)
  {
    var n := a + c[a].size;
    var c' := Split(c, a, k);
    assert Good(c, start, end, n);
    if a + k in c { Ordered(c, start, end, a, a + k); }
    forall b | b in c' ensures Good(c', start, end, b) {
      if b in c { assert Good(c, start, end, b); }
    }
  }

  lemma JoinGood(c: Chunks, start: int, end: int, a: int, b: int)
    requires Tiled(c, start, end) && a in c && a != end && Good(c, start, end, a) && a + c[a].size != end
    requires a + c[a].size + c[a + c[a].size].size in c
    requires b in c && b != a + c[a].size
    ensures Good(Join(c, a), start, end, b)
  {
    var n := a + c[a].size;
    assert Good(c, start, end, n) && Good(c, start, end, b);
    assert b != a ==> b + c[b].size != n;
    if b != start && b != a {
      assert Good(c, start, end, c[b].prev);
    }
  }

  lemma JoinKeys(c: Chunks, a: int, b: int)
    requires a in c && a + c[a].size in c && a + c[a].size + c[a + c[a].size].size in c
    requires 0 < c[a].size && 0 < c[a + c[a].size].size
    ensures b in Join(c, a) <==> b in c && b != a + c[a].size
  {
  }

  lemma JoinTiled(c: Chunks, start: int, end: int, a: int)
    requires Tiled(c, start, end) && a in c && a != end && Good(c, start, end, a) && a + c[a].size != end
    ensures a + c[a].size + c[a + c[a].size].size in c
    ensures Tiled(Join(c, a), start, end)
  {
    var n := a + c[a].size;
    assert Good(c, start, end, n);
    hide Join, Good;
    forall b ensures b in Join(c, a) ==> b in c && b != n && Good(Join(c, a), start, end, b) {
      JoinKeys(c, a, b);
      if b in c && b != n {
        JoinGood(c, start, end, a, b);
      }
    }
    JoinKeys(c, a, start);
    JoinKeys(c, a, end);
  }

  lemma MarkTiled(c: Chunks, start: int, end: int, a: int, used: bool)
    requires Tiled(c, start, end) && a in c && a != end
    ensures Tiled(Mark(c, a, used), start, end)
  {
    var c' := Mark(c, a, used);
    forall b | b in c' ensures Good(c', start, end, b) {
      assert Good(c, start, end, b);
    }
  }

  /** A new free chunk fills the gap up to a higher end. */
  function Append(c: Chunks, end: int, newEnd: int): Chunks
    requires end in c
  {
    c[end := Chunk(newEnd - end, false, c[end].prev)][newEnd := Chunk(0, true, end)]
  }

  /** The last chunk, b, is given up and the heap ends where it started. */
  function Drop(c: Chunks, end: int, b: int): Chunks
    requires b in c
  {
    (c - {end})[b := Chunk(0, true, c[b].prev)]
  }

  lemma Below(c: Chunks, start: int, end: int, a: int)
    requires Tiled(c, start, end) && a in c && a != end
    ensures a + c[a].size <= end && a < end
  {
    assert Good(c, start, end, a);
    Ordered(c, start, end, a, end);
  }

  lemma AppendTiled(c: Chunks, start: int, end: int, newEnd: int)
    requires Tiled(c, start, end) && end + MIN_CHUNK_SIZE <= newEnd
    ensures newEnd !in c && Tiled(Append(c, end, newEnd), start, newEnd)
  {
    var c' := Append(c, end, newEnd);
    assert Good(c, start, end, end) && Good(c, start, end, start);
    assert newEnd in c ==> Good(c, start, end, newEnd);
    forall b | b in c' ensures Good(c', start, newEnd, b) {
      if b in c {
        assert Good(c, start, end, b);
        if b != end { Below(c, start, end, b); }
        if b != start { assert Good(c, start, end, c[b].prev); }
      }
    }
  }

  lemma DropTiled(c: Chunks, start: int, end: int, b: int)
    requires Tiled(c, start, end) && b in c && b != end && b != start && b + c[b].size == end
    ensures Tiled(Drop(c, end, b), start, b)
  {
    var c' := Drop(c, end, b);
    assert Good(c, start, end, b) && Good(c, start, end, end);
    assert c'.Keys == c.Keys - {end};
    forall x | x in c' ensures Good(c', start, b, x) {
      assert Good(c, start, end, x);
      if x < b { Ordered(c, start, end, x, b); }
      if b < x { Ordered(c, start, end, b, x); Below(c, start, end, x); }
    }
  }

  // ---------------------------------------------------------------- moves on the free list

  /** The position of x in s. */
  function IndexOf(s: seq<int>, x: int): (i: nat)
    requires x in s
    ensures i < |s| && s[i] == x
  {
    if s[0] == x then 0 else 1 + IndexOf(s[1..], x)
  }

  function Without(free: seq<int>, a: int): seq<int>
    requires Node(a) in free
  {
    RemoveAt(free, IndexOf(free, Node(a)))
  }

  function With(c: Chunks, free: seq<int>, a: int): seq<int>
    requires a in c
  {
    InsertAt(free, Position(c, free, c[a].size), Node(a))
  }

  lemma RemoveSound(c: Chunks, free: seq<int>, i: int)
    requires ListSound(c, free) && 0 <= i < |free|
    ensures ListSound(c, RemoveAt(free, i)) && free[i] !in RemoveAt(free, i)
    ensures forall x :: x in free && x != free[i] ==> x in RemoveAt(free, i)
  {
    var f := RemoveAt(free, i);
    assert forall j :: 0 <= j < |f| ==> f[j] == free[if j < i then j else j + 1];
    forall x | x in free && x != free[i] ensures x in f {
      var j :| 0 <= j < |free| && free[j] == x;
      assert f[if j < i then j else j - 1] == x;
    }
  }

  lemma WithSorted(c: Chunks, free: seq<int>, a: int, i: int, j: int)
    requires ListSound(c, free) && IsFree(c, a) && Node(a) !in free
    requires 0 <= i < j < |With(c, free, a)|
    ensures var f := With(c, free, a); f[i] != f[j] && SizeAt(c, f[i]) <= SizeAt(c, f[j])
  {
    var k := Position(c, free, c[a].size);
    if j < k {
    } else if j == k {
      assert SizeAt(c, free[i]) < c[a].size;
    } else if i == k && k < j - 1 {
      assert SizeAt(c, free[k]) <= SizeAt(c, free[j - 1]);
    }
  }

  lemma WithSound(c: Chunks, free: seq<int>, a: int)
    requires ListSound(c, free) && IsFree(c, a) && Node(a) !in free
    ensures ListSound(c, With(c, free, a))
    ensures forall x :: x in With(c, free, a) <==> x in free || x == Node(a)
  {
    var k := Position(c, free, c[a].size);
    var f := With(c, free, a);
    assert forall x :: x in free <==> x in free[..k] || x in free[k..] by { assert free == free[..k] + free[k..]; }
    forall i | 0 <= i < |f| ensures IsFree(c, Entry(f[i])) {
      assert f[i] == if i < k then free[i] else if i == k then Node(a) else free[i - 1];
    }
    forall i, j | 0 <= i < j < |f| ensures f[i] != f[j] && SizeAt(c, f[i]) <= SizeAt(c, f[j]) {
      WithSorted(c, free, a, i, j);
    }
  }

  /** The list only looks at the size and the flag of the chunks on it. */
  lemma SoundFrame(c: Chunks, c': Chunks, free: seq<int>)
    requires ListSound(c, free)
    requires forall i :: 0 <= i < |free| ==> Entry(free[i]) in c' && c'[Entry(free[i])].size == c[Entry(free[i])].size && !c'[Entry(free[i])].used
    ensures ListSound(c', free)
  {
  }
}
