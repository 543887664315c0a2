/** kernel/src/memory_managment/heap.c over raw memory, proved against the values of HeapModel. */
module KernelHeap {
  import opened LinkedLists
  import opened Machine
  import opened HeapModel
  import opened HeapOps
  import opened HeapAlloc
  import opened HeapRuns
  import opened HeapMemory
  import opened HeapPayloads
  import opened HeapContents
  import opened HeapTake
  import opened HeapGrow
  import opened HeapGive
  import opened HeapAligned

  lemma PositionIs(c: Chunks, f: seq<int>, size: int, i: int)
    requires 0 <= i <= |f| && (forall j :: 0 <= j < i ==> SizeAt(c, f[j]) < size) && (i < |f| ==> SizeAt(c, f[i]) >= size)
    ensures Position(c, f, size) == i
  {
  }

  lemma RingAt(m: Mem, head: int, f: seq<int>, i: int)
    requires Ring(m, head, f) && 0 <= i <= |f|
    ensures At(head, f, i) == head <==> i == |f|
    ensures i < |f| ==> At(head, f, i) == f[i] && f[i] in f && f[i] in m && m[f[i]] == At(head, f, i + 1)
  {
    if i < |f| { RingLinks(m, head, f, i + 1); }
  }

  /** What the ASSERTs of createHeap and its callers' arguments amount to; the Heap_t lies outside the range. */
  predicate Creatable(head: int, start: int, end: int, max: int) {
    && start % PAGE_SIZE == 0 && end % PAGE_SIZE == 0 && 0 < start && start + HEAP_MIN_SIZE <= end <= max < TWO32
    && (head + 8 <= start || max + 8 <= head)
  }

  /** The memory createHeap hands to insertChunk. */
  lemma FreshStart(m: Mem, head: int, start: int, end: int, max: int)
    requires Pages(m, head, start, end) && Creatable(head, start, end, max)
    ensures Inv(Fresh(start, end, max))
    ensures Mapped(m, head) && start in m && start + 4 in m
    ensures var m' := m[head := head][head + 4 := head][start := 0][start + 4 := end - start + 1];
            var c := Fresh(start, end, max).chunks;
            && Ring(m', head, []) && SizesRead(m', c, []) && start in c && start + 4 in m' && ChunkSize(m'[start + 4]) == c[start].size
            && Mapped(m', Node(start)) && Outside(Node(start), head, [])
  {
    FreshInv(start, end, max);
    OnPages(start, end);
    PageIsEight(end - start);
    hide Inv, Users;
    FreshWords(m, head, start, end, max);
  }

  lemma FreshWords(m: Mem, head: int, start: int, end: int, max: int)
    requires Pages(m, head, start, end) && 0 < start && start + HEAP_MIN_SIZE <= end <= max && (head + 8 <= start || max + 8 <= head) && (end - start) % 8 == 0
    ensures Mapped(m, head) && start in m && start + 4 in m
    ensures var m' := m[head := head][head + 4 := head][start := 0][start + 4 := end - start + 1];
            var c := Fresh(start, end, max).chunks;
            && Ring(m', head, []) && SizesRead(m', c, []) && start in c && start + 4 in m' && ChunkSize(m'[start + 4]) == c[start].size
            && Mapped(m', Node(start)) && Outside(Node(start), head, [])
  {
  }

  lemma FreshRep(m0: Mem, m: Mem, head: int, start: int, end: int, max: int)
    requires Pages(m0, head, start, end) && Creatable(head, start, end, max)
    requires start in Fresh(start, end, max).chunks && Ring(m, head, With(Fresh(start, end, max).chunks, [], start))
    requires OffList(m0[head := head][head + 4 := head][start := 0][start + 4 := end - start + 1], m, head, [] + [Node(start)])
    ensures Rep(m, head, Fresh(start, end, max), {}) && Fresh(start, end, max).start == start
    ensures Fresh(start, end, max).end == end && Fresh(start, end, max).max == max
  {
    hide Ring;
    assert !Cell(start + 4, head, [] + [Node(start)]);
    var c := Fresh(start, end, max).chunks;
    assert With(c, [], start) == [Node(start)];
    forall a | a in c ensures Header(m, c, start, end, a) && Footer(m, c, start, end, a) {}
  }

  class HeapObject {
    const ram: Ram
    const head: int
    var startAddr: int
    var endAddr: int
    var maxAddr: int
    ghost var h: Heap

    ghost predicate Valid()
      reads this, ram
    {
      && h.start == startAddr && h.end == endAddr && h.max == maxAddr
      && Inv(h) && Rep(ram.w, head, h, {})
    }

    /** createHeap: the two ASSERTs and the callers' sizes are the precondition. */
    constructor CreateHeap(ram: Ram, head: int, start: int, end: int, max: int)
      requires Creatable(head, start, end, max) && Pages(ram.w, head, start, end)
      modifies ram
      ensures Valid() && this.ram == ram && this.head == head && h == Fresh(start, end, max)
    {
      this.ram := ram;
      this.head := head;
      startAddr := start;
      endAddr := end;
      maxAddr := max;
      h := Fresh(start, end, max);
      new;
      hide Inv, Rep, Fresh, SizesRead, Ring, With, OffList, Pages, Outside, ChunkSize, Creatable;
      FreshStart(ram.w, head, start, end, max);
      ram.InitListHead(head);
      ram.Store(start, 0);
      ram.Store(start + 4, end - start + 1);
      InsertChunk(start, h.chunks, []);
      FreshRep(old(ram.w), ram.w, head, start, end, max);
    }

    /** findSmallestChunk: the list_head of the first chunk on the list with at least `size` bytes, or 0. */
    method FindSmallestChunk(size: int, ghost c: Chunks, ghost f: seq<int>) returns (l: int)
      requires Ring(ram.w, head, f) && SizesRead(ram.w, c, f)
      ensures var k := Position(c, f, size); l == if k < |f| then f[k] else 0
    {
      ghost var i := 0;
      RingLinks(ram.w, head, f, 0);
      RingAt(ram.w, head, f, 0);
      var iter := ram.w[head];
      while iter != head
        invariant 0 <= i <= |f| && iter == At(head, f, i)
        invariant forall j :: 0 <= j < i ==> SizeAt(c, f[j]) < size
        decreases |f| - i
      {
        RingAt(ram.w, head, f, i);
        if ChunkSize(ram.w[Entry(iter) + 4]) >= size {
          PositionIs(c, f, size, i);
          return iter;
        }
        iter := ram.w[iter];
        i := i + 1;
      }
      RingAt(ram.w, head, f, i);
      PositionIs(c, f, size, i);
      return 0;
    }

    /** insertChunk: chunk a goes before the first chunk on the list that is not smaller. */
    method InsertChunk(a: int, ghost c: Chunks, ghost f: seq<int>)
      requires Ring(ram.w, head, f) && SizesRead(ram.w, c, f)
      requires a in c && a + 4 in ram.w && ChunkSize(ram.w[a + 4]) == c[a].size
      requires Mapped(ram.w, Node(a)) && Outside(Node(a), head, f)
      modifies ram
      ensures Ring(ram.w, head, With(c, f, a)) && OffList(old(ram.w), ram.w, head, f + [Node(a)])
    {
      ghost var i := 0;
      RingLinks(ram.w, head, f, 0);
      RingAt(ram.w, head, f, 0);
      var empty := ram.ListEmpty(head, f);
      if empty {
        LinkOffList(ram.w, head, f, 0, Node(a));
        PositionIs(c, f, c[a].size, 0);
        ram.ListAddTail(Node(a), head, head, f, 0);
      } else {
        var csize := ChunkSize(ram.w[a + 4]);
        var iter := ram.w[head];
        while iter != head
          invariant ram.w == old(ram.w)
          invariant 0 <= i <= |f| && iter == At(head, f, i)
          invariant forall j :: 0 <= j < i ==> SizeAt(c, f[j]) < csize
          decreases |f| - i
        {
          RingAt(ram.w, head, f, i);
          if ChunkSize(ram.w[Entry(iter) + 4]) >= csize {
            break;
          }
          iter := ram.w[iter];
          i := i + 1;
        }
        RingAt(ram.w, head, f, i);
        PositionIs(c, f, csize, i);
        LinkOffList(ram.w, head, f, i, Node(a));
        ram.ListAddTail(Node(a), iter, head, f, i);
      }
    }

    /** removeChunk */
    method RemoveChunk(a: int, ghost f: seq<int>, ghost i: int)
      requires Ring(ram.w, head, f) && 0 <= i < |f| && f[i] == Node(a)
      modifies ram
      ensures Ring(ram.w, head, RemoveAt(f, i)) && OffList(old(ram.w), ram.w, head, f)
    {
      UnlinkOffList(ram.w, head, f, i);
      ram.ListDelEntry(Node(a), head, f, i);
    }

    /** set_inuse. Repair of lines 49-51: the chunk after the last one does not exist, its head is not touched. */
    method SetInUse(p: int, s: int)
      requires p + 4 in ram.w && (p + s != endAddr ==> p + s + 4 in ram.w)
      modifies ram
      ensures ram.w == UseWords(old(ram.w), p, s, endAddr)
    {
      ram.Store(p + 4, (if PInUse(ram.w[p + 4]) then 1 else 0) + 2 + s);
      if p + s != endAddr {
        ram.Store(p + s + 4, SetPInUse(ram.w[p + s + 4]));
      }
    }

    /** alloc, lines 231-241: the chunk, off the list, is cut and the rest put on the list. */
    method CarveChunk(hole: int, size: int, nb: int, ghost h1: Heap)
      requires Taken(ram.w, head, h1, hole) && size == h1.chunks[hole].size && endAddr == h1.end
      requires MIN_CHUNK_SIZE <= nb && size >= nb + MIN_CHUNK_SIZE && nb % 8 == 0
      modifies ram
      ensures Rep(ram.w, head, Cut(h1, hole, nb), {})
      ensures Keeps(old(ram.w), ram.w, Users(h1)) && ram.w.Keys == old(ram.w).Keys
    {
      hide Rep, Shaped, Ring, Tagged, Taken, OffList, SizesRead, Outside, With, CutChunks, UseWords, CarveWords, ChunkSize, PInUse, Keeps, Users, Cut;
      ghost var m1 := ram.w;
      TakenRead(m1, head, h1, hole);
      CarveMapped(m1, head, h1, hole, nb);
      var rest := hole + nb;
      CarveWordsAre(m1, h1.chunks, h1.end, hole, nb);
      ram.Store(rest + 4, size - nb);
      if hole + size != endAddr {
        ram.Store(hole + size, size - nb);
      }
      CarveReady(m1, head, h1, hole, nb);
      CutList(h1, hole, nb);
      InsertChunk(rest, CutChunks(h1.chunks, hole, nb), h1.free);
      CarveDone(m1, ram.w, head, h1, hole, nb);
      CarveKeeps(m1, ram.w, head, h1, hole, nb);
      SetInUse(hole, nb);
    }

    /** alloc, lines 229-243. Repair of lines 231-238: the foot of the left-over chunk is written. */
    method TakeChunk(l: int, nb: int, ghost i: int)
      requires Valid() && 0 <= i < |h.free| && l == h.free[i]
      requires MIN_CHUNK_SIZE <= nb <= SizeAt(h.chunks, l) && nb % 8 == 0
      modifies this, ram
      ensures Valid() && h == Carve(old(h), i, nb)
      ensures startAddr == old(startAddr) && endAddr == old(endAddr) && maxAddr == old(maxAddr)
      ensures Keeps(old(ram.w), ram.w, Users(old(h))) && ram.w.Keys == old(ram.w).Keys
    {
      hide Inv, Rep, Shaped, Ring, Tagged, Taken, OffList, With, Mark, UseWords, Carve, ChunkSize, PInUse, RemoveAt, Keeps, Users, Cut, Within;
      var hole := Entry(l);
      ghost var h0, m0 := h, ram.w;
      TakeBegin(m0, head, h0, i, nb);
      RemoveChunk(hole, h.free, i);
      TakenFrom(m0, ram.w, head, h0, i);
      UsersWithin(h0);
      RemoveKeeps(m0, ram.w, head, h0, Users(h0));
      ghost var h1 := h0.(free := RemoveAt(h0.free, i));
      ghost var m1 := ram.w;
      UsersOfList(h0, RemoveAt(h0.free, i));
      TakenRead(m1, head, h1, hole);
      var size := ChunkSize(ram.w[hole + 4]);
      if size >= nb + MIN_CHUNK_SIZE {
        CarveChunk(hole, size, nb, h1);
        CutList(h1, hole, nb);
        h := Cut(h1, hole, nb);
      } else {
        TakeWhole(m1, head, h1, hole);
        WholeKeeps(m1, head, h1, hole);
        SetInUse(hole, size);
        h := h1.(chunks := Mark(h1.chunks, hole, true));
      }
      KeepsTrans(m0, m1, ram.w, Users(h0));
      CarveInv(h0, i, nb);
      CutIsCarve(h0, i, nb);
    }

    /** expand: page by page; false is a failed ASSERT. The frames that getPage and allocFrame supply hold `junk`. */
    method Expand(newSize: int, junk: int -> int, ghost nb: int) returns (ok: bool)
      requires Bounds(h) && h.start == startAddr && h.end == endAddr && h.max == maxAddr
      requires 0 < nb < TWO32 && newSize == Wrap(endAddr - startAddr + nb) && ExpandFits(h, nb)
      modifies this`endAddr, ram
      ensures ok <==> ExpandedEnd(h, nb).Some?
      ensures !ok ==> endAddr == old(endAddr) && ram.w == old(ram.w)
      ensures ok ==> endAddr == ExpandedEnd(h, nb).value && ram.w == MapPages(old(ram.w), old(endAddr), endAddr, junk)
    {
      hide MapPages, RoundUp, Wrap, ExpandFits, Bounds;
      ExpandPages(h, nb, newSize);
      if newSize <= endAddr - startAddr {
        return false;
      }
      var rounded := newSize;
      if newSize % PAGE_SIZE != 0 {
        rounded := Wrap(newSize - newSize % PAGE_SIZE + PAGE_SIZE);
      }
      if Wrap(startAddr + rounded) > maxAddr {
        return false;
      }
      var oldSize := endAddr - startAddr;
      var i := oldSize;
      MapNone(ram.w, endAddr, junk);
      while i < rounded
        invariant oldSize <= i <= rounded && PagesLeft(i, rounded)
        invariant endAddr == old(endAddr) && ram.w == MapPages(old(ram.w), old(endAddr), startAddr + i, junk)
      {
        NextPage(i, rounded);
        MapMore(old(ram.w), old(endAddr), startAddr + i, startAddr + i + PAGE_SIZE, junk);
        ram.w := MapPages(ram.w, startAddr + i, startAddr + i + PAGE_SIZE, junk);
        i := i + PAGE_SIZE;
      }
      endAddr := Wrap(startAddr + rounded);
      return true;
    }

    /** alloc, lines 190-197: the highest list_head on the list, 0 if there is none. */
    method HighestEntry(ghost f: seq<int>) returns (top: int)
      requires Ring(ram.w, head, f) && forall l :: l in f ==> l > 0
      ensures f == [] ==> top == 0
      ensures f != [] ==> top in f && forall l :: l in f ==> l <= top
    {
      top := 0;
      var empty := ram.ListEmpty(head, f);
      if !empty {
        ghost var i := 0;
        RingLinks(ram.w, head, f, 0);
        RingAt(ram.w, head, f, 0);
        var iter := ram.w[head];
        while iter != head
          invariant 0 <= i <= |f| && iter == At(head, f, i)
          invariant i == 0 ==> top == 0
          invariant i > 0 ==> top in f && forall j :: 0 <= j < i ==> f[j] <= top
          decreases |f| - i
        {
          RingAt(ram.w, head, f, i);
          if iter > top {
            top := iter;
          }
          iter := ram.w[iter];
          i := i + 1;
        }
        RingAt(ram.w, head, f, i);
      }
    }

    /** alloc, lines 190-219: the free chunk that ended at the old end, off the list, or else the old end itself. */
    method ClaimTop(oldEnd: int, ghost m0: Mem, ghost h0: Heap, junk: int -> int) returns (topChunk: int, csize: int)
      requires Ready(m0, head, h0) && NewEnd(h0, endAddr) && oldEnd == h0.end && ram.w == MapPages(m0, h0.end, endAddr, junk)
      modifies ram
      ensures Shaped(h0, {}) && h0.end + MIN_CHUNK_SIZE <= endAddr
      ensures topChunk == Topped(h0, endAddr).1 && csize == endAddr - topChunk
      ensures OffList(old(ram.w), ram.w, head, h0.free) && Ring(ram.w, head, Topped(h0, endAddr).0.free)
    {
      hide Inv, Rep, Shaped, Ring, Tagged, OffList, With, RemoveAt, NewEnd, MapPages, Topped, ChunkSize, CInUse, PInUse, IndexOf, Ready, SizesRead;
      ghost var m1 := ram.w;
      NewEndIs(h0, endAddr);
      GrownList(m0, head, h0, endAddr, junk);
      EntriesPositive(m0, head, h0);
      var top := HighestEntry(h0.free);
      GrowChoice(m0, head, h0, endAddr, junk, top);
      NothingRemoved(m1, head, h0.free);
      topChunk, csize := 0, 0;
      if top != 0 {
        topChunk := Entry(top);
        var oldCsize := ChunkSize(ram.w[topChunk + 4]);
        // A chunk on the list is never marked in use, so the PANIC of lines 204-205 is not reached.
        assert !(!PInUse(ram.w[topChunk + 4]) && CInUse(ram.w[topChunk + 4]));
        if topChunk + oldCsize != oldEnd {
          topChunk := 0;
        } else {
          RemoveChunk(topChunk, h0.free, IndexOf(h0.free, top));
          csize := endAddr - topChunk;
        }
      }
      if topChunk == 0 {
        topChunk := oldEnd;
        csize := endAddr - oldEnd;
      }
    }

    /** alloc, lines 184-222: the heap grows and the new room goes on the list; false is a failed ASSERT in expand. */
    method GrowHeap(nb: int, junk: int -> int) returns (ok: bool)
      requires Valid() && MIN_CHUNK_SIZE <= nb < TWO32 && ExpandFits(h, nb)
      modifies this, ram
      ensures Valid() && startAddr == old(startAddr) && maxAddr == old(maxAddr)
      ensures ok <==> ExpandedEnd(old(h), nb).Some?
      ensures !ok ==> h == old(h)
      ensures ok ==> Shaped(old(h), {}) && NewEnd(old(h), endAddr) && endAddr == ExpandedEnd(old(h), nb).value && h == Grow(old(h), endAddr).0
      ensures Keeps(old(ram.w), ram.w, Users(old(h))) && old(ram.w).Keys <= ram.w.Keys
    {
      hide Inv, Rep, Shaped, Ring, Tagged, OffList, SizesRead, Outside, With, ExpandedEnd, ExpandFits, NewEnd, MapPages, Grow, Topped, Wrap,
           Puttable, ChunkSize, Bounds, Mapped, Pages, Keeps, Users, Ready;
      ghost var h0, m0 := h, ram.w;
      IsReady(m0, head, h0);
      var oldEnd := endAddr;
      ok := Expand(Wrap(endAddr - startAddr + nb), junk, nb);
      if !ok {
        KeepsSame(m0, Users(h0));
        return;
      }
      ghost var e := endAddr;
      ReadyIs(m0, head, h0);
      ExpandNew(h0, nb);
      var topChunk, csize := ClaimTop(oldEnd, m0, h0, junk);
      ghost var ((h1, b), m2) := (Topped(h0, e), ram.w);
      GrowPut(m0, m2, head, h0, e, junk, h1, b);
      ram.Store(topChunk + 4, csize + 1);
      ghost var m3 := ram.w;
      PutReady(m3, head, h1, b);
      InsertChunk(topChunk, h1.chunks, h1.free);
      PutDone(m3, ram.w, head, h1, b);
      GrowKeeps(m0, m2, ram.w, head, h0, e, junk, h1, b);
      ToppedIs(h0, e);
      h := Grow(h0, e).0;
      GrowDone(ram.w, head, h0, e);
      GrowReady(ram.w, head, h);
    }

    /** alloc: the payload address; None is a failed ASSERT in expand, which leaves the heap as it was. */
    method Alloc(size: int, junk: int -> int) returns (r: Option<int>)
      requires Valid() && 0 <= size <= TWO32 - 12 && Servable(h, Request2Size(size))
      modifies this, ram
      ensures Valid() && startAddr == old(startAddr) && maxAddr == old(maxAddr)
      ensures var nb := Request2Size(size);
              && MIN_CHUNK_SIZE <= nb < TWO32
              && (if r.None? then AllocChunk(old(h), nb).None? && h == old(h) else AllocChunk(old(h), nb) == Some((h, r.value)))
      ensures Keeps(old(ram.w), ram.w, Users(old(h))) && old(ram.w).Keys <= ram.w.Keys
      decreases if Position(h.chunks, h.free, Request2Size(size)) < |h.free| then 0 else 1
    {
      hide Inv, Rep, Shaped, Ring, SizesRead, Request2Size, Carve, Grow, ExpandedEnd, ExpandFits, NewEnd, Position, Keeps, Users;
      var nb := Request2Size(size);
      RequestFits(size);
      ghost var h0 := h;
      IsReady(ram.w, head, h0);
      ReadyList(ram.w, head, h0);
      EntriesPositive(ram.w, head, h0);
      ghost var k := Position(h0.chunks, h0.free, nb);
      PositionFits(h0.chunks, h0.free, nb);
      var l := FindSmallestChunk(nb, h0.chunks, h0.free);
      if l == 0 {
        var ok := GrowHeap(nb, junk);
        if !ok {
          return None;
        }
        GrowServable(h0, endAddr, nb);
        NewEndIs(h0, endAddr);
        GrowShape(h0, endAddr);
        ghost var m0, m1 := old(ram.w), ram.w;
        r := Alloc(size, junk);
        KeepsTrans(m0, m1, ram.w, Users(h0));
      } else {
        TakeChunk(l, nb, k);
        r := Some(l);
      }
    }

    /** contract: page by page; not `ok` is a failed ASSERT. */
    method Contract(newSize: int) returns (ok: bool, n: int)
      requires Bounds(h) && h.start == startAddr && h.end == endAddr && 0 <= newSize
      modifies this`endAddr, ram
      ensures ok <==> newSize < old(endAddr) - startAddr
      ensures !ok ==> endAddr == old(endAddr) && ram.w == old(ram.w)
      ensures ok ==> n == (if RoundUp(newSize) < HEAP_MIN_SIZE then HEAP_MIN_SIZE else RoundUp(newSize))
      ensures ok ==> endAddr == startAddr + n && ram.w == UnmapPages(old(ram.w), endAddr, old(endAddr))
    {
      if newSize >= endAddr - startAddr {
        return false, 0;
      }
      ContractPages(h, newSize);
      hide UnmapPages, RoundUp, Bounds, PagesLeft;
      n := newSize;
      if newSize % PAGE_SIZE != 0 {
        n := newSize - newSize % PAGE_SIZE + PAGE_SIZE;
      }
      if n < HEAP_MIN_SIZE {
        n := HEAP_MIN_SIZE;
      }
      var oldSize := endAddr - startAddr;
      var i := oldSize - PAGE_SIZE;
      UnmapNone(ram.w, endAddr);
      while i >= n
        invariant n <= i + PAGE_SIZE <= oldSize && PagesLeft(n, i + PAGE_SIZE)
        invariant endAddr == old(endAddr) && ram.w == UnmapPages(old(ram.w), startAddr + i + PAGE_SIZE, old(endAddr))
      {
        PreviousPage(n, i + PAGE_SIZE);
        UnmapMore(old(ram.w), startAddr + i, startAddr + i + PAGE_SIZE, old(endAddr));
        ram.w := UnmapPages(ram.w, startAddr + i, startAddr + i + PAGE_SIZE);
        i := i - PAGE_SIZE;
      }
      PagesMeet(n, i + PAGE_SIZE);
      endAddr := startAddr + n;
      ok := true;
    }

    /** free, lines 263-274: chunk `block` and its size after the merge with the chunk below. */
    method MergeDown(a: int) returns (block: int, size: int)
      requires Valid() && InUse(h, a)
      modifies ram
      ensures Shaped(h, {}) && AllFree(h.chunks, h.free) && OffList(old(ram.w), ram.w, head, h.free)
      ensures var (h1, b) := Lowered(h, a);
              block == b && b in h1.chunks && size == h1.chunks[b].size && Ring(ram.w, head, h1.free)
      ensures Keeps(old(ram.w), ram.w, Users(h) - {a}) && ram.w.Keys == old(ram.w).Keys
    {
      hide Inv, Rep, Shaped, Ring, Tagged, OffList, RemoveAt, IndexOf, ChunkSize, PInUse, CInUse, Lowered, Ready, LowUsed, Keeps, Users, Within;
      IsReady(ram.w, head, h);
      DownChoice(ram.w, head, h, a);
      ShapedParts(h, {});
      NothingRemoved(ram.w, head, h.free);
      size := ChunkSize(ram.w[a + 4]);
      block := a;
      if !PInUse(ram.w[a + 4]) {
        var prevsize := ram.w[a];
        block := a - prevsize;
        // ok_address(prev) holds, the PANIC of line 268 is not reached
        assert startAddr <= block < endAddr;
        size := size + prevsize;
        RemoveChunk(block, h.free, IndexOf(h.free, Node(block)));
      }
      WithinLess(h, a, Users(h) - {a});
      RemoveKeeps(old(ram.w), ram.w, head, h, Users(h) - {a});
    }

    /**
     free, lines 276-293. Repair of line 277: as written the test is negated; its body treats `next`
     as a chunk of the heap, so it has to be a chunk of the heap.
     */
    method MergeUp(block: int, size0: int, ghost a: int) returns (size: int)
      requires Half(ram.w, head, h, a) && h.start == startAddr && h.end == endAddr && Shaped(h, {}) && InUse(h, a)
      requires var (h1, b) := Lowered(h, a); block == b && b in h1.chunks && size0 == h1.chunks[b].size
      modifies ram
      ensures var (h2, b) := Raised(h, a);
              Given(h, a, h2, b) && block == b && MidRep(ram.w, head, h, h2, b) && size == h2.chunks[b].size
      ensures Keeps(old(ram.w), ram.w, Users(h) - {a}) && ram.w.Keys == old(ram.w).Keys
    {
      hide Inv, Shaped, Ring, Tagged, OffList, RemoveAt, IndexOf, ChunkSize, PInUse, CInUse, Lowered, Raised, Half, MidRep, ClearPInUse, Given, Keeps, Users;
      ghost var m1 := ram.w;
      HalfIs(m1, head, h, a);
      HalfChoice(m1, head, h, a);
      ghost var (h1, b) := Lowered(h, a);
      GivenSame(h, a, b);
      size := size0;
      var next := block + size0;
      if startAddr <= next && next < endAddr {
        // PINUSE_BIT of next is set, the PANIC of line 279 is not reached
        assert PInUse(ram.w[next + 4]);
        if CInUse(ram.w[next + 4]) {
          HalfIs(m1, head, h, a);
          MidCleared(m1, head, h, a);
          ClearKeeps(m1, h, a, next);
          ram.Store(next + 4, ClearPInUse(ram.w[next + 4]));
        } else {
          var nextsize := ChunkSize(ram.w[next + 4]);
          // next ends inside the heap, the PANIC of line 287 is not reached
          assert next + nextsize <= endAddr;
          RemoveChunk(next, h1.free, IndexOf(h1.free, Node(next)));
          HalfIs(m1, head, h, a);
          MidAbsorbed(m1, ram.w, head, h, a);
          LoweredKeeps(m1, ram.w, head, h, a);
          size := size + nextsize;
        }
      } else {
        MidSame(m1, head, h, a);
        KeepsSame(m1, Users(h) - {a});
      }
    }

    /**
     free. A pointer outside the heap is the PANIC of line 254; one inside must be a live payload.
     Not `ok` is a PANIC or the failed ASSERT of contract.
     */
    method Free(ptr: int) returns (ok: bool)
      requires Valid() && (ptr != 0 && startAddr <= ptr < endAddr ==> InUse(h, Entry(ptr)))
      modifies this, ram
      ensures startAddr == old(startAddr) && maxAddr == old(maxAddr)
      ensures ptr == 0 || !(old(startAddr) <= ptr < old(endAddr)) ==> Valid() && h == old(h) && ok == (ptr == 0)
      ensures ptr != 0 && old(startAddr) <= ptr < old(endAddr) ==>
                Shaped(old(h), {}) && if ok then Valid() && Release(old(h), Entry(ptr)) == Some(h) else Release(old(h), Entry(ptr)) == None
      ensures Keeps(old(ram.w), ram.w, Users(old(h)) - {Entry(ptr)}) && ram.w.Keys <= old(ram.w).Keys
    {
      hide Inv, Rep, Shaped, Ring, Tagged, OffList, RemoveAt, IndexOf, ChunkSize, PInUse, CInUse, Lowered, Raised, Half, MidRep, Given, Release,
           Puttable, SizesRead, With, Outside, TrimmedEnd, TrimHalts, CutTop, UnmapPages, Bounds, RoundUp, Drop, Keeps, Users;
      KeepsSame(ram.w, Users(h) - {Entry(ptr)});
      if ptr == 0 {
        return true;
      }
      if !(startAddr <= ptr < endAddr) {
        return false;
      }
      var a := Entry(ptr);
      ghost var h0, m0 := h, ram.w;
      IsReady(m0, head, h0);
      DownChoice(m0, head, h0, a);
      // the chunk is in use, the PANIC of line 259 is not reached
      assert CInUse(ram.w[a + 4]);
      var block, size := MergeDown(a);
      ghost var m1 := ram.w;
      HalfDone(m0, ram.w, head, h0, a);
      size := MergeUp(block, size, a);
      ghost var m2 := ram.w;
      KeepsTrans(m0, m1, m2, Users(h0) - {a});
      ghost var (h2, b) := Raised(h0, a);
      GivenEnd(h0, a, h2, b);
      ok := true;
      if block + size == endAddr {
        ok := GiveTop(block, size, a, h2);
      } else {
        FreePut(ram.w, head, h0, a, h2, b);
        ram.Store(block + size, size);
        ram.Store(block + 4, size + 1);
        PutReady(ram.w, head, h2, b);
        ghost var m3 := ram.w;
        InsertChunk(block, h2.chunks, h2.free);
        PutDone(m3, ram.w, head, h2, b);
        FreePutKeeps(m2, m3, ram.w, head, h0, a, h2, b, block + size);
        h := h2.(free := With(h2.chunks, h2.free, b));
        SettledPut(h0, a, h2, b);
        ReleaseInv(h0, a);
      }
      KeepsTrans(m0, m2, ram.w, Users(h0) - {a});
    }

    /** free, lines 295-316, for a chunk at the top: the heap shrinks. */
    method GiveTop(block: int, size0: int, ghost a: int, ghost h2: Heap) returns (ok: bool)
      requires h.start == startAddr && h.end == endAddr && h.max == maxAddr
      requires Given(h, a, h2, block) && MidRep(ram.w, head, h, h2, block)
      requires block in h2.chunks && size0 == h2.chunks[block].size && block + size0 == endAddr
      modifies this, ram
      ensures startAddr == old(startAddr) && maxAddr == old(maxAddr)
      ensures Shaped(old(h), {}) && InUse(old(h), a)
      ensures if ok then Valid() && Release(old(h), a) == Some(h) else Release(old(h), a) == None
      ensures Keeps(old(ram.w), ram.w, Users(old(h)) - {a}) && ram.w.Keys <= old(ram.w).Keys
    {
      hide Inv, Rep, Shaped, Ring, Tagged, MidRep, Given, Release, Puttable, SizesRead, With, Outside, TrimmedEnd, TrimHalts, CutTop, UnmapPages,
           Bounds, RoundUp, Drop, OffList, Keeps, Users;
      ghost var h0 := h;
      GivenInv(h0, a, h2, block);
      GivenShaped(h0, a, h2, block);
      GivenEnd(h0, a, h2, block);
      BoundsOf(h0);
      TopFacts(h0, a, h2, block);
      SettledTop(h0, a, h2, block);
      ReleaseInv(h0, a);
      var oldSize := endAddr - startAddr;
      var newSize := block - startAddr;
      if newSize % PAGE_SIZE != 0 {
        newSize := newSize + MIN_CHUNK_SIZE;
      }
      TrimCode(h0.start, h0.end, block, newSize);
      ghost var m2 := ram.w;
      ok, newSize := Contract(newSize);
      UnmappedKeeps(m2, endAddr, h0.end, Users(h0) - {a});
      if !ok {
        KeepsSame(m2, Users(h0) - {a});
        return false;
      }
      var size := size0;
      if size > oldSize - newSize {
        size := size - (oldSize - newSize);
        TopPut(m2, head, h0, a, h2, block, endAddr);
        ram.Store(block + 4, size + 1);
        ghost var h3, m3 := CutTop(h2, block, endAddr), ram.w;
        PutReady(m3, head, h3, block);
        InsertChunk(block, h3.chunks, h3.free);
        PutDone(m3, ram.w, head, h3, block);
        TopPutKeeps(m2, m3, ram.w, head, h0, a, h2, block, endAddr, h3);
        CutTopFree(h2, block, endAddr);
        h := h3.(free := With(h3.chunks, h3.free, block));
      } else {
        TopGone(m2, head, h0, a, h2, block);
        h := h2.(end := block, chunks := Drop(h2.chunks, h0.end, block));
      }
    }

    /** Lines 334-335: eight bytes below the next page boundary that leaves room for a chunk. */
    method AlignedChunk(mem: int) returns (pos: int)
      requires mem % PAGE_SIZE != 0
      ensures pos == Entry(mem) + LeadSize(mem)
    {
      PayloadPage(mem);
      var br := mem - mem % PAGE_SIZE + PAGE_SIZE - 8;
      pos := if br - Entry(mem) >= MIN_CHUNK_SIZE then br else br + PAGE_SIZE;
    }

    /**
     palignedAlloc, lines 333-349: the payload moves up to a page boundary. Repair of line 341: the
     PINUSE_BIT of the new chunk, so far a payload bit, is cleared before set_inuse keeps it.
     */
    method CutFront(mem: int, ghost nb: int) returns (moved: int)
      requires Valid() && InUse(h, Entry(mem)) && LowUsed(h.chunks, h.start, Entry(mem))
      requires MIN_CHUNK_SIZE <= nb && nb + PAGE_SIZE + MIN_CHUNK_SIZE <= h.chunks[Entry(mem)].size
      modifies this, ram
      ensures Valid() && startAddr == old(startAddr) && maxAddr == old(maxAddr)
      ensures Entry(mem) + old(h).chunks[Entry(mem)].size in old(h).chunks
      ensures (h, moved) == Front(old(h), mem)
      ensures Keeps(old(ram.w), ram.w, Users(old(h)) - {Entry(mem)}) && ram.w.Keys == old(ram.w).Keys
    {
      hide Inv, Rep, Shaped, Ring, Tagged, OffList, SizesRead, Outside, With, CutLead, LeadHeap, LeadSize, Puttable, Ready, Leadable, ChunkSize, PInUse,
           LeadWords, UseWords, ClearPInUse, LowUsed, Users, Keeps;
      ghost var h0, m0 := h, ram.w;
      FrontInv(h0, mem, nb);
      if mem % PAGE_SIZE == 0 {
        KeepsSame(m0, Users(h0) - {Entry(mem)});
        return mem;
      }
      var chunk := Entry(mem);
      IsReady(m0, head, h0);
      ReadyLeadable(m0, head, h0, mem, nb);
      ghost var lead := LeadSize(mem);
      LeadRead(m0, head, h0, chunk, lead);
      LeadBounds(m0, head, h0, chunk, lead);
      var newChunk := AlignedChunk(mem);
      var leadsize := newChunk - chunk;
      var newSize := ChunkSize(ram.w[chunk + 4]) - leadsize;
      ClearedLow(ram.w[newChunk + 4]);
      LeadWordsAre(m0, h0.chunks, endAddr, chunk, lead, ClearPInUse(ram.w[newChunk + 4]));
      ram.Store(newChunk + 4, ClearPInUse(ram.w[newChunk + 4]));
      SetInUse(newChunk, newSize);
      UseWordsKeys(m0[newChunk + 4 := ClearPInUse(m0[newChunk + 4])], newChunk, newSize, endAddr);
      ram.Store(chunk + 4, leadsize + 1);
      ram.Store(newChunk, leadsize);
      ghost var h1, m1 := LeadHeap(h0, chunk, lead), ram.w;
      LeadPut(m0, head, h0, chunk, lead);
      PutReady(m1, head, h1, chunk);
      InsertChunk(chunk, h1.chunks, h1.free);
      PutDone(m1, ram.w, head, h1, chunk);
      LeadKeeps(m0, m1, ram.w, head, h0, chunk, lead);
      LeadIsCut(h0, chunk, lead);
      h := CutLead(h0, chunk, lead);
      moved := Node(newChunk);
    }

    /** palignedAlloc, lines 351-358: what the chunk has beyond nb bytes is given back. */
    method CutBack(chunk: int, nb: int)
      requires Valid() && InUse(h, chunk) && MIN_CHUNK_SIZE <= nb <= h.chunks[chunk].size && nb % 8 == 0
      modifies this, ram
      ensures Valid() && startAddr == old(startAddr) && maxAddr == old(maxAddr)
      ensures Cuttable(old(h), chunk, nb) && CutTail(old(h), chunk, nb) == Some(h)
      ensures Keeps(old(ram.w), ram.w, Users(old(h)) - {chunk}) && ram.w.Keys <= old(ram.w).Keys
    {
      hide Inv, Rep, Shaped, Ring, Tagged, ChunkSize, PInUse, UseWords, CutWords, LowUsed, Users, Split, Release, Ready, Keeps;
      ghost var h0, m0 := h, ram.w;
      CutTailInv(h0, chunk, nb);
      IsReady(m0, head, h0);
      ReadyChunk(m0, head, h0, chunk);
      var csize := ChunkSize(ram.w[chunk + 4]);
      KeepsSame(m0, Users(h0) - {chunk});
      if csize > nb + MIN_CHUNK_SIZE {
        var remainderSize := csize - nb;
        var remainder := chunk + nb;
        CutRep(m0, head, h0, chunk, nb);
        CutWordsAre(m0, h0.chunks, h0.start, endAddr, chunk, nb);
        CutTailSplit(h0, chunk, nb);
        UseWordsKeys(m0, chunk, nb, endAddr);
        SetInUse(chunk, nb);
        SetInUse(remainder, remainderSize);
        CutKeeps(m0, head, h0, chunk, nb);
        ghost var m1 := ram.w;
        h := h0.(chunks := Split(h0.chunks, chunk, nb));
        CutInside(h, remainder);
        ghost var h1 := h;
        var ok := Free(Node(remainder));
        assert ok;
        UsersHas(h0, chunk);
        CutUsers(Users(h0), Users(h1), chunk, remainder);
        KeepsFewer(m1, ram.w, Users(h1) - {remainder}, Users(h0) - {chunk});
        KeepsTrans(m0, m1, ram.w, Users(h0) - {chunk});
      }
    }

    /**
     palignedAlloc: a page-aligned payload. The three closing ASSERTs hold: the chunk is big enough,
     the payload is page-aligned, the chunk is in use. None is a failed ASSERT in expand.
     */
    method PAlignedAlloc(size: int, junk: int -> int) returns (r: Option<int>)
      requires Valid() && 0 <= size <= TWO32 - 12 && Request2Size(size) <= TWO32 - PAGE_SIZE - 24
      requires Servable(h, PaddedSize(Request2Size(size)))
      modifies this, ram
      ensures Valid() && startAddr == old(startAddr) && maxAddr == old(maxAddr)
      ensures var nb := Request2Size(size);
              && MIN_CHUNK_SIZE <= nb && nb % 8 == 0 && nb >= size + CHUNK_OVERHEAD
              && (if r.None? then PAllocChunk(old(h), nb).None? && h == old(h)
                  else PAllocChunk(old(h), nb) == Some((h, r.value)) && r.value % PAGE_SIZE == 0
                       && InUse(h, Entry(r.value)) && h.chunks[Entry(r.value)].size >= nb)
      ensures Keeps(old(ram.w), ram.w, Users(old(h)))
    {
      hide Inv, Rep, Shaped, Ring, Request2Size, Users, AllocChunk, Front, CutTail, LowUsed, Servable, Keeps;
      var nb := Request2Size(size);
      RequestFits(size);
      ghost var h0 := h;
      PaddingEnough(nb);
      PaddedRequest(nb);
      AllocInv(h0, PaddedSize(nb));
      PAllocInv(h0, nb);
      r := Alloc(nb + PAGE_SIZE + MIN_CHUNK_SIZE - CHUNK_OVERHEAD, junk);
      if r.Some? {
        var mem := r.value;
        ghost var h1 := h;
        ghost var m0, m1 := old(ram.w), ram.w;
        FrontInv(h1, mem, nb);
        mem := CutFront(mem, nb);
        ghost var h2, m2 := h, ram.w;
        CutTailInv(h, Entry(mem), nb);
        CutBack(Entry(mem), nb);
        UsersMore(Users(h0), Users(h1), r.value, Users(h2), mem);
        KeepsFewer(m1, m2, Users(h1) - {Entry(r.value)}, Users(h0));
        KeepsFewer(m2, ram.w, Users(h2) - {Entry(mem)}, Users(h0));
        KeepsTrans(m0, m1, m2, Users(h0));
        KeepsTrans(m0, m2, ram.w, Users(h0));
        r := Some(mem);
      }
    }
  }

  /** The users that are there before palignedAlloc are there at every step of it. */
  lemma UsersMore(u: map<int, int>, u1: map<int, int>, p: int, u2: map<int, int>, q: int)
    requires Entry(p) !in u && u1 == u[Entry(p) := if Entry(p) in u1 then u1[Entry(p)] else 0]
    requires u2 == (u1 - {Entry(p)})[Entry(q) := if Entry(q) in u2 then u2[Entry(q)] else 0] && (q == p || Entry(q) !in u1)
    ensures forall a :: a in u ==> a in u1 - {Entry(p)} && (u1 - {Entry(p)})[a] == u[a]
    ensures forall a :: a in u ==> a in u2 - {Entry(q)} && (u2 - {Entry(q)})[a] == u[a]
  {
  }

  lemma CutUsers(u: map<int, int>, u1: map<int, int>, a: int, b: int)
    requires a in u && a in u1 && b !in u && u1 == u[a := u1[a]][b := if b in u1 then u1[b] else 0]
    ensures forall x :: x in u - {a} ==> x in u1 - {b} && (u1 - {b})[x] == (u - {a})[x]
  {
  }

  /** Which list the cut heap has. */
  lemma CutList(h: Heap, a: int, nb: int)
    requires a in h.chunks && a + h.chunks[a].size in h.chunks
    ensures Cut(h, a, nb).free == With(CutChunks(h.chunks, a, nb), h.free, a + nb)
    ensures Cut(h, a, nb).start == h.start && Cut(h, a, nb).end == h.end && Cut(h, a, nb).max == h.max
  {
  }

  lemma GrowReady(m: Mem, head: int, h: Heap)
    requires Ready(m, head, h)
    ensures Inv(h) && Rep(m, head, h, {})
  {
  }

  lemma PositionFits(c: Chunks, f: seq<int>, nb: int)
    ensures var k := Position(c, f, nb); 0 <= k <= |f| && (k < |f| ==> f[k] in f && SizeAt(c, f[k]) >= nb)
  {
  }

  lemma GrowServable(h: Heap, e: int, nb: int)
    requires Inv(h) && MIN_CHUNK_SIZE <= nb < TWO32 && ExpandFits(h, nb) && Servable(h, nb)
    requires ExpandedEnd(h, nb) == Some(e) && NewEnd(h, e) && Shaped(h, {})
    ensures var g := Grow(h, e).0; Servable(g, nb) && Position(g.chunks, g.free, nb) < |g.free|
    ensures Position(h.chunks, h.free, nb) == |h.free| ==> Inv(Grow(h, e).0) && AllocChunk(h, nb) == AllocChunk(Grow(h, e).0, nb)
  {
    hide Shaped, Grow, Carve;
    ExpandExact(h, nb);
    GrowInv(h, e);
    GrownServes(h, e, nb);
  }

  lemma IsReady(m: Mem, head: int, h: Heap)
    requires Inv(h) && Rep(m, head, h, {})
    ensures Ready(m, head, h) && Bounds(h) && Shaped(h, {})
  {
  }

  lemma GivenSame(h: Heap, a: int, b: int)
    requires Shaped(h, {}) && InUse(h, a) && Given(h, a, Raised(h, a).0, b)
    ensures Raised(h, a).1 == b
  {
  }

  lemma HalfIs(m: Mem, head: int, h: Heap, a: int)
    requires Half(m, head, h, a)
    ensures Inv(h) && InUse(h, a) && HeadAside(head, h) && Tagged(m, h.chunks, h.start, h.end, {}) && Pages(m, head, h.start, h.end)
    ensures Ring(m, head, Lowered(h, a).0.free)
  {
  }

  lemma CutTopFree(h2: Heap, b: int, e: int)
    requires b in h2.chunks && b + h2.chunks[b].size in h2.chunks
    ensures CutTop(h2, b, e).free == h2.free && CutTop(h2, b, e).start == h2.start && CutTop(h2, b, e).end == e && CutTop(h2, b, e).max == h2.max
  {
  }

  lemma LeadBounds(m: Mem, head: int, h: Heap, a: int, lead: int)
    requires Leadable(m, head, h, a, lead)
    ensures MIN_CHUNK_SIZE <= lead <= h.chunks[a].size - MIN_CHUNK_SIZE
  {
  }

  lemma UseWordsKeys(m: Mem, p: int, s: int, end: int)
    requires p + 4 in m && (p + s != end ==> p + s + 4 in m)
    ensures UseWords(m, p, s, end).Keys == m.Keys
  {
  }

  lemma CutInside(h: Heap, a: int)
    requires Inv(h) && InUse(h, a)
    ensures Node(a) != 0 && h.start <= Node(a) < h.end && Entry(Node(a)) == a
  {
    InvMax(h);
    Around(h, {}, a);
  }

  lemma PaddedRequest(nb: int)
    requires MIN_CHUNK_SIZE <= nb <= TWO32 - PAGE_SIZE - 24
    ensures Request2Size(nb + PAGE_SIZE + MIN_CHUNK_SIZE - CHUNK_OVERHEAD) == PaddedSize(nb)
  {
    hide Request2Size;
    WrapIs(nb + PAGE_SIZE + MIN_CHUNK_SIZE - CHUNK_OVERHEAD);
  }

  lemma PreviousPage(i: int, j: int)
    requires PagesLeft(i, j) && i < j
    ensures i <= j - PAGE_SIZE && PagesLeft(i, j - PAGE_SIZE)
  {
  }

  lemma PagesMeet(i: int, j: int)
    requires PagesLeft(i, j) && i <= j < i + PAGE_SIZE
    ensures i == j
  {
  }

  lemma UnmapNone(m: Mem, hi: int)
    ensures UnmapPages(m, hi, hi) == m
  {
  }

  lemma ContractPages(h: Heap, newSize: int)
    requires Bounds(h) && 0 <= newSize < h.end - h.start
    ensures var r := RoundUp(newSize);
            var n := if r < HEAP_MIN_SIZE then HEAP_MIN_SIZE else r;
            n <= h.end - h.start && PagesLeft(n, h.end - h.start)
    ensures RoundUp(newSize) == if newSize % PAGE_SIZE != 0 then newSize - newSize % PAGE_SIZE + PAGE_SIZE else newSize
  {
    OnPages(h.start, h.end);
    RoundUpLeast(newSize, h.end - h.start);
    PagesApart(RoundUp(newSize), h.end - h.start);
    PagesApart(HEAP_MIN_SIZE, h.end - h.start);
  }

  /** i and j are a whole number of pages apart. */
  predicate PagesLeft(i: int, j: int) {
    (j - i) % PAGE_SIZE == 0
  }

  lemma NextPage(i: int, j: int)
    requires PagesLeft(i, j) && i < j
    ensures i + PAGE_SIZE <= j && PagesLeft(i + PAGE_SIZE, j)
  {
  }

  lemma MapNone(m: Mem, lo: int, junk: int -> int)
    ensures MapPages(m, lo, lo, junk) == m
  {
  }

  lemma ExpandPages(h: Heap, nb: int, newSize: int)
    requires Bounds(h) && 0 < nb < TWO32 && newSize == Wrap(h.end - h.start + nb) && ExpandFits(h, nb)
    ensures var r := if newSize % PAGE_SIZE != 0 then Wrap(newSize - newSize % PAGE_SIZE + PAGE_SIZE) else newSize;
            && newSize == h.end - h.start + nb && r == Wrap(RoundUp(newSize)) && r == RoundUp(newSize)
            && PagesLeft(h.end - h.start, r) && h.end - h.start <= r && Wrap(h.start + r) == h.start + r
  {
    hide Wrap;
    var sum := h.end - h.start + nb;
    WrapIs(sum);
    WrapIs(RoundUp(sum));
    WrapIs(h.start + RoundUp(sum));
    OnPages(h.start, h.end);
    PagesApart(h.end - h.start, RoundUp(sum));
  }

  lemma PagesApart(x: int, y: int)
    requires x % PAGE_SIZE == 0 && y % PAGE_SIZE == 0
    ensures PagesLeft(x, y)
  {
  }
}
