/** How the shape of the heap moves through the small steps that alloc and free are made of. */
module HeapSteps {
  import opened LinkedLists
  import opened HeapModel

  lemma TakeOff(h: Heap, loose: set<int>, i: int)
    requires Shaped(h, loose) && 0 <= i < |h.free|
    ensures Shaped(h.(free := RemoveAt(h.free, i)), loose + {Entry(h.free[i])})
  {
    RemoveSound(h.chunks, h.free, i);
    var f := RemoveAt(h.free, i);
    forall x | x in f ensures x in h.free {}
    assert Listed(h.chunks, f, loose + {Entry(h.free[i])});
  }

  /** Chunk a goes on the list; neither neighbour may be free. */
  lemma PutOn(h: Heap, loose: set<int>, a: int)
    requires Shaped(h, loose) && a in loose
    requires Merged(h.chunks, h.start, a) && Merged(h.chunks, h.start, a + h.chunks[a].size)
    ensures Shaped(h.(free := With(h.chunks, h.free, a)), loose - {a})
  {
    var f := With(h.chunks, h.free, a);
    WithSound(h.chunks, h.free, a);
    assert Listed(h.chunks, f, loose - {a});
    PutCoalesced(h.chunks, h.start, h.end, loose, a);
  }

  lemma PutCoalesced(c: Chunks, start: int, end: int, loose: set<int>, a: int)
    requires Tiled(c, start, end) && Coalesced(c, start, loose) && a in c
    requires Merged(c, start, a) && Merged(c, start, a + c[a].size)
    ensures Coalesced(c, start, loose - {a})
  {
    forall b | b in c && b !in loose - {a} && c[b].prev !in loose - {a} ensures Merged(c, start, b) {
      assert Good(c, start, end, b);
      if b != start && c[b].prev == a {
        assert b == a + c[a].size;
      }
    }
  }

  /** What a step on the chunks must leave alone for the list to stay sound. */
  lemma ListKept(c: Chunks, c': Chunks, free: seq<int>, loose: set<int>, loose': set<int>)
    requires Listed(c, free, loose)
    requires forall a :: IsFree(c, a) && a !in loose ==> IsFree(c', a) && c'[a].size == c[a].size
    requires forall a :: a in loose' ==> IsFree(c', a) && (a in loose || !IsFree(c, a))
    requires forall a :: IsFree(c', a) && a !in loose' ==> IsFree(c, a) && a !in loose
    ensures Listed(c', free, loose')
  {
    forall i | 0 <= i < |free|
      ensures Entry(free[i]) in c' && c'[Entry(free[i])].size == c[Entry(free[i])].size && !c'[Entry(free[i])].used
    {
      assert IsFree(c, Entry(free[i])) && free[i] == Node(Entry(free[i]));
    }
    SoundFrame(c, c', free);
    forall a | a in loose' ensures Node(a) !in free {
      assert Node(a) in free ==> IsFree(c, Entry(Node(a)));
    }
  }

  lemma SplitCoalesced(c: Chunks, start: int, end: int, loose: set<int>, a: int, k: int)
    requires Tiled(c, start, end) && Coalesced(c, start, loose) && a in c && a != end && (a in loose || c[a].used)
    requires Good(c, start, end, a) && a + k !in c
    ensures Coalesced(Split(c, a, k), start, if a in loose then loose + {a + k} else loose)
  {
    var c' := Split(c, a, k);
    var loose' := if a in loose then loose + {a + k} else loose;
    var n := a + c[a].size;
    forall b | b in c' && b !in loose' && c'[b].prev !in loose' ensures Merged(c', start, b) {
      if b == n {
        assert c'[n].prev == a + k;
      } else if b != a + k {
        assert Merged(c, start, b);
      }
    }
  }

  lemma SplitLoose(h: Heap, loose: set<int>, a: int, k: int)
    requires Shaped(h, loose) && a in h.chunks && a != h.end && (a in loose || h.chunks[a].used)
    requires Good(h.chunks, h.start, h.end, a) && MIN_CHUNK_SIZE <= k <= h.chunks[a].size - MIN_CHUNK_SIZE
    ensures a + k !in h.chunks
    ensures Shaped(h.(chunks := Split(h.chunks, a, k)), if a in loose then loose + {a + k} else loose)
  {
    SplitTiled(h.chunks, h.start, h.end, a, k);
    ListKept(h.chunks, Split(h.chunks, a, k), h.free, loose, if a in loose then loose + {a + k} else loose);
    SplitCoalesced(h.chunks, h.start, h.end, loose, a, k);
  }

  lemma JoinCoalesced(c: Chunks, start: int, end: int, loose: set<int>, a: int)
    requires Tiled(c, start, end) && Coalesced(c, start, loose) && a in loose && a in c && a != end
    requires a + c[a].size in loose && a + c[a].size != end && a + c[a].size in c
    requires a + c[a].size + c[a + c[a].size].size in c
    ensures Coalesced(Join(c, a), start, loose - {a + c[a].size})
  {
    var c' := Join(c, a);
    var n := a + c[a].size;
    var e := n + c[n].size;
    assert Good(c, start, end, n);
    forall b | b in c' && b !in loose - {n} && c'[b].prev !in loose - {n} ensures Merged(c', start, b) {
      assert Good(c, start, end, b);
      assert b != e && b != a;
      assert b != start ==> c[b].prev != n;
      assert b != start ==> Merged(c, start, b);
    }
  }

  lemma JoinListed(c: Chunks, free: seq<int>, loose: set<int>, a: int)
    requires Listed(c, free, loose) && a in loose && a in c && c[a].size > 0
    requires a + c[a].size in loose && a + c[a].size in c && c[a + c[a].size].size > 0
    requires a + c[a].size + c[a + c[a].size].size in c
    ensures Listed(Join(c, a), free, loose - {a + c[a].size})
  {
    var c', n := Join(c, a), a + c[a].size;
    var e := n + c[n].size;
    assert forall x :: x in c' <==> x in c && x != n;
    assert forall x :: x in c' ==> c'[x].used == c[x].used;
    assert forall x :: x in c' && x != a ==> c'[x].size == c[x].size;
    ListKept(c, c', free, loose, loose - {n});
  }

  lemma JoinLoose(h: Heap, loose: set<int>, a: int)
    requires Shaped(h, loose) && a in loose && a in h.chunks && Good(h.chunks, h.start, h.end, a) && a + h.chunks[a].size in loose
    ensures a + h.chunks[a].size in h.chunks && a + h.chunks[a].size + h.chunks[a + h.chunks[a].size].size in h.chunks
    ensures Shaped(h.(chunks := Join(h.chunks, a)), loose - {a + h.chunks[a].size})
  {
    var c := h.chunks;
    var n := a + c[a].size;
    assert IsFree(c, a) && IsFree(c, n);
    assert Good(c, h.start, h.end, h.end) && Good(c, h.start, h.end, n);
    JoinTiled(c, h.start, h.end, a);
    JoinCoalesced(c, h.start, h.end, loose, a);
    JoinListed(c, h.free, loose, a);
  }

  lemma MarkUsed(h: Heap, loose: set<int>, a: int)
    requires Shaped(h, loose) && a in loose
    ensures Shaped(h.(chunks := Mark(h.chunks, a, true)), loose - {a})
  {
    var c, c' := h.chunks, Mark(h.chunks, a, true);
    assert Good(c, h.start, h.end, h.end);
    MarkTiled(c, h.start, h.end, a, true);
    ListKept(c, c', h.free, loose, loose - {a});
    forall b | b in c' && b !in loose - {a} && c'[b].prev !in loose - {a} ensures Merged(c', h.start, b) {
      assert b != a && c[b].prev != a ==> Merged(c, h.start, b);
    }
  }

  lemma MarkFree(h: Heap, loose: set<int>, a: int)
    requires Shaped(h, loose) && a in h.chunks && h.chunks[a].used && a != h.end
    ensures Shaped(h.(chunks := Mark(h.chunks, a, false)), loose + {a})
  {
    var c, c' := h.chunks, Mark(h.chunks, a, false);
    MarkTiled(c, h.start, h.end, a, false);
    ListKept(c, c', h.free, loose, loose + {a});
    forall b | b in c' && b !in loose + {a} && c'[b].prev !in loose + {a} ensures Merged(c', h.start, b) {
      assert Merged(c, h.start, b);
    }
  }

  lemma AppendLoose(h: Heap, loose: set<int>, newEnd: int)
    requires Shaped(h, loose) && h.end + MIN_CHUNK_SIZE <= newEnd
    ensures h.end in h.chunks && newEnd !in h.chunks
    ensures Shaped(h.(end := newEnd, chunks := Append(h.chunks, h.end, newEnd)), loose + {h.end})
  {
    var c, c' := h.chunks, Append(h.chunks, h.end, newEnd);
    AppendTiled(c, h.start, h.end, newEnd);
    assert Good(c, h.start, h.end, h.end);
    ListKept(c, c', h.free, loose, loose + {h.end});
    forall b | b in c' && b !in loose + {h.end} && c'[b].prev !in loose + {h.end} ensures Merged(c', h.start, b) {
      assert Merged(c, h.start, b);
    }
  }

  lemma DropLoose(h: Heap, loose: set<int>, b: int)
    requires Shaped(h, loose) && b in loose && b != h.start && b + h.chunks[b].size == h.end
    ensures Shaped(h.(end := b, chunks := Drop(h.chunks, h.end, b)), loose - {b})
  {
    var c, c' := h.chunks, Drop(h.chunks, h.end, b);
    assert Good(c, h.start, h.end, h.end) && Good(c, h.start, h.end, b);
    DropTiled(c, h.start, h.end, b);
    ListKept(c, c', h.free, loose, loose - {b});
    forall x | x in c' && x !in loose - {b} && c'[x].prev !in loose - {b} ensures Merged(c', h.start, x) {
      assert Good(c, h.start, h.end, x);
      assert x != b && x != h.start ==> c[x].prev != b;
      assert x != b && x != h.start ==> Merged(c, h.start, x);
    }
  }

  // ---------------------------------------------------------------- alignment

  lemma SplitAligned(c: Chunks, a: int, k: int)
    requires Aligned(c) && a in c && a + c[a].size in c && k % 8 == 0
    ensures Aligned(Split(c, a, k))
  {
    assert EightAt(c, a);
    forall b | b in Split(c, a, k) ensures EightAt(Split(c, a, k), b) {
      assert b in c ==> EightAt(c, b);
    }
  }

  lemma JoinAligned(c: Chunks, a: int)
    requires Aligned(c) && a in c && a + c[a].size in c && a + c[a].size + c[a + c[a].size].size in c
    ensures Aligned(Join(c, a))
  {
    assert EightAt(c, a) && EightAt(c, a + c[a].size);
    forall b | b in Join(c, a) ensures EightAt(Join(c, a), b) {
      assert EightAt(c, b);
    }
  }

  lemma MarkAligned(c: Chunks, a: int, used: bool)
    requires Aligned(c) && a in c
    ensures Aligned(Mark(c, a, used))
  {
    forall b | b in Mark(c, a, used) ensures EightAt(Mark(c, a, used), b) {
      assert EightAt(c, b);
    }
  }

  lemma AppendAligned(c: Chunks, end: int, newEnd: int)
    requires Aligned(c) && end in c && newEnd % 8 == 0
    ensures Aligned(Append(c, end, newEnd))
  {
    assert EightAt(c, end);
    forall b | b in Append(c, end, newEnd) ensures EightAt(Append(c, end, newEnd), b) {
      assert b in c ==> EightAt(c, b);
    }
  }

  lemma DropAligned(c: Chunks, end: int, b: int)
    requires Aligned(c) && b in c
    ensures Aligned(Drop(c, end, b))
  {
    forall x | x in Drop(c, end, b) ensures EightAt(Drop(c, end, b), x) {
      assert EightAt(c, x);
    }
  }
}
