/** When the calls of the allocator halt: exactly when growth would pass the maximum, or a free runs into the ASSERT of contract. */
module HeapHalts {
  import opened Machine
  import opened HeapModel
  import opened HeapOps
  import opened HeapAlloc
  import opened HeapRuns

  /** x rounded up to whole pages. */
  function WholePagesFor(x: int): int {
    (x + 4095) / 4096 * 4096
  }

  /** The bytes of the chunk for a request of so many bytes. */
  function ChunkFor(size: int): int {
    if size < 11 then 16 else (size + 11) / 8 * 8
  }

  ghost predicate NoneFits(h: Heap, nb: int) {
    forall b :: IsFree(h.chunks, b) ==> h.chunks[b].size < nb
  }

  /** The search finds a chunk exactly when one fits. */
  lemma SearchFinds(h: Heap, nb: int)
    requires Inv(h)
    ensures Position(h.chunks, h.free, nb) < |h.free| <==> !NoneFits(h, nb)
  {
    var k := Position(h.chunks, h.free, nb);
    if k < |h.free| {
      OnList(h, {}, k);
      assert IsFree(h.chunks, Entry(h.free[k]));
    } else {
      forall b | IsFree(h.chunks, b) ensures h.chunks[b].size < nb {
        NotLoose(h, {}, b);
        var i := IndexOf(h.free, Node(b));
        assert SizeAt(h.chunks, h.free[i]) < nb;
      }
    }
  }

  lemma RoundedUp(x: int)
    ensures RoundUp(x) == WholePagesFor(x)
  {
    var r, q := RoundUp(x), (x + 4095) / 4096;
    assert r == r / 4096 * 4096;
  }

  lemma ChunkIs(size: int)
    requires 0 <= size <= 0xFFFF_FFFF - 11
    ensures Request2Size(size) == ChunkFor(size) && 16 <= ChunkFor(size) < 0x1_0000_0000 && ChunkFor(size) % 8 == 0
  {
    hide Wrap;
    WrapIs(size + 11);
    var x := size + 11;
    assert x / 8 * 8 == x - x % 8;
  }

  /** Growing stops at the maximum, and nowhere else. */
  lemma ExpandRefuses(h: Heap, nb: int)
    requires Bounds(h) && 0 < nb < 0x1_0000_0000 && h.start + WholePagesFor(h.end - h.start + nb) < 0x1_0000_0000
    ensures ExpandedEnd(h, nb).None? <==> h.start + WholePagesFor(h.end - h.start + nb) > h.max
    ensures ExpandedEnd(h, nb).Some? ==> ExpandedEnd(h, nb).value == h.start + WholePagesFor(h.end - h.start + nb)
  {
    hide Wrap, RoundUp;
    var sum := h.end - h.start + nb;
    RoundedUp(sum);
    var r := RoundUp(sum);
    assert r % PAGE_SIZE == 0 && sum <= r;
    WrapIs(sum);
    WrapIs(r);
    WrapIs(h.start + r);
  }

  /** Unless a chunk fits or the new end would be no address, alloc halts exactly when growing by whole pages passes the maximum. */
  lemma AllocHalts(h: Heap, nb: int)
    requires Inv(h) && 16 <= nb < 0x1_0000_0000
    ensures Servable(h, nb) <==> !NoneFits(h, nb) || h.start + WholePagesFor(h.end - h.start + nb) < 0x1_0000_0000
    ensures Servable(h, nb) ==> (AllocChunk(h, nb).None? <==> NoneFits(h, nb) && h.start + WholePagesFor(h.end - h.start + nb) > h.max)
  {
    hide Shaped, Grow, ExpandedEnd, Aligned, NoneFits, RoundUp;
    SearchFinds(h, nb);
    RoundedUp(h.end - h.start + nb);
    if ExpandFits(h, nb) { ExpandRefuses(h, nb); }
  }

  /** palignedAlloc asks for a page and 16 bytes more, and halts for the same reason only. */
  lemma AlignedHalts(h: Heap, nb: int)
    requires Inv(h) && 16 <= nb <= 0x1_0000_0000 - 4096 - 24 && nb % 8 == 0
    ensures PaddedSize(nb) == nb + 4112
    ensures Servable(h, nb + 4112) <==> !NoneFits(h, nb + 4112) || h.start + WholePagesFor(h.end - h.start + nb + 4112) < 0x1_0000_0000
    ensures Servable(h, nb + 4112) ==> (PAllocChunk(h, nb).None? <==> NoneFits(h, nb + 4112) && h.start + WholePagesFor(h.end - h.start + nb + 4112) > h.max)
  {
    hide Shaped, Aligned, NoneFits, AllocChunk, Servable, Front, CutTail, Users, Request2Size;
    PaddingEnough(nb);
    AllocHalts(h, nb + 4112);
    if Servable(h, nb + 4112) {
      AllocInv(h, nb + 4112);
      if AllocChunk(h, nb + 4112).Some? {
        var (h1, p) := AllocChunk(h, nb + 4112).value;
        FrontInv(h1, p, nb);
        var (h2, q) := Front(h1, p);
        CutTailInv(h2, Entry(q), nb);
      }
    }
  }

  /** No chunk fits, and the next page boundary for this many bytes more is an address, but beyond the maximum. */
  ghost predicate OutOfRoom(h: Heap, nb: int) {
    NoneFits(h, nb) && h.max < h.start + WholePagesFor(h.end - h.start + nb) < 0x1_0000_0000
  }

  /** When a call in a run halts the kernel: three reasons, and no others. */
  lemma StepHalts(h: Heap, live: map<int, int>, op: Op)
    requires Sound(h, live)
    ensures Step(h, live, op).Halted? <==>
              match op
              case Alloc(size) => 0 <= size <= 0xFFFF_FFFF - 11 && OutOfRoom(h, ChunkFor(size))
              case AlignedAlloc(size) => 0 <= size <= 0xFFFF_FFFF - 11 && ChunkFor(size) <= 0x1_0000_0000 - 4096 - 24 && OutOfRoom(h, ChunkFor(size) + 4112)
              case Free(p) => p != 0 && (!(h.start <= p < h.end) || (p in live && p + 8 == h.end && LowUsed(h.chunks, h.start, p - 8)))
  {
    hide Shaped, Aligned, Bounds, Users, Request2Size, Servable, AllocChunk, PAllocChunk, Release, NoneFits, LowUsed, WholePagesFor;
    match op
    case Alloc(size) =>
      if 0 <= size <= 0xFFFF_FFFF - 11 {
        ChunkIs(size);
        AllocHalts(h, ChunkFor(size));
      }
    case AlignedAlloc(size) =>
      if 0 <= size <= 0xFFFF_FFFF - 11 {
        ChunkIs(size);
        if ChunkFor(size) <= 0x1_0000_0000 - 4096 - 24 { AlignedHalts(h, ChunkFor(size)); }
      }
    case Free(p) => if p in live { ReleaseInv(h, Entry(p)); }
  }

  // ---------------------------------------------------------------- the size of the heap

  /** Over every run the heap keeps its first megabyte, and passes its maximum never. */
  lemma KeepsMegabyte(start: int, end: int, max: int, ops: seq<Op>)
    requires start % 4096 == 0 && end % 4096 == 0 && 0 < start && start + 0x10_0000 <= end <= max < 0x1_0000_0000
    ensures Sound(Fresh(start, end, max), map[])
    ensures var r := RunFrom(Fresh(start, end, max), map[], ops); r.Running? ==> start + 0x10_0000 <= r.h.end <= max && r.h.end % 4096 == 0
  {
    hide Sound, RunFrom, Fresh, InOneChunk, SizeAt, IsFree;
    HeapSafety(start, end, max, ops);
  }
}
