/** Requests, growth of the heap, and the two allocation entry points on values. */
module HeapAlloc {
  import opened Machine
  import opened HeapModel
  import opened HeapSteps
  import opened HeapOps

  // ---------------------------------------------------------------- requests

  /** request2size in 32-bit arithmetic. */
  function Request2Size(req: int): int {
    if req < MIN_CHUNK_SIZE - CHUNK_OVERHEAD - 1 then MIN_CHUNK_SIZE
    else var x := Wrap(req + CHUNK_OVERHEAD + 7); x - x % 8
  }

  /** A chunk of Request2Size bytes is big enough for the request, unless the padding wraps around. */
  lemma RequestFits(req: int)
    requires 0 <= req < TWO32
    ensures var nb := Request2Size(req);
            if req <= TWO32 - 12 then nb >= MIN_CHUNK_SIZE && nb % 8 == 0 && req + CHUNK_OVERHEAD <= nb < req + MIN_CHUNK_SIZE + CHUNK_OVERHEAD && nb < TWO32
            else nb < MIN_CHUNK_SIZE
  {
    hide Wrap;
    WrapIs(req + CHUNK_OVERHEAD + 7);
  }

  /** The last request that would need a 4 GiB chunk is served with an 8-byte one. */
  lemma RequestWraps()
    ensures Request2Size(0xFFFF_FFFF) == 8
  {
  }

  // ---------------------------------------------------------------- growth

  /** expand, in 32-bit arithmetic: the new end, or None when one of its two ASSERTs fails. */
  function ExpandedEnd(h: Heap, nb: int): Option<int> {
    var newSize := Wrap(h.end - h.start + nb);
    if newSize <= h.end - h.start then None
    else
      var e := Wrap(h.start + Wrap(RoundUp(newSize)));
      if e > h.max then None else Some(e)
  }

  /** The new end of the heap is an address below 4 GiB. */
  predicate ExpandFits(h: Heap, nb: int) {
    h.start + RoundUp(h.end - h.start + nb) < TWO32
  }

  /** When expand returns it has made room for nb more bytes, if and only if the new end did not wrap around. */
  lemma ExpandExact(h: Heap, nb: int)
    requires Bounds(h) && 0 < nb < TWO32 && ExpandedEnd(h, nb).Some?
    ensures ExpandedEnd(h, nb).value >= h.end + nb <==> ExpandFits(h, nb)
    ensures ExpandFits(h, nb) ==>
              var e := ExpandedEnd(h, nb).value;
              e == h.start + RoundUp(h.end - h.start + nb) && e % PAGE_SIZE == 0 && e >= h.end + PAGE_SIZE && e <= h.max
  {
    hide RoundUp, Wrap;
    var sum := h.end - h.start + nb;
    var r := RoundUp(sum);
    assert r % PAGE_SIZE == 0 && sum <= r < sum + PAGE_SIZE;
    WrapIs(sum);
    if sum < TWO32 {
      RoundUpLeast(sum, TWO32);
      WrapIs(r);
      WrapIs(h.start + Wrap(r));
      if ExpandFits(h, nb) {
        OnPages(h.start, r);
        Multiples(h.end, h.start + r);
      }
    }
  }

  /** alloc, lines 190-222: the gap up to the new end becomes free, in one chunk with a free chunk below it. */
  ghost function Grow(h: Heap, e: int): (r: (Heap, int))
    requires Shaped(h, {}) && h.end + MIN_CHUNK_SIZE <= e
  {
    AppendLoose(h, {}, e);
    assert {} + {h.end} == {h.end};
    var (h1, b) := MeltDown(h.(end := e, chunks := Append(h.chunks, h.end, e)), h.end);
    MeltDownShape(h.(end := e, chunks := Append(h.chunks, h.end, e)), h.end);
    (h1.(free := With(h1.chunks, h1.free, b)), b)
  }

  lemma GrowShape(h: Heap, e: int)
    requires Shaped(h, {}) && h.end + MIN_CHUNK_SIZE <= e
    ensures var (h', b) := Grow(h, e);
            && Shaped(h', {}) && Users(h') == Users(h) && h'.start == h.start && h'.end == e && h'.max == h.max
            && Node(b) in h'.free && IsFree(h'.chunks, b) && h'.chunks[b].size >= e - h.end
            && b + h'.chunks[b].size == e
  {
    hide Shaped, With, MeltDown;
    AppendLoose(h, {}, e);
    assert {} + {h.end} == {h.end};
    var h0 := h.(end := e, chunks := Append(h.chunks, h.end, e));
    AppendUsers(h, e);
    var (h1, b) := MeltDown(h0, h.end);
    MeltDownShape(h0, h.end);
    Around(h1, {b}, b);
    assert h0.chunks[h.end].size == e - h.end;
    PutOn(h1, {b}, b);
    assert {b} - {b} == {};
    WithHas(h1.chunks, h1.free, b);
  }

  lemma WithHas(c: Chunks, free: seq<int>, b: int)
    requires b in c
    ensures Node(b) in With(c, free, b)
  {
    assert With(c, free, b)[Position(c, free, c[b].size)] == Node(b);
  }

  lemma AppendUsers(h: Heap, e: int)
    requires Shaped(h, {}) && h.end in h.chunks && e !in h.chunks
    ensures Users(h.(end := e, chunks := Append(h.chunks, h.end, e))) == Users(h)
  {
  }

  /** The free chunk at the top grows if and only if it ended at the old end. */
  lemma GrowTop(h: Heap, e: int)
    requires Shaped(h, {}) && h.end + MIN_CHUNK_SIZE <= e
    ensures h.end in h.chunks && h.chunks[h.end].prev in h.chunks
    ensures var t := h.chunks[h.end].prev;
            Grow(h, e).1 == if h.chunks[t].used then h.end else t
  {
    hide Shaped, With, MeltDown;
    AppendLoose(h, {}, e);
    assert {} + {h.end} == {h.end};
    var h0 := h.(end := e, chunks := Append(h.chunks, h.end, e));
    AppendFacts(h, e);
    DownIs(h0, h.end);
  }

  lemma DownIs(h: Heap, a: int)
    requires Shaped(h, {a}) && a in h.chunks && a != h.start && h.chunks[a].prev in h.chunks
    ensures MeltDown(h, a).1 == if h.chunks[h.chunks[a].prev].used then a else h.chunks[a].prev
  {
  }

  lemma AppendFacts(h: Heap, e: int)
    requires Shaped(h, {}) && h.end in h.chunks && e !in h.chunks
    ensures h.end != h.start && h.chunks[h.end].prev in h.chunks
    ensures var c' := Append(h.chunks, h.end, e);
            var t := h.chunks[h.end].prev;
            h.end in c' && c'[h.end].prev == t && t in c' && c'[t].used == h.chunks[t].used
  {
    assert Good(h.chunks, h.start, h.end, h.end);
  }

  lemma GrowInv(h: Heap, e: int)
    requires Inv(h) && h.end + PAGE_SIZE <= e <= h.max && e % PAGE_SIZE == 0
    ensures Inv(Grow(h, e).0)
  {
    hide Shaped, With, MeltDown, MeltUp, Aligned;
    GrowShape(h, e);
    AppendLoose(h, {}, e);
    assert {} + {h.end} == {h.end};
    var h0 := h.(end := e, chunks := Append(h.chunks, h.end, e));
    PageIsEight(e);
    AppendAligned(h.chunks, h.end, e);
    MeltsAligned(h0, h.end);
  }

  // ---------------------------------------------------------------- alloc

  /** What alloc may be asked for: a chunk is on the list, or the new end is an address. */
  predicate Servable(h: Heap, nb: int) {
    Position(h.chunks, h.free, nb) < |h.free| || ExpandFits(h, nb)
  }

  /** alloc for a chunk of nb bytes: the heap after it and the payload address; None is a failed ASSERT in expand. */
  ghost function AllocChunk(h: Heap, nb: int): Option<(Heap, int)>
    requires Inv(h) && MIN_CHUNK_SIZE <= nb < TWO32 && Servable(h, nb)
  {
    var k := Position(h.chunks, h.free, nb);
    if k < |h.free| then Some((Carve(h, k, nb), h.free[k]))
    else if ExpandedEnd(h, nb).None? then None
    else
      ExpandExact(h, nb);
      var g := Grow(h, ExpandedEnd(h, nb).value).0;
      GrowShape(h, ExpandedEnd(h, nb).value);
      GrownServes(h, ExpandedEnd(h, nb).value, nb);
      var k' := Position(g.chunks, g.free, nb);
      Some((Carve(g, k', nb), g.free[k']))
  }

  /** After growing by nb bytes the search finds a chunk: alloc calls itself at most once. */
  lemma GrownServes(h: Heap, e: int, nb: int)
    requires Shaped(h, {}) && MIN_CHUNK_SIZE <= nb && h.end + nb <= e
    ensures var g := Grow(h, e).0; Position(g.chunks, g.free, nb) < |g.free|
  {
    hide Shaped, Grow;
    var (g, b) := Grow(h, e);
    GrowShape(h, e);
    var i := IndexOf(g.free, Node(b));
    assert SizeAt(g.chunks, g.free[i]) >= nb;
  }

  lemma AllocInv(h: Heap, nb: int)
    requires Inv(h) && MIN_CHUNK_SIZE <= nb < TWO32 && nb % 8 == 0 && Servable(h, nb)
    ensures AllocChunk(h, nb).Some? ==>
              var (h', p) := AllocChunk(h, nb).value;
              var a := Entry(p);
              && Inv(h') && h'.start == h.start && h'.max == h.max && h'.end >= h.end
              && InUse(h', a) && LowUsed(h'.chunks, h'.start, a)
              && nb <= h'.chunks[a].size < nb + MIN_CHUNK_SIZE
              && a !in Users(h) && Users(h') == Users(h)[a := h'.chunks[a].size]
  {
    hide Shaped, Grow, Users, Aligned;
    var k := Position(h.chunks, h.free, nb);
    if k < |h.free| {
      CarveInv(h, k, nb);
      CarveIs(h, k, nb);
    } else if ExpandedEnd(h, nb).Some? {
      var e := ExpandedEnd(h, nb).value;
      ExpandExact(h, nb);
      GrowInv(h, e);
      GrowShape(h, e);
      GrownServes(h, e, nb);
      var g := Grow(h, e).0;
      CarveInv(g, Position(g.chunks, g.free, nb), nb);
      CarveIs(g, Position(g.chunks, g.free, nb), nb);
    }
  }

  lemma CarveIs(h: Heap, i: int, nb: int)
    requires Shaped(h, {}) && 0 <= i < |h.free|
    ensures var h' := Carve(h, i, nb); h'.start == h.start && h'.end == h.end && h'.max == h.max
    ensures Entry(h.free[i]) in Carve(h, i, nb).chunks ==> Carve(h, i, nb).chunks[Entry(h.free[i])].used
  {
    hide Shaped;
    OnList(h, {}, i);
    Around(h, {}, Entry(h.free[i]));
  }

  /** alloc serves from a smallest free chunk that fits. */
  lemma BestFit(h: Heap, nb: int, b: int)
    requires Inv(h) && MIN_CHUNK_SIZE <= nb < TWO32 && Servable(h, nb) && Position(h.chunks, h.free, nb) < |h.free|
    requires IsFree(h.chunks, b) && h.chunks[b].size >= nb
    ensures var a := Entry(AllocChunk(h, nb).value.1);
            IsFree(h.chunks, a) && nb <= h.chunks[a].size <= h.chunks[b].size
  {
    NotLoose(h, {}, b);
    var k := Position(h.chunks, h.free, nb);
    OnList(h, {}, k);
    var i := IndexOf(h.free, Node(b));
    assert SizeAt(h.chunks, h.free[i]) >= nb;
  }

  // ---------------------------------------------------------------- palignedAlloc

  /** palignedAlloc, lines 334-338: from payload p up to the first page boundary that leaves room for a chunk in front. */
  function LeadSize(p: int): int {
    var br := p - p % PAGE_SIZE + PAGE_SIZE - 8;
    if br - Entry(p) >= MIN_CHUNK_SIZE then br - Entry(p) else br + PAGE_SIZE - Entry(p)
  }

  lemma LeadFacts(p: int)
    requires p % 8 == 0 && p % PAGE_SIZE != 0
    ensures MIN_CHUNK_SIZE <= LeadSize(p) <= PAGE_SIZE + 8 && LeadSize(p) % 8 == 0
    ensures (p + LeadSize(p)) % PAGE_SIZE == 0
  {
    var q, j := p / PAGE_SIZE, p / 8;
    assert p == q * PAGE_SIZE + 8 * (j - 512 * q);
    LeadIs(p, q, j - 512 * q);
    hide LeadSize;
    if p == q * PAGE_SIZE + PAGE_SIZE - 8 {
      WholeEights(513);
      WholePages(q + 2);
    } else {
      WholeEights(512 - (j - 512 * q));
      WholePages(q + 1);
    }
  }

  lemma LeadIs(p: int, q: int, m: int)
    requires q == p / PAGE_SIZE && p == q * PAGE_SIZE + 8 * m && p % PAGE_SIZE != 0
    ensures 0 < m < 512
    ensures LeadSize(p) == if m == 511 then 8 * 513 else 8 * (512 - m)
  {
  }

  lemma WholeEights(n: int)
    ensures (8 * n) % 8 == 0
  {
  }

  lemma WholePages(n: int)
    ensures (n * PAGE_SIZE) % PAGE_SIZE == 0
  {
  }

  /** palignedAlloc, lines 337-346: the front of chunk a, in use, becomes a free chunk. */
  ghost function CutLead(h: Heap, a: int, lead: int): Heap
    requires a in h.chunks && a + h.chunks[a].size in h.chunks
  {
    var c' := Mark(Split(h.chunks, a, lead), a, false);
    h.(chunks := c', free := With(c', h.free, a))
  }

  lemma MapSwap(u: map<int, int>, a: int, b: int, x: int, y: int)
    requires a != b
    ensures u[a := x][b := y] - {a} == (u - {a})[b := y]
  {
  }

  lemma CutLeadShape(h: Heap, a: int, lead: int)
    requires Shaped(h, {}) && InUse(h, a) && LowUsed(h.chunks, h.start, a)
    requires MIN_CHUNK_SIZE <= lead <= h.chunks[a].size - MIN_CHUNK_SIZE
    ensures a + h.chunks[a].size in h.chunks && a + lead !in Users(h)
    ensures var h' := CutLead(h, a, lead);
            && Shaped(h', {}) && InUse(h', a + lead) && h'.chunks[a + lead].size == h.chunks[a].size - lead
            && Users(h') == (Users(h) - {a})[a + lead := h.chunks[a].size - lead]
            && h'.start == h.start && h'.end == h.end && h'.max == h.max
  {
    hide Shaped, With, Users;
    Around(h, {}, a);
    SplitLoose(h, {}, a, lead);
    var h1 := h.(chunks := Split(h.chunks, a, lead));
    SplitUsers(h, a, lead);
    MarkFree(h1, {}, a);
    assert {} + {a} == {a};
    MarkUsers(h1, a);
    MapSwap(Users(h), a, a + lead, lead, h.chunks[a].size - lead);
    var h2 := h1.(chunks := Mark(h1.chunks, a, false));
    PutOn(h2, {a}, a);
    assert {a} - {a} == {};
    UsersOfList(h2, With(h2.chunks, h2.free, a));
  }

  lemma UsersOfList(h: Heap, free: seq<int>)
    ensures Users(h.(free := free)) == Users(h)
  {
  }

  lemma SplitUsers(h: Heap, a: int, k: int)
    requires InUse(h, a) && a < a + k < a + h.chunks[a].size <= h.end && a + h.chunks[a].size in h.chunks && a + k !in h.chunks
    ensures a + k !in Users(h)
    ensures Users(h.(chunks := Split(h.chunks, a, k))) == Users(h)[a := k][a + k := h.chunks[a].size - k]
  {
  }

  ghost predicate Cuttable(h: Heap, a: int, nb: int) {
    && a in h.chunks && a + h.chunks[a].size in h.chunks
    && (h.chunks[a].size > nb + MIN_CHUNK_SIZE ==>
          Shaped(h.(chunks := Split(h.chunks, a, nb)), {}) && InUse(h.(chunks := Split(h.chunks, a, nb)), a + nb))
  }

  /** palignedAlloc, lines 351-358: what chunk a has beyond nb bytes is cut off and given back. */
  ghost function CutTail(h: Heap, a: int, nb: int): Option<Heap>
    requires Cuttable(h, a, nb)
  {
    if h.chunks[a].size > nb + MIN_CHUNK_SIZE then Release(h.(chunks := Split(h.chunks, a, nb)), a + nb) else Some(h)
  }

  lemma CutTailSplit(h: Heap, a: int, nb: int)
    requires Inv(h) && InUse(h, a) && MIN_CHUNK_SIZE <= nb && nb % 8 == 0 && h.chunks[a].size > nb + MIN_CHUNK_SIZE
    ensures a + h.chunks[a].size in h.chunks && a + nb !in Users(h) && a + nb + MIN_CHUNK_SIZE < h.end
    ensures var h1 := h.(chunks := Split(h.chunks, a, nb));
            && Inv(h1) && InUse(h1, a + nb)
            && Users(h1) == Users(h)[a := nb][a + nb := h.chunks[a].size - nb]
  {
    hide Shaped, Aligned, Users;
    Around(h, {}, a);
    SplitLoose(h, {}, a, nb);
    SplitAligned(h.chunks, a, nb);
    SplitUsers(h, a, nb);
  }

  /** The part cut off is longer than 16 bytes, so giving it back cannot halt. */
  lemma CutTailInv(h: Heap, a: int, nb: int)
    requires Inv(h) && InUse(h, a) && MIN_CHUNK_SIZE <= nb <= h.chunks[a].size && nb % 8 == 0
    ensures Cuttable(h, a, nb) && CutTail(h, a, nb).Some?
    ensures var h' := CutTail(h, a, nb).value;
            && Inv(h') && h'.start == h.start && h'.max == h.max && h'.end <= h.end
            && InUse(h', a) && nb <= h'.chunks[a].size <= nb + MIN_CHUNK_SIZE
            && Users(h') == Users(h)[a := h'.chunks[a].size]
  {
    hide Shaped, Users, Aligned, Release;
    Around(h, {}, a);
    if h.chunks[a].size > nb + MIN_CHUNK_SIZE {
      CutTailSplit(h, a, nb);
      ReleaseInv(h.(chunks := Split(h.chunks, a, nb)), a + nb);
      UserAt(CutTail(h, a, nb).value, a, nb);
    } else {
      UsersHas(h, a);
    }
  }

  lemma UserAt(h: Heap, a: int, size: int)
    requires a in Users(h) && Users(h)[a] == size
    ensures InUse(h, a) && h.chunks[a].size == size
  {
  }

  lemma UsersHas(h: Heap, a: int)
    requires InUse(h, a)
    ensures a in Users(h) && Users(h)[a] == h.chunks[a].size
  {
  }

  /** The chunk palignedAlloc asks alloc for, in 32-bit arithmetic. */
  function PaddedSize(nb: int): int {
    Request2Size(Wrap(nb + PAGE_SIZE + MIN_CHUNK_SIZE - CHUNK_OVERHEAD))
  }

  ghost function PAllocChunk(h: Heap, nb: int): Option<(Heap, int)>
    requires Inv(h) && MIN_CHUNK_SIZE <= nb <= TWO32 - PAGE_SIZE - 24 && nb % 8 == 0 && Servable(h, PaddedSize(nb))
  {
    PaddingEnough(nb);
    var r := AllocChunk(h, PaddedSize(nb));
    AllocInv(h, PaddedSize(nb));
    if r.None? then None
    else
      var (h1, p) := r.value;
      FrontInv(h1, p, nb);
      var (h2, q) := Front(h1, p);
      CutTailInv(h2, Entry(q), nb);
      Some((CutTail(h2, Entry(q), nb).value, q))
  }

  lemma PaddingEnough(nb: int)
    requires MIN_CHUNK_SIZE <= nb <= TWO32 - PAGE_SIZE - 24 && nb % 8 == 0
    ensures PaddedSize(nb) == nb + PAGE_SIZE + MIN_CHUNK_SIZE && PaddedSize(nb) % 8 == 0
  {
    hide Wrap;
    var k, req := nb / 8, nb + PAGE_SIZE + MIN_CHUNK_SIZE - CHUNK_OVERHEAD;
    WrapIs(req);
    WrapIs(req + CHUNK_OVERHEAD + 7);
    assert req + CHUNK_OVERHEAD + 7 == 8 * (k + 514) + 7;
    SevenOver(k + 514);
    WholeEights(k + 514);
  }

  lemma SevenOver(n: int)
    ensures (8 * n + 7) % 8 == 7
  {
  }

  ghost function Front(h: Heap, p: int): (Heap, int)
    requires Entry(p) in h.chunks && Entry(p) + h.chunks[Entry(p)].size in h.chunks
  {
    if p % PAGE_SIZE == 0 then (h, p) else (CutLead(h, Entry(p), LeadSize(p)), p + LeadSize(p))
  }

  /** In the worst case the lead takes 4104 bytes, and what is left still holds the request. */
  lemma FrontInv(h: Heap, p: int, nb: int)
    requires Inv(h) && InUse(h, Entry(p)) && LowUsed(h.chunks, h.start, Entry(p))
    requires MIN_CHUNK_SIZE <= nb && nb + PAGE_SIZE + MIN_CHUNK_SIZE <= h.chunks[Entry(p)].size
    ensures Entry(p) + h.chunks[Entry(p)].size in h.chunks
    ensures var (h', q) := Front(h, p);
            && Inv(h') && InUse(h', Entry(q)) && nb <= h'.chunks[Entry(q)].size && q % PAGE_SIZE == 0
            && h'.start == h.start && h'.end == h.end && h'.max == h.max
            && Users(h') == (Users(h) - {Entry(p)})[Entry(q) := h'.chunks[Entry(q)].size]
            && (q == p || Entry(q) !in Users(h))
  {
    hide Inv, Users, CutLead, LowUsed, LeadSize;
    if p % PAGE_SIZE == 0 {
      FrontSame(h, Entry(p));
    } else {
      LeadOf(h, p);
      CutLeadInv(h, Entry(p), LeadSize(p), nb);
    }
  }

  /** An aligned payload stays where it is. */
  lemma FrontSame(h: Heap, a: int)
    requires Inv(h) && InUse(h, a)
    ensures a + h.chunks[a].size in h.chunks && (Users(h) - {a})[a := h.chunks[a].size] == Users(h)
  {
    hide Shaped, Users, Aligned;
    Around(h, {}, a);
    UsersHas(h, a);
    UsersAgain(h, a);
  }

  lemma LeadOf(h: Heap, p: int)
    requires Inv(h) && Entry(p) in h.chunks && p % PAGE_SIZE != 0
    ensures MIN_CHUNK_SIZE <= LeadSize(p) <= PAGE_SIZE + 8 && LeadSize(p) % 8 == 0 && (p + LeadSize(p)) % PAGE_SIZE == 0
  {
    AlignedAt(h.chunks, Entry(p));
    LeadFacts(p);
  }

  lemma UsersAgain(h: Heap, a: int)
    requires a in Users(h)
    ensures (Users(h) - {a})[a := Users(h)[a]] == Users(h)
  {
  }

  /** Cutting a lead off a chunk in use, and freeing it. */
  lemma CutLeadInv(h: Heap, a: int, lead: int, nb: int)
    requires Inv(h) && InUse(h, a) && LowUsed(h.chunks, h.start, a) && lead % 8 == 0
    requires MIN_CHUNK_SIZE <= nb && MIN_CHUNK_SIZE <= lead && nb + lead <= h.chunks[a].size
    ensures a + h.chunks[a].size in h.chunks
    ensures var h' := CutLead(h, a, lead);
            && Inv(h') && InUse(h', a + lead) && nb <= h'.chunks[a + lead].size
            && h'.start == h.start && h'.end == h.end && h'.max == h.max
            && Users(h') == (Users(h) - {a})[a + lead := h'.chunks[a + lead].size] && a + lead !in Users(h)
  {
    hide Shaped, With, Users, Aligned;
    CutLeadShape(h, a, lead);
    SplitAligned(h.chunks, a, lead);
    MarkAligned(Split(h.chunks, a, lead), a, false);
  }

  lemma AlignedAt(c: Chunks, a: int)
    requires Aligned(c) && a in c
    ensures EightAt(c, a)
  {
  }

  /** palignedAlloc returns a page-aligned payload in a chunk in use of at least nb bytes, and nothing else in use changes. */
  lemma PAllocInv(h: Heap, nb: int)
    requires Inv(h) && MIN_CHUNK_SIZE <= nb <= TWO32 - PAGE_SIZE - 24 && nb % 8 == 0 && Servable(h, PaddedSize(nb))
    ensures PAllocChunk(h, nb).Some? ==>
              var (h', q) := PAllocChunk(h, nb).value;
              var a := Entry(q);
              && Inv(h') && h'.start == h.start && h'.max == h.max
              && q % PAGE_SIZE == 0 && InUse(h', a) && nb <= h'.chunks[a].size <= nb + MIN_CHUNK_SIZE
              && a !in Users(h) && Users(h') == Users(h)[a := h'.chunks[a].size]
  {
    hide Shaped, Users, Aligned, Front, CutTail, AllocChunk, Request2Size;
    PaddingEnough(nb);
    AllocInv(h, PaddedSize(nb));
    var r := AllocChunk(h, PaddedSize(nb));
    if r.Some? {
      var (h1, p) := r.value;
      FrontInv(h1, p, nb);
      var (h2, q) := Front(h1, p);
      CutTailInv(h2, Entry(q), nb);
    }
  }
}
