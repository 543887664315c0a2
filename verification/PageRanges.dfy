/**
 Ranges of pages: how the loops of paging.c run through them in 32-bit arithmetic, and what a
 change to some pages means for what processes see.
 */
module PageRanges {
  import opened Machine
  import opened PageDirs
  import opened PageFrames
  import opened PageTables

  datatype PageRef = NoPage | PageAt(table: int, index: int)

  /** What getPage finds for an address: the entry's table and place. */
  function Reached(dirs: Dirs, d: int, address: int): PageRef
    requires d in dirs
  {
    if 0 <= Slot(address) < |dirs[d].tables| && dirs[d].tables[Slot(address)] != 0 then PageAt(dirs[d].tables[Slot(address)], Offset(address))
    else NoPage
  }

  /** Every address under every directory ends at the same entry as before. */
  ghost predicate SameView(s: Paged, r: Paged) {
    forall d, v :: EntryOf(r, d, v) == EntryOf(s, d, v)
  }

  lemma SameViewNow(s: Paged)
    ensures SameView(s, s)
  {
  }

  /** The fields allocFrame and linkFrame set; accessed and dirty stay. */
  function Granted(p: Page, frame: int, isKernel: bool, isWriteable: bool, inKernelDir: bool): Page {
    p.(present := true, rw := isWriteable, user := !isKernel, frame := frame, isKernel := inKernelDir)
  }

  function Emptied(p: Page): Page {
    p.(present := false, frame := 0)
  }

  // ---------------------------------------------------------------- the loops

  /** How often a loop from start in steps of a page runs while below end, the counter unbounded. */
  function Steps(start: int, end: int): nat {
    if end <= start then 0 else (end - start - 1) / PAGE_SIZE + 1
  }

  lemma StepsFacts(start: int, end: int)
    ensures forall k :: 0 <= k < Steps(start, end) ==> start + PAGE_SIZE * k < end && end - PAGE_SIZE * k > start
    ensures start + PAGE_SIZE * Steps(start, end) >= end && end - PAGE_SIZE * Steps(start, end) <= start
  {
  }

  lemma PageAfter(a: int, k: int)
    ensures PageOf(a + PAGE_SIZE * k) == PageOf(a) + k
  {
  }

  /** The counter after k rounds, as uint32_t. */
  function Counter(start: int, k: int): int {
    Wrap(start + PAGE_SIZE * k)
  }

  /** `for (i = start; i < end; i += PAGE_SIZE)` stops after n rounds. */
  ghost predicate StopsAfter(start: int, end: int, n: nat) {
    (forall k :: 0 <= k < n ==> Counter(start, k) < end) && Counter(start, n) >= end
  }

  /** The counter does not wrap around. */
  predicate Ends(start: int, end: int) {
    start + PAGE_SIZE * Steps(start, end) < TWO32
  }

  lemma CounterIs(start: int, k: int)
    requires 0 <= start + PAGE_SIZE * k < TWO32
    ensures Counter(start, k) == start + PAGE_SIZE * k
  {
  }

  /** Where the loop stops, stepping by a page does not wrap. */
  lemma WrapsNot(start: int, end: int, k: nat)
    requires Word(start) && Ends(start, end) && k < Steps(start, end)
    ensures Wrap(start + PAGE_SIZE * k + PAGE_SIZE) == start + PAGE_SIZE * (k + 1)
  {
    hide Steps;
    CounterIs(start, k + 1);
  }

  /** The loop stops if and only if its counter does not wrap, and then after as many rounds as without wrapping. */
  lemma EndsExactly(start: int, end: int)
    requires Word(start) && Word(end)
    ensures Ends(start, end) <==> exists n: nat :: StopsAfter(start, end, n)
    ensures forall n: nat :: StopsAfter(start, end, n) ==> n == Steps(start, end)
  {
    StepsFacts(start, end);
    var m := Steps(start, end);
    if Ends(start, end) {
      hide Steps, Counter;
      forall k | 0 <= k < m ensures Counter(start, k) < end { CounterIs(start, k); }
      CounterIs(start, m);
      assert StopsAfter(start, end, m);
      forall n: nat | StopsAfter(start, end, n) ensures n == m {
        assert n < m ==> Counter(start, n) < end;
        assert m < n ==> Counter(start, m) < end;
      }
    } else {
      forall n: nat ensures Counter(start, n) < end { NeverStops(start, end, n); }
    }
  }

  /** Every value the wrapping counter takes lies below an end it has once been below at the very top. */
  lemma NeverStops(start: int, end: int, n: nat)
    requires Word(start) && Word(end) && !Ends(start, end)
    ensures Counter(start, n) < end
  {
    StepsFacts(start, end);
    var m := Steps(start, end) - 1;
    var top := start + PAGE_SIZE * m;
    assert TWO32 - PAGE_SIZE <= top < end;
    Residue(start, n, m);
  }

  lemma Residue(start: int, n: int, m: int)
    requires 0 <= start + PAGE_SIZE * m < TWO32 && TWO32 - PAGE_SIZE <= start + PAGE_SIZE * m
    ensures Counter(start, n) <= start + PAGE_SIZE * m
  {
    var i, top := Counter(start, n), start + PAGE_SIZE * m;
    var q := (start + PAGE_SIZE * n) / TWO32;
    assert start + PAGE_SIZE * n == q * TWO32 + i;
    var j := m - n + 1048576 * q;
    assert top - i == PAGE_SIZE * j;
    assert i < TWO32;
  }

  /** One of the first n rounds is at the page q. */
  ghost predicate VisitsPage(start: int, n: nat, q: int) {
    exists k :: 0 <= k < n && PageOf(Counter(start, k)) == q
  }

  /** `for (i = start; i < end; i += PAGE_SIZE)` stops, and visits every page from lo up to hi. */
  ghost predicate LoopCovers(start: int, end: int, lo: int, hi: int) {
    exists n: nat :: StopsAfter(start, end, n) && forall q :: lo <= q < hi ==> VisitsPage(start, n, q)
  }

  lemma VisitsExactly(start: int, end: int, q: int)
    requires Word(start) && Ends(start, end)
    ensures VisitsPage(start, Steps(start, end), q) <==> PageOf(start) <= q < PageOf(start) + Steps(start, end)
  {
    hide Steps, Counter, PageOf;
    forall k | 0 <= k < Steps(start, end) ensures PageOf(Counter(start, k)) == PageOf(start) + k {
      CounterIs(start, k);
      PageAfter(start, k);
    }
    if PageOf(start) <= q < PageOf(start) + Steps(start, end) {
      assert PageOf(Counter(start, q - PageOf(start))) == q;
    }
  }

  lemma CoversExactly(start: int, end: int, lo: int, hi: int)
    requires Word(start) && Word(end) && lo < hi
    ensures LoopCovers(start, end, lo, hi) <==> Ends(start, end) && PageOf(start) <= lo && hi <= PageOf(start) + Steps(start, end)
  {
    EndsExactly(start, end);
    hide Steps, PageOf, StopsAfter, Ends, VisitsPage;
    if Ends(start, end) {
      forall q ensures VisitsPage(start, Steps(start, end), q) <==> PageOf(start) <= q < PageOf(start) + Steps(start, end) {
        VisitsExactly(start, end, q);
      }
      if LoopCovers(start, end, lo, hi) {
        assert VisitsPage(start, Steps(start, end), lo) && VisitsPage(start, Steps(start, end), hi - 1);
      }
    }
  }

  /** The counter of the loop that runs down, after k rounds. */
  function CounterDown(end: int, k: int): int {
    Wrap(end - PAGE_SIZE * k)
  }

  /** `for (i = end; i > start; i -= PAGE_SIZE)` stops after n rounds. */
  ghost predicate StopsDownAfter(start: int, end: int, n: nat) {
    (forall k :: 0 <= k < n ==> CounterDown(end, k) > start) && CounterDown(end, n) <= start
  }

  predicate EndsDown(start: int, end: int) {
    end - PAGE_SIZE * Steps(start, end) >= 0
  }

  lemma WrapsNotDown(start: int, end: int, k: nat)
    requires Word(end) && EndsDown(start, end) && k < Steps(start, end)
    ensures Wrap(end - PAGE_SIZE * k - PAGE_SIZE) == end - PAGE_SIZE * (k + 1)
  {
    hide Steps;
  }

  lemma EndsDownExactly(start: int, end: int)
    requires Word(start) && Word(end)
    ensures EndsDown(start, end) <==> exists n: nat :: StopsDownAfter(start, end, n)
  {
    StepsFacts(start, end);
    var m := Steps(start, end);
    if EndsDown(start, end) {
      hide Steps;
      forall k | 0 <= k < m ensures CounterDown(end, k) > start {}
      assert StopsDownAfter(start, end, m);
    } else {
      forall n: nat ensures CounterDown(end, n) > start { ResidueDown(end, n, m - 1); }
    }
  }

  lemma ResidueDown(end: int, n: int, m: int)
    requires 0 <= end - PAGE_SIZE * m < PAGE_SIZE
    ensures CounterDown(end, n) >= end - PAGE_SIZE * m
  {
    var i, low := CounterDown(end, n), end - PAGE_SIZE * m;
    var q := (end - PAGE_SIZE * n) / TWO32;
    assert end - PAGE_SIZE * n == q * TWO32 + i;
    var j := n - m + 1048576 * q;
    assert low - i == PAGE_SIZE * j;
    assert i >= 0;
  }

  // ---------------------------------------------------------------- one page

  /** Only the page of a may have changed, and only where there was no frame. */
  ghost predicate PageStep(s: Paged, r: Paged, a: int) {
    && (forall e, v :: PageOf(v) != PageOf(a) ==> EntryOf(r, e, v) == EntryOf(s, e, v))
    && (forall e, v :: EntryOf(s, e, v).frame != 0 ==> EntryOf(r, e, v) == EntryOf(s, e, v))
  }

  /** Every page from lo up to hi has a frame. */
  ghost predicate Given(s: Paged, d: int, lo: int, hi: int) {
    forall v :: Word(v) && lo <= PageOf(v) < hi ==> EntryOf(s, d, v).frame != 0
  }

  lemma StepSame(s: Paged, r: Paged, a: int)
    requires SameView(s, r)
    ensures PageStep(s, r, a) && forall e, v :: EntryOf(r, e, v) == EntryOf(s, e, v)
  {
  }

  lemma StepSet(s: Paged, s1: Paged, r: Paged, d: int, a: int, p: Page)
    requires SameView(s, s1) && Changed(s1, r, d, a, p) && EntryOf(s1, d, a).frame == 0
    ensures PageStep(s, r, a)
  {
    hide PageOf;
    forall e, v
      ensures PageOf(v) != PageOf(a) ==> EntryOf(r, e, v) == EntryOf(s, e, v)
      ensures EntryOf(s, e, v).frame != 0 ==> EntryOf(r, e, v) == EntryOf(s, e, v)
    {
      assert EntryOf(s1, e, v) == EntryOf(s, e, v);
    }
  }

  lemma GivenOld(s: Paged, d: int, a: int)
    requires EntryOf(s, d, a).frame != 0
    ensures Given(s, d, PageOf(a), PageOf(a) + 1)
  {
    forall v | Word(v) && PageOf(v) == PageOf(a) ensures EntryOf(s, d, v).frame != 0 {
      SamePart(v, a);
    }
  }

  lemma GivenSet(s: Paged, r: Paged, d: int, a: int, p: Page)
    requires Changed(s, r, d, a, p) && p.frame != 0
    ensures Given(r, d, PageOf(a), PageOf(a) + 1)
  {
  }

  // ---------------------------------------------------------------- ranges of pages

  /** Only pages from lo up to hi may have changed, and only where there was no frame. */
  ghost predicate RangeStep(s: Paged, r: Paged, lo: int, hi: int) {
    && (forall e, v :: PageOf(v) < lo || hi <= PageOf(v) ==> EntryOf(r, e, v) == EntryOf(s, e, v))
    && (forall e, v :: EntryOf(s, e, v).frame != 0 ==> EntryOf(r, e, v) == EntryOf(s, e, v))
  }

  lemma RangeStart(s: Paged, d: int, lo: int)
    ensures RangeStep(s, s, lo, lo) && Given(s, d, lo, lo)
  {
  }

  lemma RangeNext(s: Paged, s1: Paged, r: Paged, a: int, lo: int, hi: int)
    requires RangeStep(s, s1, lo, hi) && PageStep(s1, r, a) && PageOf(a) == hi && lo <= hi
    ensures RangeStep(s, r, lo, hi + 1)
  {
    hide PageOf;
  }

  lemma RangeBefore(s: Paged, s1: Paged, r: Paged, a: int, lo: int, hi: int)
    requires RangeStep(s, s1, lo, hi) && PageStep(s1, r, a) && PageOf(a) == lo - 1 && lo <= hi
    ensures RangeStep(s, r, lo - 1, hi)
  {
    hide PageOf;
  }

  lemma RangeWiden(s: Paged, r: Paged, lo: int, hi: int, lo': int, hi': int)
    requires RangeStep(s, r, lo, hi) && lo' <= lo && hi <= hi'
    ensures RangeStep(s, r, lo', hi')
  {
    hide PageOf;
  }

  /** p' is present, may be written if isWriteable, is closed to user mode if isKernel, and marked if the kernel's directory is the current one. */
  predicate HasFlags(p: Page, p': Page, isKernel: bool, isWriteable: bool, inKernelDir: bool) {
    && p'.present && (p'.rw <==> isWriteable) && (p'.user <==> !isKernel) && (p'.isKernel <==> inKernelDir)
    && p'.accessed == p.accessed && p'.dirty == p.dirty
  }

  /** A page from lo up to hi that had no frame has the flags asked for. */
  ghost predicate Flagged(s: Paged, r: Paged, d: int, lo: int, hi: int, isKernel: bool, isWriteable: bool, inKernelDir: bool) {
    forall v :: Word(v) && lo <= PageOf(v) < hi && EntryOf(s, d, v).frame == 0 ==>
      HasFlags(EntryOf(s, d, v), EntryOf(r, d, v), isKernel, isWriteable, inKernelDir)
  }

  /** Flags and frame are all there is to an entry. */
  lemma FlagsAre(p: Page, p': Page, isKernel: bool, isWriteable: bool, inKernelDir: bool)
    ensures HasFlags(p, p', isKernel, isWriteable, inKernelDir) <==> p' == Granted(p, p'.frame, isKernel, isWriteable, inKernelDir)
  {
  }

  lemma FlaggedStart(s: Paged, d: int, lo: int, isKernel: bool, isWriteable: bool, inKernelDir: bool)
    ensures Flagged(s, s, d, lo, lo, isKernel, isWriteable, inKernelDir)
  {
  }

  lemma FlaggedOld(s: Paged, r: Paged, d: int, a: int, isKernel: bool, isWriteable: bool, inKernelDir: bool)
    requires SameView(s, r) && EntryOf(r, d, a).frame != 0
    ensures Flagged(s, r, d, PageOf(a), PageOf(a) + 1, isKernel, isWriteable, inKernelDir)
  {
    forall v | Word(v) && PageOf(v) == PageOf(a) ensures EntryOf(s, d, v).frame != 0 {
      SamePart(v, a);
      assert EntryOf(r, d, v) == EntryOf(s, d, v);
    }
  }

  lemma FlaggedSet(s: Paged, s1: Paged, r: Paged, d: int, a: int, f: int, isKernel: bool, isWriteable: bool, inKernelDir: bool)
    requires SameView(s, s1) && Word(a) && Changed(s1, r, d, a, Granted(EntryOf(s1, d, a), f, isKernel, isWriteable, inKernelDir))
    ensures Flagged(s, r, d, PageOf(a), PageOf(a) + 1, isKernel, isWriteable, inKernelDir)
  {
    forall v | Word(v) && PageOf(v) == PageOf(a)
      ensures HasFlags(EntryOf(s, d, v), EntryOf(r, d, v), isKernel, isWriteable, inKernelDir)
    {
      SamePart(v, a);
      assert EntryOf(s1, d, v) == EntryOf(s, d, v);
    }
  }

  lemma FlaggedNext(s: Paged, s1: Paged, r: Paged, d: int, a: int, lo: int, hi: int, isKernel: bool, isWriteable: bool, inKernelDir: bool)
    requires RangeStep(s, s1, lo, hi) && PageStep(s1, r, a) && PageOf(a) == hi && lo <= hi
    requires Flagged(s, s1, d, lo, hi, isKernel, isWriteable, inKernelDir) && Flagged(s1, r, d, hi, hi + 1, isKernel, isWriteable, inKernelDir)
    ensures Flagged(s, r, d, lo, hi + 1, isKernel, isWriteable, inKernelDir)
  {
    hide PageOf, EntryOf, HasFlags;
  }

  lemma FlaggedBefore(s: Paged, s1: Paged, r: Paged, d: int, a: int, lo: int, hi: int, isKernel: bool, isWriteable: bool, inKernelDir: bool)
    requires RangeStep(s, s1, lo, hi) && PageStep(s1, r, a) && PageOf(a) == lo - 1 && lo <= hi
    requires Flagged(s, s1, d, lo, hi, isKernel, isWriteable, inKernelDir) && Flagged(s1, r, d, lo - 1, lo, isKernel, isWriteable, inKernelDir)
    ensures Flagged(s, r, d, lo - 1, hi, isKernel, isWriteable, inKernelDir)
  {
    hide PageOf, EntryOf, HasFlags;
  }

  lemma GivenNext(s: Paged, r: Paged, d: int, a: int, lo: int, hi: int)
    requires Given(s, d, lo, hi) && PageStep(s, r, a) && PageOf(a) == hi && Given(r, d, PageOf(a), PageOf(a) + 1)
    ensures Given(r, d, lo, hi + 1)
  {
    hide PageOf, EntryOf;
  }

  lemma GivenBefore(s: Paged, r: Paged, d: int, a: int, lo: int, hi: int)
    requires Given(s, d, lo, hi) && PageStep(s, r, a) && PageOf(a) == lo - 1 && Given(r, d, PageOf(a), PageOf(a) + 1)
    ensures Given(r, d, lo - 1, hi)
  {
    hide PageOf, EntryOf;
  }

  // ---------------------------------------------------------------- giving pages back

  /** p' has no frame; if p had one, p' is not present, and every other flag is as it was. */
  predicate Bare(p: Page, p': Page) {
    if p.frame == 0 then p' == p
    else p'.frame == 0 && !p'.present && p'.rw == p.rw && p'.user == p.user && p'.isKernel == p.isKernel && p'.accessed == p.accessed && p'.dirty == p.dirty
  }

  /** The page of a has no frame under d any more; other pages are as they were. */
  ghost predicate PageCleared(s: Paged, r: Paged, d: int, a: int) {
    && (forall v :: Word(v) && PageOf(v) == PageOf(a) ==> Bare(EntryOf(s, d, v), EntryOf(r, d, v)))
    && (forall e, v :: PageOf(v) != PageOf(a) ==> EntryOf(r, e, v) == EntryOf(s, e, v))
  }

  lemma ClearedSame(s: Paged, d: int, a: int)
    ensures EntryOf(s, d, a).frame == 0 ==> PageCleared(s, s, d, a)
  {
    forall v | Word(v) && PageOf(v) == PageOf(a) ensures EntryOf(s, d, v) == EntryOf(s, d, a) || !Word(a) {
      SamePart(v, a);
    }
  }

  lemma ClearedSet(s: Paged, r: Paged, d: int, a: int)
    requires Word(a) && EntryOf(s, d, a).frame != 0 && Changed(s, r, d, a, Emptied(EntryOf(s, d, a)))
    ensures PageCleared(s, r, d, a)
  {
    forall v | Word(v) && PageOf(v) == PageOf(a) ensures Bare(EntryOf(s, d, v), EntryOf(r, d, v)) {
      SamePart(v, a);
    }
  }

  /** The pages from lo up to hi have tables, and no frame that is set aside. */
  ghost predicate Clearable(s: Paged, d: int, reserved: set<int>, lo: int, hi: int) {
    d in s.dirs && forall v :: Word(v) && lo <= PageOf(v) < hi ==> Reached(s.dirs, d, v).PageAt? && EntryOf(s, d, v).frame !in reserved - {0}
  }

  ghost predicate RangeCleared(s: Paged, r: Paged, d: int, lo: int, hi: int) {
    && (forall v :: Word(v) && lo <= PageOf(v) < hi ==> Bare(EntryOf(s, d, v), EntryOf(r, d, v)))
    && (forall e, v :: PageOf(v) < lo || hi <= PageOf(v) ==> EntryOf(r, e, v) == EntryOf(s, e, v))
  }

  lemma ClearedStart(s: Paged, d: int, lo: int)
    ensures RangeCleared(s, s, d, lo, lo)
  {
  }

  lemma ClearableAt(s: Paged, s1: Paged, d: int, reserved: set<int>, lo: int, mid: int, hi: int, a: int)
    requires Clearable(s, d, reserved, lo, hi) && RangeCleared(s, s1, d, lo, mid) && s1.dirs == s.dirs && Word(a) && lo <= mid < hi && PageOf(a) == mid
    ensures d in s1.dirs && Reached(s1.dirs, d, a).PageAt? && EntryOf(s1, d, a).frame !in reserved - {0}
  {
  }

  lemma ClearedNext(s: Paged, s1: Paged, r: Paged, d: int, a: int, lo: int, hi: int)
    requires RangeCleared(s, s1, d, lo, hi) && PageCleared(s1, r, d, a) && PageOf(a) == hi && lo <= hi
    ensures RangeCleared(s, r, d, lo, hi + 1)
  {
    hide PageOf, EntryOf;
  }

  // ---------------------------------------------------------------- identity mapping

  /** Every page from lo up to hi is mapped to the frame of the same number. */
  ghost predicate Mirrored(s: Paged, d: int, lo: int, hi: int) {
    forall v :: Word(v) && lo <= PageOf(v) < hi ==> EntryOf(s, d, v).frame == PageOf(v)
  }

  /** The page of v is mapped so already, or it is unmapped and its frame is free or set aside. */
  ghost predicate MirrorableAt(s: Paged, d: int, reserved: set<int>, n: nat, v: int) {
    && (EntryOf(s, d, v).frame == 0 || EntryOf(s, d, v).frame == PageOf(v))
    && (EntryOf(s, d, v).frame == 0 ==> PageOf(v) < n && (PageOf(v) in reserved || PageOf(v) !in s.busy))
  }

  ghost predicate Mirrorable(s: Paged, d: int, reserved: set<int>, n: nat, lo: int, hi: int) {
    forall v :: Word(v) && lo <= PageOf(v) < hi ==> MirrorableAt(s, d, reserved, n, v)
  }

  /** The frames in use are those from before and some from lo up to hi. */
  ghost predicate BusyWithin(s: Paged, r: Paged, lo: int, hi: int) {
    s.busy <= r.busy && forall f :: f in r.busy ==> f in s.busy || lo <= f < hi
  }

  lemma MirroredSet(s: Paged, r: Paged, d: int, a: int, p: Page)
    requires Changed(s, r, d, a, p) && p.frame == PageOf(a)
    ensures Mirrored(r, d, PageOf(a), PageOf(a) + 1)
  {
  }

  lemma MirrorStart(s: Paged, d: int, lo: int)
    ensures Mirrored(s, d, lo, lo) && BusyWithin(s, s, lo, lo)
  {
  }

  /** Mapping the pages before mid leaves the page mid as it was. */
  lemma MirrorReached(s: Paged, s1: Paged, d: int, reserved: set<int>, n: nat, lo: int, mid: int, hi: int, a: int)
    requires Mirrorable(s, d, reserved, n, lo, hi) && RangeStep(s, s1, lo, mid) && lo <= mid < hi && Word(a) && PageOf(a) == mid
    requires BusyWithin(s, s1, lo, mid)
    ensures MirrorableAt(s1, d, reserved, n, a) && EntryOf(s1, d, a) == EntryOf(s, d, a)
    ensures forall v :: Word(v) && PageOf(v) == mid ==> EntryOf(s1, d, v) == EntryOf(s1, d, a)
  {
    forall v | Word(v) && PageOf(v) == mid ensures EntryOf(s1, d, v) == EntryOf(s1, d, a) {
      SamePart(v, a);
    }
    hide PageOf, EntryOf;
    assert MirrorableAt(s, d, reserved, n, a);
  }

  lemma MirrorNext(s: Paged, r: Paged, d: int, a: int, lo: int, hi: int)
    requires Mirrored(s, d, lo, hi) && PageStep(s, r, a) && PageOf(a) == hi && lo <= hi
    requires EntryOf(s, d, a).frame == 0 ==> Mirrored(r, d, hi, hi + 1)
    requires forall v :: Word(v) && PageOf(v) == hi ==> EntryOf(s, d, v) == EntryOf(s, d, a)
    requires EntryOf(s, d, a).frame == 0 || EntryOf(s, d, a).frame == hi
    ensures Mirrored(r, d, lo, hi + 1)
  {
    hide PageOf, EntryOf;
  }

  lemma BusyNext(s: Paged, s1: Paged, r: Paged, lo: int, hi: int)
    requires BusyWithin(s, s1, lo, hi) && BusyWithin(s1, r, hi, hi + 1) && lo <= hi
    ensures BusyWithin(s, r, lo, hi + 1)
  {
  }

  // ---------------------------------------------------------------- identity mapping again

  /** Identity mapping with these flags leaves the entry as it is. */
  predicate SettledPage(p: Page, frame: int, isKernel: bool, isWriteable: bool, inKernelDir: bool) {
    p.frame != 0 || p == Granted(p, frame, isKernel, isWriteable, inKernelDir)
  }

  ghost predicate Settled(s: Paged, d: int, lo: int, hi: int, isKernel: bool, isWriteable: bool, inKernelDir: bool) {
    forall v :: Word(v) && lo <= PageOf(v) < hi ==> SettledPage(EntryOf(s, d, v), PageOf(v), isKernel, isWriteable, inKernelDir)
  }

  lemma SettledAt(s: Paged, d: int, lo: int, hi: int, isKernel: bool, isWriteable: bool, inKernelDir: bool, a: int)
    requires Word(a) && lo <= PageOf(a) < hi
    ensures Settled(s, d, lo, hi, isKernel, isWriteable, inKernelDir) ==> SettledPage(EntryOf(s, d, a), PageOf(a), isKernel, isWriteable, inKernelDir)
  {
  }

  /** A range that has just been mapped is settled, page 0 included, whose frame stays 0. */
  lemma MirrorSettles(s: Paged, r: Paged, d: int, lo: int, hi: int, isKernel: bool, isWriteable: bool, inKernelDir: bool)
    requires RangeStep(s, r, lo, hi) && Mirrored(r, d, lo, hi) && Flagged(s, r, d, lo, hi, isKernel, isWriteable, inKernelDir)
    ensures Settled(r, d, lo, hi, isKernel, isWriteable, inKernelDir)
  {
    hide PageOf, EntryOf;
    forall v | Word(v) && lo <= PageOf(v) < hi ensures SettledPage(EntryOf(r, d, v), PageOf(v), isKernel, isWriteable, inKernelDir) {
      assert EntryOf(r, d, v).frame == 0 ==> EntryOf(s, d, v).frame == 0;
    }
  }

  /** Frame 0 exists and is set aside. */
  lemma ZeroReserved(s: Paged, kernel: int, reserved: set<int>, n: nat)
    requires Inv(s, kernel, reserved, n)
    ensures 0 < n && 0 in reserved
  {
  }

  /** No more frames are in use than there are. */
  lemma CountStays(s: Paged, kernel: int, reserved: set<int>, n: nat)
    requires Inv(s, kernel, reserved, n)
    ensures |s.busy| <= n
  {
    FreeCount(s.busy, n);
  }

  /** What is mapped to itself may be mapped to itself again. */
  lemma MirroredAgain(s: Paged, kernel: int, d: int, reserved: set<int>, n: nat, lo: int, hi: int)
    requires Inv(s, kernel, reserved, n) && Mirrored(s, d, lo, hi)
    ensures Mirrorable(s, d, reserved, n, lo, hi)
  {
    ZeroReserved(s, kernel, reserved, n);
    hide PageOf, EntryOf, Inv;
  }

  /** After one range has been mapped, another one that could be mapped still can, where they overlap too. */
  lemma MirrorableStays(s: Paged, r: Paged, kernel: int, d: int, reserved: set<int>, n: nat, lo: int, hi: int, lo': int, hi': int)
    requires Inv(r, kernel, reserved, n) && RangeStep(s, r, lo, hi) && Mirrored(r, d, lo, hi) && BusyWithin(s, r, lo, hi)
    requires Mirrorable(s, d, reserved, n, lo', hi')
    ensures Mirrorable(r, d, reserved, n, lo', hi')
  {
    ZeroReserved(r, kernel, reserved, n);
    hide PageOf, EntryOf, Inv;
    forall v | Word(v) && lo' <= PageOf(v) < hi' ensures MirrorableAt(r, d, reserved, n, v) {
      assert MirrorableAt(s, d, reserved, n, v);
    }
  }

  // ---------------------------------------------------------------- counting the pages without a frame

  /** How many of the k pages from lo on have no frame. */
  function Lacking(s: Paged, d: int, lo: int, k: nat): nat {
    if k == 0 then 0 else Lacking(s, d, lo, k - 1) + LacksAt(s, d, lo + k - 1)
  }

  lemma LackingStart(s: Paged, d: int, lo: int)
    ensures Lacking(s, d, lo, 0) == 0
  {
  }

  function LacksAt(s: Paged, d: int, page: int): nat {
    if EntryOf(s, d, page * PAGE_SIZE).frame == 0 then 1 else 0
  }

  lemma {:induction false} LackingFront(s: Paged, d: int, lo: int, k: nat)
    ensures Lacking(s, d, lo - 1, k + 1) == LacksAt(s, d, lo - 1) + Lacking(s, d, lo, k)
  {
    if k == 0 {
      assert Lacking(s, d, lo - 1, 0) == 0;
    } else {
      LackingFront(s, d, lo, k - 1);
    }
  }

  /** All pages of a longer run at the same start. */
  lemma {:induction false} LackingMore(s: Paged, d: int, lo: int, k: nat, m: nat)
    requires k <= m
    ensures Lacking(s, d, lo, k) <= Lacking(s, d, lo, m)
  {
    if k < m { LackingMore(s, d, lo, k, m - 1); }
  }

  /** And of a longer run to the same end. */
  lemma {:induction false} LackingBefore(s: Paged, d: int, hi: int, k: nat, m: nat)
    requires k <= m
    ensures Lacking(s, d, hi - k, k) <= Lacking(s, d, hi - m, m)
  {
    if k < m {
      LackingBefore(s, d, hi, k, m - 1);
      LackingFront(s, d, hi - m + 1, m - 1);
    }
  }

  /** What the page of a lacks, told at a. */
  lemma LacksHere(s: Paged, d: int, a: int)
    requires Word(a)
    ensures LacksAt(s, d, PageOf(a)) == if EntryOf(s, d, a).frame == 0 then 1 else 0
  {
    SamePart(PageOf(a) * PAGE_SIZE, a);
  }

  lemma LackingNext(s: Paged, s1: Paged, d: int, a: int, lo: int, k: nat)
    requires RangeStep(s, s1, lo, lo + k) && Word(a) && PageOf(a) == lo + k
    ensures Lacking(s, d, lo, k + 1) == Lacking(s, d, lo, k) + if EntryOf(s1, d, a).frame == 0 then 1 else 0
  {
    hide PageOf, EntryOf, LacksAt, RangeStep;
    RangeOutside(s, s1, d, a, lo, lo + k);
    LacksHere(s, d, a);
  }

  lemma RangeOutside(s: Paged, s1: Paged, d: int, a: int, lo: int, hi: int)
    requires RangeStep(s, s1, lo, hi) && (PageOf(a) < lo || hi <= PageOf(a))
    ensures EntryOf(s1, d, a) == EntryOf(s, d, a)
  {
    hide PageOf, EntryOf;
  }

  lemma LackingPrevious(s: Paged, s1: Paged, d: int, a: int, hi: int, k: nat)
    requires RangeStep(s, s1, hi - k, hi) && Word(a) && PageOf(a) == hi - k - 1
    ensures Lacking(s, d, hi - k - 1, k + 1) == Lacking(s, d, hi - k, k) + if EntryOf(s1, d, a).frame == 0 then 1 else 0
  {
    hide PageOf, EntryOf, LacksAt, Lacking, RangeStep;
    RangeOutside(s, s1, d, a, hi - k, hi);
    LackingFront(s, d, hi - k, k);
    LacksHere(s, d, a);
  }

  lemma MirroredStays(s: Paged, r: Paged, d: int, lo: int, hi: int, lo': int, hi': int)
    requires Mirrored(s, d, lo', hi') && RangeStep(s, r, lo, hi) && Mirrored(r, d, lo, hi)
    ensures Mirrored(r, d, lo', hi')
  {
    hide PageOf, EntryOf;
  }
}
