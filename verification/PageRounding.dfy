/**
 How address ranges become ranges of pages, in 32-bit arithmetic: the XORs of allocFramesMirrored
 (paging.c, lines 105-117) and the masks of the ELF loaders (paging.c, lines 154-166, and task.c,
 lines 173-185). Each range is run through by a loop that stops, and reaches every page it should,
 under an exact condition on the range.
 */
module PageRounding {
  import opened Machine
  import opened PageDirs
  import opened PageRanges

  const PAGES := 0x10_0000

  // ---------------------------------------------------------------- the bits

  /** The unsigned value of a word of bits. */
  function Number(x: bv32): int {
    x as int
  }

  /** x ^ (PAGE_SIZE - 1) */
  function FlipLow(x: int): int {
    x - x % PAGE_SIZE + (PAGE_SIZE - 1 - x % PAGE_SIZE)
  }

  /** x & -(PAGE_SIZE - 1): the lowest bit of x survives. */
  function MaskOdd(x: int): int {
    x - x % PAGE_SIZE + x % 2
  }

  lemma FlippedParts(x: bv32)
    ensures Number(x ^ 0xFFF) == Number(x & 0xFFFF_F000) + Number((x ^ 0xFFF) & 0xFFF)
  {
  }

  lemma PartsOf(x: bv32, high: bv32, low: bv32, y: bv32)
    requires x == y ^ 0xFFF && high == y & 0xFFFF_F000 && low == (y ^ 0xFFF) & 0xFFF
    ensures Number(x) == Number(high) + Number(low)
  {
    hide *;
    FlippedParts(y);
  }

  lemma BitParts(x: bv32)
    ensures Number(x) == Number(x & 0xFFFF_F000) + Number(x & 0xFFF)
  {
    hide *;
    PartsOf(x, x & 0xFFFF_F000, x & 0xFFF, x ^ 0xFFF);
  }

  lemma FlippedLow(x: bv32)
    ensures Number((x ^ 0xFFF) & 0xFFF) + Number(x & 0xFFF) == 0xFFF
  {
  }

  lemma BitBounds(x: bv32)
    ensures 0 <= Number(x & 0xFFF) < PAGE_SIZE && Number(x & 0xFFFF_F000) % PAGE_SIZE == 0
  {
  }

  lemma MaskedParts(x: bv32)
    ensures Number(x & (0 - 0xFFF)) == Number(x & 0xFFFF_F000) + Number(x & 1)
  {
  }

  lemma LowestBit(x: bv32)
    ensures Number(x & 0xFFF) == Number(x & 0xFFE) + Number(x & 1) && Number(x & 0xFFE) % 2 == 0 && 0 <= Number(x & 1) < 2
  {
  }

  lemma FlipValue(high: int, low: int)
    requires high % PAGE_SIZE == 0 && 0 <= low < PAGE_SIZE
    ensures FlipLow(high + low) == high + 0xFFF - low
  {
  }

  lemma MaskValue(high: int, low: int, even: int, bit: int)
    requires high % PAGE_SIZE == 0 && 0 <= low < PAGE_SIZE && low == even + bit && even % 2 == 0 && 0 <= bit < 2
    ensures MaskOdd(high + low) == high + bit
  {
    OffsetOf(high, low);
    var k, j := high / PAGE_SIZE, even / 2;
    assert high + low == 2 * (2048 * k + j) + bit;
    ParityOf(2048 * k + j, bit);
  }

  lemma OffsetOf(high: int, low: int)
    requires high % PAGE_SIZE == 0 && 0 <= low < PAGE_SIZE
    ensures (high + low) % PAGE_SIZE == low
  {
  }

  lemma ParityOf(n: int, bit: int)
    requires 0 <= bit < 2
    ensures (2 * n + bit) % 2 == bit
  {
  }

  lemma FlipIsXor(x: bv32)
    ensures Number(x ^ 0xFFF) == FlipLow(Number(x))
  {
    hide *;
    BitParts(x);
    BitBounds(x);
    FlippedParts(x);
    FlippedLow(x);
    FlipValue(Number(x & 0xFFFF_F000), Number(x & 0xFFF));
  }

  lemma MaskIsAnd(x: bv32)
    ensures Number(x & (0 - 0xFFF)) == MaskOdd(Number(x))
  {
    hide *;
    BitParts(x);
    BitBounds(x);
    MaskedParts(x);
    LowestBit(x);
    MaskValue(Number(x & 0xFFFF_F000), Number(x & 0xFFF), Number(x & 0xFFE), Number(x & 1));
  }

  // ---------------------------------------------------------------- pages and offsets

  /** A loop between two places given by page and offset. */
  lemma OffsetSteps(p: int, o: int, q: int, f: int)
    requires 0 <= o < PAGE_SIZE && 0 <= f < PAGE_SIZE && p <= q
    ensures p + Steps(p * PAGE_SIZE + o, q * PAGE_SIZE + f) == q + if o < f then 1 else 0
    ensures Ends(p * PAGE_SIZE + o, q * PAGE_SIZE + f) <==> q + (if o < f then 1 else 0) < PAGES
  {
  }

  /** A loop that ends within the first two pages gets no further than page 2. */
  lemma ShortLoop(s: int, e: int, hi: int)
    requires 0 <= s && e < 2 * PAGE_SIZE && PageOf(s) < hi && 2 < hi
    ensures PageOf(s) + Steps(s, e) < hi
  {
  }

  lemma MaskParts(x: int)
    ensures MaskOdd(x) == PageOf(x) * PAGE_SIZE + x % 2
  {
  }

  lemma FlipParts(x: int)
    ensures FlipLow(x) == PageOf(x) * PAGE_SIZE + (PAGE_SIZE - 1 - x % PAGE_SIZE)
  {
  }

  lemma Parity(x: int)
    ensures x % PAGE_SIZE == 0 ==> x % 2 == 0
  {
  }

  lemma LastPage(b: int)
    ensures PageOf(b - 1) == if b % PAGE_SIZE == 0 then PageOf(b) - 1 else PageOf(b)
  {
  }

  lemma PartPage(p: int, o: int)
    requires 0 <= o < PAGE_SIZE
    ensures PageOf(p * PAGE_SIZE + o) == p && (p * PAGE_SIZE + o) % PAGE_SIZE == o
  {
  }

  lemma PageOrder(a: int, b: int)
    requires a <= b
    ensures PageOf(a) <= PageOf(b)
  {
  }

  lemma PageBound(a: int, q: int)
    ensures a < q * PAGE_SIZE <==> PageOf(a) < q
  {
  }

  // ---------------------------------------------------------------- identity mapping

  /** Lines 106-108. */
  function FlipStart(start: int): int {
    if start != 0 then FlipLow(start) else 0
  }

  function FlipEnd(end: int): int {
    Wrap(FlipLow(end) + PAGE_SIZE)
  }

  /** One page more is visited exactly when end lies less far into its page than start into its own. */
  predicate OneMore(start: int, end: int) {
    if start == 0 then end % PAGE_SIZE < PAGE_SIZE - 1 else end % PAGE_SIZE < start % PAGE_SIZE
  }

  /** The page after the last one visited. */
  function MirrorLimit(start: int, end: int): int {
    PageOf(end) + 1 + if OneMore(start, end) then 1 else 0
  }

  /** end lies below the last two pages of the address space, or in the lower of them when no page more is visited. */
  predicate MirrorSound(start: int, end: int) {
    end < TWO32 - 2 * PAGE_SIZE || (end < TWO32 - PAGE_SIZE && !OneMore(start, end))
  }

  /** How far the start, XORed, lies into its page; the page stays. */
  function FlipOffset(start: int): int {
    if start == 0 then 0 else PAGE_SIZE - 1 - start % PAGE_SIZE
  }

  lemma FlipShape(start: int, end: int)
    requires Word(start) && Word(end)
    ensures FlipStart(start) == PageOf(start) * PAGE_SIZE + FlipOffset(start) && 0 <= FlipOffset(start) < PAGE_SIZE
    ensures Word(FlipStart(start)) && Word(FlipEnd(end)) && PageOf(FlipStart(start)) == PageOf(start)
    ensures if end < TWO32 - PAGE_SIZE then FlipEnd(end) == (PageOf(end) + 1) * PAGE_SIZE + (PAGE_SIZE - 1 - end % PAGE_SIZE)
            else FlipEnd(end) < PAGE_SIZE
  {
    FlipParts(start);
    FlipParts(end);
    PageBound(start, PAGES);
    PageBound(end, PAGES);
    PageBound(end, PAGES - 1);
    WrapIs(FlipLow(end) + PAGE_SIZE);
    PartPage(PageOf(start), FlipOffset(start));
    hide PageOf, FlipLow, Wrap;
  }

  lemma FlipSteps(start: int, end: int)
    requires Word(start) && end < TWO32 - PAGE_SIZE && start <= end
    ensures PageOf(start) + Steps(FlipStart(start), FlipEnd(end)) == MirrorLimit(start, end)
    ensures Ends(FlipStart(start), FlipEnd(end)) <==> MirrorSound(start, end)
  {
    FlipShape(start, end);
    PageOrder(start, end);
    PageBound(end, PAGES - 2);
    PageBound(end, PAGES - 1);
    OffsetSteps(PageOf(start), FlipOffset(start), PageOf(end) + 1, PAGE_SIZE - 1 - end % PAGE_SIZE);
    hide PageOf, FlipStart, FlipEnd, Steps, Ends;
  }

  /** allocFramesMirrored stops after visiting every page from start's to end's, both included, exactly when MirrorSound. */
  lemma MirrorExactly(start: int, end: int)
    requires Word(start) && Word(end) && start <= end
    ensures LoopCovers(FlipStart(start), FlipEnd(end), PageOf(start), PageOf(end) + 1) <==> MirrorSound(start, end)
  {
    FlipShape(start, end);
    PageOrder(start, end);
    CoversExactly(FlipStart(start), FlipEnd(end), PageOf(start), PageOf(end) + 1);
    if end < TWO32 - PAGE_SIZE {
      FlipSteps(start, end);
    } else {
      PageBound(end, PAGES - 1);
      hide PageOf, FlipStart, FlipEnd, Steps, Ends, LoopCovers;
      ShortLoop(FlipStart(start), FlipEnd(end), PageOf(end) + 1);
    }
  }

  /** An end in the last page: nothing is mapped. */
  lemma MirrorLastPage()
    ensures StopsAfter(FlipStart(0xFFFF_E000), FlipEnd(0xFFFF_F000), 0)
  {
    assert FlipStart(0xFFFF_E000) == 0xFFFF_EFFF && FlipEnd(0xFFFF_F000) == 0xFFF;
  }

  /** An end in the page before, less far into it than the start into its own: the loop never stops. */
  lemma MirrorEndless()
    ensures forall n: nat :: !StopsAfter(FlipStart(0xFFFF_D001), FlipEnd(0xFFFF_E000), n)
  {
    assert FlipStart(0xFFFF_D001) == 0xFFFF_DFFE && FlipEnd(0xFFFF_E000) == 0xFFFF_FFFF;
    EndsExactly(FlipStart(0xFFFF_D001), FlipEnd(0xFFFF_E000));
  }

  // ---------------------------------------------------------------- sections of programs

  /** Lines 173-183 of task.c: the first and the limit of the range for a section at addr with size bytes. */
  function SectionStart(addr: int): int {
    Wrap(MaskOdd(addr) - if addr % PAGE_SIZE != 0 then PAGE_SIZE else 0)
  }

  function SectionEnd(addr: int, size: int): int {
    var b := Wrap(addr + size);
    Wrap(MaskOdd(b) + if b % PAGE_SIZE != 0 then PAGE_SIZE else 0)
  }

  /** One page before the section unless it starts on a page; one after it when it ends at an odd address and starts at an even one. */
  function FirstPage(addr: int): int {
    PageOf(addr) - if addr % PAGE_SIZE != 0 then 1 else 0
  }

  function PageLimit(addr: int, size: int): int {
    PageOf(addr + size - 1) + 1 + if addr % 2 == 0 && (addr + size) % 2 == 1 then 1 else 0
  }

  /** The section does not begin inside page 0, ends below the last page, and no page more than that is visited. */
  predicate SectionSound(addr: int, size: int) {
    && (addr == 0 || PAGE_SIZE <= addr) && addr + size <= TWO32 - PAGE_SIZE
    && !(addr % 2 == 0 && (addr + size) % 2 == 1 && addr + size > TWO32 - 2 * PAGE_SIZE)
  }

  lemma StartShape(addr: int)
    requires Word(addr) && (addr == 0 || PAGE_SIZE <= addr)
    ensures SectionStart(addr) == FirstPage(addr) * PAGE_SIZE + addr % 2 && 0 <= FirstPage(addr) <= PageOf(addr)
    ensures Word(SectionStart(addr)) && PageOf(SectionStart(addr)) == FirstPage(addr) && SectionStart(addr) % PAGE_SIZE == addr % 2
  {
    MaskParts(addr);
    PageBound(addr, 1);
    PageBound(addr, PAGES);
    WrapIs(FirstPage(addr) * PAGE_SIZE + addr % 2);
    PartPage(FirstPage(addr), addr % 2);
    hide PageOf, MaskOdd, Wrap;
    assert addr == 0 ==> addr % PAGE_SIZE == 0;
  }

  /** A start inside page 0 comes out in the last page. */
  lemma StartWraps(addr: int)
    requires 0 < addr < PAGE_SIZE
    ensures SectionStart(addr) == TWO32 - PAGE_SIZE + addr % 2 && PageOf(SectionStart(addr)) == PAGES - 1
  {
    MaskParts(addr);
    WrapIs(addr % 2 - PAGE_SIZE);
    PartPage(PAGES - 1, addr % 2);
  }

  lemma EndShape(addr: int, size: int)
    requires Word(addr) && 0 < size && addr + size <= TWO32 - PAGE_SIZE
    ensures SectionEnd(addr, size) == (PageOf(addr + size - 1) + 1) * PAGE_SIZE + (addr + size) % 2
    ensures PageOf(addr) <= PageOf(addr + size - 1) < PAGES - 1 && Word(SectionEnd(addr, size))
    ensures addr + size > TWO32 - 2 * PAGE_SIZE <==> PageOf(addr + size - 1) == PAGES - 2
  {
    var b := addr + size;
    MaskParts(b);
    LastPage(b);
    Parity(b);
    PageOrder(addr, b - 1);
    PageBound(b - 1, PAGES - 1);
    PageBound(b - 1, PAGES - 2);
    WrapIs(b);
    WrapIs((PageOf(b - 1) + 1) * PAGE_SIZE + b % 2);
    hide PageOf, MaskOdd, Wrap;
  }

  /** An end inside the last page, or at the end of the address space, comes out at 0 or 1. */
  lemma EndWraps(addr: int, size: int)
    requires Word(addr) && 0 < size && TWO32 - PAGE_SIZE < addr + size <= TWO32
    ensures 0 <= SectionEnd(addr, size) <= 1 && PageOf(addr + size - 1) == PAGES - 1
  {
    var b := addr + size;
    MaskParts(b);
    LastPage(b);
    Parity(b);
    PageBound(b - 1, PAGES);
    PageBound(b - 1, PAGES - 1);
    WrapIs(b);
    MaskParts(0);
    WrapIs((PAGES - 1) * PAGE_SIZE + b % 2 + PAGE_SIZE);
    assert PageOf(b) == PAGES - 1 || b == TWO32;
    hide PageOf, MaskOdd, Wrap;
  }

  lemma SectionSteps(addr: int, size: int)
    requires Word(addr) && 0 < size && (addr == 0 || PAGE_SIZE <= addr) && addr + size <= TWO32 - PAGE_SIZE
    ensures PageOf(SectionStart(addr)) == FirstPage(addr)
    ensures FirstPage(addr) + Steps(SectionStart(addr), SectionEnd(addr, size)) == PageLimit(addr, size)
    ensures Ends(SectionStart(addr), SectionEnd(addr, size)) <==> SectionSound(addr, size)
  {
    StartShape(addr);
    EndShape(addr, size);
    hide PageOf, SectionStart, SectionEnd, Steps, Ends;
    OffsetSteps(FirstPage(addr), addr % 2, PageOf(addr + size - 1) + 1, (addr + size) % 2);
  }

  /** The loop of makeTaskFromELF stops after visiting every page of a nonempty section exactly when SectionSound. */
  lemma SectionExactly(addr: int, size: int)
    requires 0 <= addr && 0 < size && addr + size <= TWO32
    ensures LoopCovers(SectionStart(addr), SectionEnd(addr, size), PageOf(addr), PageOf(addr + size - 1) + 1) <==> SectionSound(addr, size)
  {
    PageOrder(addr, addr + size - 1);
    SectionWords(addr, size);
    CoversExactly(SectionStart(addr), SectionEnd(addr, size), PageOf(addr), PageOf(addr + size - 1) + 1);
    if 0 < addr < PAGE_SIZE {
      StartWraps(addr);
      PageBound(addr, 1);
    } else if addr + size <= TWO32 - PAGE_SIZE {
      SectionSteps(addr, size);
      StartShape(addr);
      hide PageOf, SectionStart, SectionEnd, Steps, Ends, LoopCovers;
    } else {
      EndWraps(addr, size);
      StartShape(addr);
      hide PageOf, SectionStart, SectionEnd, Steps, Ends, LoopCovers;
      ShortLoop(SectionStart(addr), SectionEnd(addr, size), PageOf(addr + size - 1) + 1);
    }
  }

  /** The loop goes on for ever exactly when the section ends at an odd address in the page before the last, and starts at an even one. */
  lemma SectionStops(addr: int, size: int)
    requires 0 <= addr && 0 < size && addr + size <= TWO32
    ensures Ends(SectionStart(addr), SectionEnd(addr, size)) <==>
              !(addr % 2 == 0 && (addr + size) % 2 == 1 && TWO32 - 2 * PAGE_SIZE < addr + size < TWO32 - PAGE_SIZE)
  {
    SectionWords(addr, size);
    if addr + size > TWO32 - PAGE_SIZE {
      EndWraps(addr, size);
      BriefLoop(SectionStart(addr), SectionEnd(addr, size));
    } else if 0 < addr < PAGE_SIZE {
      StartWraps(addr);
      EndShape(addr, size);
      if PageOf(addr + size - 1) == PAGES - 2 {
        OffsetSteps(PAGES - 1, addr % 2, PAGES - 1, (addr + size) % 2);
      } else {
        BriefLoop(SectionStart(addr), SectionEnd(addr, size));
      }
      Parity(addr + size);
    } else {
      SectionSteps(addr, size);
      Parity(addr + size);
    }
  }

  lemma BriefLoop(s: int, e: int)
    requires Word(s) && (e <= 1 || e <= s)
    ensures Ends(s, e)
  {
  }

  lemma SectionWords(addr: int, size: int)
    ensures Word(SectionStart(addr)) && Word(SectionEnd(addr, size))
  {
  }

  /** A section that begins inside page 0: the loop does not run at all. */
  lemma SectionFirstPage()
    ensures StopsAfter(SectionStart(0x10), SectionEnd(0x10, 0x2000), 0)
  {
    assert SectionStart(0x10) == 0xFFFF_F000 && SectionEnd(0x10, 0x2000) == 0x3000;
  }

  /** One that ends inside the last page, and one that ends with it: neither does it. */
  lemma SectionLastPage()
    ensures StopsAfter(SectionStart(0xFFFF_E000), SectionEnd(0xFFFF_E000, 0x1001), 0)
    ensures StopsAfter(SectionStart(0xFFFF_0000), SectionEnd(0xFFFF_0000, 0x1_0000), 0)
  {
    assert SectionStart(0xFFFF_E000) == 0xFFFF_E000 && SectionEnd(0xFFFF_E000, 0x1001) == 1;
    assert SectionStart(0xFFFF_0000) == 0xFFFF_0000 && SectionEnd(0xFFFF_0000, 0x1_0000) == 0;
  }

  /** One that ends at an odd address in the page before, and starts at an even one: the loop never stops. */
  lemma SectionEndless()
    ensures forall n: nat :: !StopsAfter(SectionStart(0xFFFF_D000), SectionEnd(0xFFFF_D000, 0x1001), n)
  {
    assert SectionStart(0xFFFF_D000) == 0xFFFF_D000 && SectionEnd(0xFFFF_D000, 0x1001) == 0xFFFF_F001;
    EndsExactly(0xFFFF_D000, 0xFFFF_F001);
  }

  // ---------------------------------------------------------------- sections of the kernel

  /** Lines 156-164 of paging.c with the XORs of the call. */
  function KernelStart(addr: int): int {
    FlipStart(SectionStart(addr))
  }

  function KernelEnd(addr: int, size: int): int {
    FlipEnd(MaskOdd(Wrap(addr + size)))
  }

  /** The section does not begin inside page 0, and its range is mapped soundly. */
  predicate KernelSound(addr: int, size: int) {
    (addr == 0 || PAGE_SIZE <= addr) && MirrorSound(SectionStart(addr), MaskOdd(addr + size))
  }

  lemma MaskedEnd(b: int)
    requires 0 <= b <= TWO32
    ensures PageOf(MaskOdd(b)) == PageOf(b) && MaskOdd(b) % PAGE_SIZE == b % 2 && 0 <= MaskOdd(b)
    ensures b < TWO32 ==> Word(MaskOdd(b)) && Wrap(b) == b
    ensures b == TWO32 ==> MaskOdd(b) == TWO32 && Wrap(b) == 0 && MaskOdd(0) == 0
    ensures MaskOdd(b) < TWO32 - PAGE_SIZE <==> b < TWO32 - PAGE_SIZE
  {
    MaskParts(b);
    MaskParts(0);
    PartPage(PageOf(b), b % 2);
    PageBound(b, PAGES);
    PageBound(MaskOdd(b), PAGES);
    PageBound(b, PAGES - 1);
    PageBound(MaskOdd(b), PAGES - 1);
    PageBound(b, 0);
    WrapIs(b);
    hide PageOf, MaskOdd;
  }

  lemma KernelSteps(addr: int, size: int)
    requires 0 <= addr && 0 < size && (addr == 0 || PAGE_SIZE <= addr) && addr + size < TWO32 - PAGE_SIZE
    ensures PageOf(KernelStart(addr)) == FirstPage(addr) <= PageOf(addr)
    ensures FirstPage(addr) + Steps(KernelStart(addr), KernelEnd(addr, size)) == PageOf(addr + size) + 1 + if OneMore(SectionStart(addr), MaskOdd(addr + size)) then 1 else 0
    ensures Ends(KernelStart(addr), KernelEnd(addr, size)) <==> KernelSound(addr, size)
  {
    StartShape(addr);
    MaskedEnd(addr + size);
    KernelOrder(addr, size);
    FlipShape(SectionStart(addr), MaskOdd(addr + size));
    FlipSteps(SectionStart(addr), MaskOdd(addr + size));
    hide PageOf, SectionStart, MaskOdd, FlipStart, FlipEnd, Steps, Ends, Wrap, OneMore;
  }

  lemma KernelOrder(addr: int, size: int)
    requires 0 <= addr && 0 < size && (addr == 0 || PAGE_SIZE <= addr) && addr + size < TWO32
    ensures SectionStart(addr) <= MaskOdd(addr + size)
  {
    StartShape(addr);
    MaskParts(addr + size);
    PageOrder(addr, addr + size);
    Parity(addr);
    hide PageOf, SectionStart, MaskOdd;
  }

  /** allocKernelSection maps every page of a nonempty section, and stops, exactly when KernelSound. */
  lemma KernelExactly(addr: int, size: int)
    requires 0 <= addr && 0 < size && addr + size <= TWO32
    ensures LoopCovers(KernelStart(addr), KernelEnd(addr, size), PageOf(addr), PageOf(addr + size - 1) + 1) <==> KernelSound(addr, size)
  {
    var b := addr + size;
    PageOrder(addr, b - 1);
    PageOrder(b - 1, b);
    SectionWords(addr, size);
    MaskedEnd(b);
    FlipShape(SectionStart(addr), MaskOdd(Wrap(b)));
    CoversExactly(KernelStart(addr), KernelEnd(addr, size), PageOf(addr), PageOf(b - 1) + 1);
    if 0 < addr < PAGE_SIZE {
      StartWraps(addr);
      PageBound(addr, 1);
    } else if b < TWO32 - PAGE_SIZE {
      KernelSteps(addr, size);
      hide PageOf, SectionStart, MaskOdd, FlipStart, FlipEnd, Steps, Ends, Wrap, OneMore, LoopCovers;
    } else {
      StartShape(addr);
      PageBound(b - 1, PAGES - 2);
      KernelEndWraps(b);
      hide PageOf, SectionStart, MaskOdd, FlipStart, FlipEnd, Steps, Ends, Wrap, OneMore, LoopCovers;
      ShortLoop(KernelStart(addr), KernelEnd(addr, size), PageOf(b - 1) + 1);
    }
  }

  lemma KernelEndWraps(b: int)
    requires TWO32 - PAGE_SIZE <= b <= TWO32
    ensures FlipEnd(MaskOdd(Wrap(b))) < 2 * PAGE_SIZE
  {
    MaskedEnd(b);
    FlipShape(0, MaskOdd(Wrap(b)));
    if b == TWO32 { assert FlipEnd(0) == 0x1FFF; }
    hide PageOf, MaskOdd, Wrap, FlipEnd;
  }

  /** A section that begins inside page 0, and one that ends where the last page begins: nothing is mapped. */
  lemma KernelLost()
    ensures StopsAfter(KernelStart(0x10), KernelEnd(0x10, 0x2000), 0)
    ensures StopsAfter(KernelStart(0xFFFF_E000), KernelEnd(0xFFFF_E000, 0x1000), 0)
  {
    assert SectionStart(0x10) == 0xFFFF_F000 && KernelStart(0x10) == 0xFFFF_FFFF && KernelEnd(0x10, 0x2000) == 0x3FFF;
    assert SectionStart(0xFFFF_E000) == 0xFFFF_E000 && KernelStart(0xFFFF_E000) == 0xFFFF_EFFF && KernelEnd(0xFFFF_E000, 0x1000) == 0xFFF;
  }

  /** One from an odd address to an even one in the page before the last: the loop never stops. */
  lemma KernelEndless()
    ensures forall n: nat :: !StopsAfter(KernelStart(0xFFFF_D001), KernelEnd(0xFFFF_D001, 0x1001), n)
  {
    assert SectionStart(0xFFFF_D001) == 0xFFFF_C001 && KernelStart(0xFFFF_D001) == 0xFFFF_CFFE && KernelEnd(0xFFFF_D001, 0x1001) == 0xFFFF_FFFF;
    EndsExactly(0xFFFF_CFFE, 0xFFFF_FFFF);
  }
}
