/** Memory for sections of programs: identity mapping for the kernel's, free frames for a process's. */
module PageSections {
  import opened FrameBitmap
  import opened Machine
  import opened PageDirs
  import opened PageManager
  import opened PageRanges
  import opened PageRounding
  import opened PageTables

  // ---------------------------------------------------------------- sections of a program

  lemma SectionCovered(s: Paged, d: int, addr: int, size: int)
    requires Word(addr) && 0 < size && SectionSound(addr, size)
    requires Given(s, d, PageOf(SectionStart(addr)), PageOf(SectionStart(addr)) + Steps(SectionStart(addr), SectionEnd(addr, size)))
    ensures forall v :: addr <= v < addr + size ==> EntryOf(s, d, v).frame != 0
  {
    SectionSteps(addr, size);
    hide EntryOf, PageOf, SectionStart, SectionEnd, Steps;
    forall v | addr <= v < addr + size ensures EntryOf(s, d, v).frame != 0 {
      PageOrder(addr, v);
      PageOrder(v, addr + size - 1);
    }
  }

  /** Lines 173-183 of task.c. */
  method SectionRange(addr: int, size: int) returns (start: int, end: int)
    requires Word(addr) && Word(size)
    ensures start == SectionStart(addr) && end == SectionEnd(addr, size) && Word(start) && Word(end)
  {
    start := MaskOdd(addr);
    end := MaskOdd(Wrap(addr + size));
    var startAppendix := addr % PAGE_SIZE;
    var endAppendix := Wrap(addr + size) % PAGE_SIZE;
    WrapIs(start);
    WrapIs(end);
    MaskWord(addr);
    MaskWord(Wrap(addr + size));
    if startAppendix != 0 {
      start := Wrap(start - PAGE_SIZE);
    }
    if endAppendix != 0 {
      end := Wrap(end + PAGE_SIZE);
    }
    SectionWords(addr, size);
  }

  lemma MaskWord(x: int)
    requires Word(x)
    ensures Word(MaskOdd(x))
  {
  }

  /**
   makeTaskFromELF, for one section: where the loop stops and there are as many free frames as pages
   without one, each of those pages gets a frame; then every page a section touches has one, if the
   section is sound.
   */
  method AllocSection(p: Paging, addr: int, size: int, isWriteable: bool) returns (ok: bool)
    requires p.Valid() && Word(addr) && Word(size) && Ends(SectionStart(addr), SectionEnd(addr, size))
    modifies p`tables, p`dirs, p`brk, p.bitmap.frames
    ensures p.Valid() && p.frames == old(p.frames)
    ensures var lo, k := PageOf(SectionStart(addr)), Steps(SectionStart(addr), SectionEnd(addr, size));
            && RangeStep(old(p.State()), p.State(), lo, lo + k)
            && (ok <==> |old(p.InUse())| + Lacking(old(p.State()), p.currentDir, lo, k) <= p.N())
            && (ok ==> |p.InUse()| == |old(p.InUse())| + Lacking(old(p.State()), p.currentDir, lo, k))
            && (ok ==> Given(p.State(), p.currentDir, lo, lo + k))
            && (ok ==> Flagged(old(p.State()), p.State(), p.currentDir, lo, lo + k, false, isWriteable, p.currentDir == p.kernelDir))
    ensures ok && 0 < size && SectionSound(addr, size) ==> forall v :: addr <= v < addr + size ==> EntryOf(p.State(), p.currentDir, v).frame != 0
  {
    var start, end := SectionRange(addr, size);
    hide Busy, Inv, RangeStep, Flagged, Steps, EntryOf, Given, PageOf, Lacking, SectionStart, SectionEnd, SectionSound, Ends;
    ok := p.AllocFrames(start, end, false, isWriteable);
    if ok && 0 < size && SectionSound(addr, size) {
      SectionCovered(p.State(), p.currentDir, addr, size);
    }
  }

  // ---------------------------------------------------------------- identity mapping

  /**
   allocFramesMirrored, where the loop stops, on pages that are unmapped or mapped so already. Pages
   that are keep their entries, so that a second call changes nothing at all.
   */
  method AllocFramesMirrored(p: Paging, start: int, end: int, isKernel: bool, isWriteable: bool)
    requires p.Valid() && Word(start) && Word(end) && Ends(FlipStart(start), FlipEnd(end)) && p.currentDir == p.kernelDir
    requires Mirrorable(p.State(), p.currentDir, p.reserved, p.N(), PageOf(start), PageOf(start) + Steps(FlipStart(start), FlipEnd(end)))
    modifies p`tables, p`dirs, p`brk, p.bitmap.frames
    ensures p.Valid() && p.frames == old(p.frames)
    ensures var lo, hi := PageOf(start), PageOf(start) + Steps(FlipStart(start), FlipEnd(end));
            && Mirrored(p.State(), p.currentDir, lo, hi)
            && RangeStep(old(p.State()), p.State(), lo, hi)
            && Flagged(old(p.State()), p.State(), p.currentDir, lo, hi, isKernel, isWriteable, true)
            && BusyWithin(old(p.State()), p.State(), lo, hi)
            && (Settled(old(p.State()), p.currentDir, lo, hi, isKernel, isWriteable, true) ==> p.State() == old(p.State()))
            && Settled(p.State(), p.currentDir, lo, hi, isKernel, isWriteable, true)
  {
    FlipShape(start, end);
    var s := if start != 0 then FlipLow(start) else 0;
    var e := Wrap(FlipLow(end) + PAGE_SIZE);
    assert s == FlipStart(start) && e == FlipEnd(end);
    hide Busy, Inv, Mirrorable, Mirrored, RangeStep, Flagged, Steps, FlipLow, FlipStart, FlipEnd, PageOf, EntryOf, BusyWithin, Settled, Ends, Wrap;
    p.MirrorRange(s, e, isKernel, isWriteable);
    MirrorSettles(old(p.State()), p.State(), p.currentDir, PageOf(start), PageOf(start) + Steps(s, e), isKernel, isWriteable, true);
  }

  /** The same range twice: the second call is allowed, and nothing changes. */
  method MirrorTwice(p: Paging, start: int, end: int, isKernel: bool, isWriteable: bool) returns (ghost between: Paged)
    requires p.Valid() && Word(start) && Word(end) && Ends(FlipStart(start), FlipEnd(end)) && p.currentDir == p.kernelDir
    requires Mirrorable(p.State(), p.currentDir, p.reserved, p.N(), PageOf(start), PageOf(start) + Steps(FlipStart(start), FlipEnd(end)))
    modifies p`tables, p`dirs, p`brk, p.bitmap.frames
    ensures p.Valid() && p.State() == between
    ensures Mirrored(between, p.currentDir, PageOf(start), PageOf(start) + Steps(FlipStart(start), FlipEnd(end)))
  {
    hide Busy, Inv, Mirrorable, Mirrored, RangeStep, Flagged, Steps, FlipStart, FlipEnd, PageOf, EntryOf, BusyWithin, Settled, Ends;
    AllocFramesMirrored(p, start, end, isKernel, isWriteable);
    between := p.State();
    MirroredAgain(between, p.kernelDir, p.currentDir, p.reserved, p.N(), PageOf(start), PageOf(start) + Steps(FlipStart(start), FlipEnd(end)));
    AllocFramesMirrored(p, start, end, isKernel, isWriteable);
  }

  // ---------------------------------------------------------------- sections of the kernel

  function KernelLimit(addr: int, size: int): int {
    PageOf(SectionStart(addr)) + Steps(KernelStart(addr), KernelEnd(addr, size))
  }

  lemma KernelCovered(s: Paged, d: int, addr: int, size: int)
    requires Word(addr) && 0 < size && addr + size <= TWO32 && KernelSound(addr, size)
    requires Mirrored(s, d, PageOf(SectionStart(addr)), KernelLimit(addr, size))
    ensures forall v :: addr <= v < addr + size ==> EntryOf(s, d, v).frame == PageOf(v)
  {
    KernelBelow(addr, size);
    KernelSteps(addr, size);
    StartShape(addr);
    hide EntryOf, PageOf, SectionStart, KernelStart, KernelEnd, Steps, KernelSound;
    forall v | addr <= v < addr + size ensures EntryOf(s, d, v).frame == PageOf(v) {
      PageOrder(addr, v);
      PageOrder(v, addr + size);
    }
  }

  lemma KernelBelow(addr: int, size: int)
    requires Word(addr) && 0 < size && addr + size <= TWO32 && KernelSound(addr, size)
    ensures addr + size < TWO32 - PAGE_SIZE
  {
    MaskedEnd(addr + size);
  }

  /** Lines 156-162 of paging.c. */
  method KernelSectionRange(addr: int, size: int) returns (start: int, end: int)
    requires Word(addr) && Word(size)
    ensures start == SectionStart(addr) && end == MaskOdd(Wrap(addr + size)) && Word(start) && Word(end)
  {
    start := MaskOdd(addr);
    end := MaskOdd(Wrap(addr + size));
    var appendix := addr % PAGE_SIZE;
    MaskWord(addr);
    MaskWord(Wrap(addr + size));
    WrapIs(start);
    if appendix != 0 {
      start := Wrap(start - PAGE_SIZE);
    }
    SectionWords(addr, size);
  }

  /** allocKernelSection: the identity mapping covers a sound section. */
  method AllocKernelSection(p: Paging, addr: int, size: int, isWriteable: bool)
    requires p.Valid() && Word(addr) && Word(size) && Ends(KernelStart(addr), KernelEnd(addr, size)) && p.currentDir == p.kernelDir
    requires Mirrorable(p.State(), p.currentDir, p.reserved, p.N(), PageOf(SectionStart(addr)), KernelLimit(addr, size))
    modifies p`tables, p`dirs, p`brk, p.bitmap.frames
    ensures p.Valid() && p.frames == old(p.frames)
    ensures var lo, hi := PageOf(SectionStart(addr)), KernelLimit(addr, size);
            && Mirrored(p.State(), p.currentDir, lo, hi)
            && RangeStep(old(p.State()), p.State(), lo, hi)
            && Flagged(old(p.State()), p.State(), p.currentDir, lo, hi, true, isWriteable, true)
            && BusyWithin(old(p.State()), p.State(), lo, hi)
            && (Settled(old(p.State()), p.currentDir, lo, hi, true, isWriteable, true) ==> p.State() == old(p.State()))
    ensures 0 < size && addr + size <= TWO32 && KernelSound(addr, size) ==>
              forall v :: addr <= v < addr + size ==> EntryOf(p.State(), p.currentDir, v).frame == PageOf(v)
  {
    var start, end := KernelSectionRange(addr, size);
    hide Busy, Inv, RangeStep, Flagged, Mirrored, Mirrorable, Steps, EntryOf, PageOf, SectionStart, FlipStart, FlipEnd, MaskOdd, KernelSound, Ends, BusyWithin, Settled, Wrap;
    AllocFramesMirrored(p, start, end, true, isWriteable);
    if 0 < size && addr + size <= TWO32 && KernelSound(addr, size) {
      KernelCovered(p.State(), p.currentDir, addr, size);
    }
  }

  datatype Section = Section(addr: int, size: int, isWriteable: bool)

  /** The section's range can be run through, and mapped. */
  ghost predicate Mappable(s: Paged, d: int, reserved: set<int>, n: nat, sec: Section) {
    && Word(sec.addr) && Word(sec.size) && Ends(KernelStart(sec.addr), KernelEnd(sec.addr, sec.size))
    && Mirrorable(s, d, reserved, n, PageOf(SectionStart(sec.addr)), KernelLimit(sec.addr, sec.size))
  }

  ghost predicate MappedSection(s: Paged, d: int, sec: Section) {
    Mirrored(s, d, PageOf(SectionStart(sec.addr)), KernelLimit(sec.addr, sec.size))
  }

  /** Mapping one section leaves another mappable, and mapped if it was, though their ranges may overlap by a page. */
  lemma SectionsApart(s: Paged, r: Paged, kernel: int, d: int, reserved: set<int>, n: nat, one: Section, other: Section)
    requires Inv(r, kernel, reserved, n) && RangeStep(s, r, PageOf(SectionStart(one.addr)), KernelLimit(one.addr, one.size))
    requires MappedSection(r, d, one) && BusyWithin(s, r, PageOf(SectionStart(one.addr)), KernelLimit(one.addr, one.size))
    ensures Mappable(s, d, reserved, n, other) ==> Mappable(r, d, reserved, n, other)
    ensures MappedSection(s, d, other) ==> MappedSection(r, d, other)
  {
    hide Inv, RangeStep, Mirrored, Mirrorable, BusyWithin, PageOf, SectionStart, KernelLimit, Ends, KernelStart, KernelEnd;
    if Mappable(s, d, reserved, n, other) {
      MirrorableStays(s, r, kernel, d, reserved, n, PageOf(SectionStart(one.addr)), KernelLimit(one.addr, one.size),
                      PageOf(SectionStart(other.addr)), KernelLimit(other.addr, other.size));
    }
    if MappedSection(s, d, other) {
      MirroredStays(s, r, d, PageOf(SectionStart(one.addr)), KernelLimit(one.addr, one.size),
                    PageOf(SectionStart(other.addr)), KernelLimit(other.addr, other.size));
    }
  }

  /** The calls of initPaging, one for each section of the kernel that is there: each can be mapped in its turn, and all are in the end. */
  method AllocKernelSections(p: Paging, sections: seq<Section>)
    requires p.Valid() && p.currentDir == p.kernelDir
    requires forall j :: 0 <= j < |sections| ==> Mappable(p.State(), p.currentDir, p.reserved, p.N(), sections[j])
    modifies p`tables, p`dirs, p`brk, p.bitmap.frames
    ensures p.Valid() && p.frames == old(p.frames)
    ensures forall j :: 0 <= j < |sections| ==> MappedSection(p.State(), p.currentDir, sections[j])
  {
    hide Busy, Inv, RangeStep, Flagged, Mirrored, Mappable, MappedSection, Mirrorable, Steps, EntryOf, PageOf, SectionStart, KernelLimit, KernelStart, KernelEnd, KernelSound, Ends, BusyWithin, Settled;
    var i := 0;
    while i < |sections|
      invariant 0 <= i <= |sections| && p.Valid() && p.frames == old(p.frames)
      invariant forall j :: i <= j < |sections| ==> Mappable(p.State(), p.currentDir, p.reserved, p.N(), sections[j])
      invariant forall j :: 0 <= j < i ==> MappedSection(p.State(), p.currentDir, sections[j])
    {
      ghost var s := p.State();
      MapNext(p, sections[i]);
      forall j | 0 <= j < |sections|
        ensures Mappable(s, p.currentDir, p.reserved, p.N(), sections[j]) ==> Mappable(p.State(), p.currentDir, p.reserved, p.N(), sections[j])
        ensures MappedSection(s, p.currentDir, sections[j]) ==> MappedSection(p.State(), p.currentDir, sections[j])
      {
        SectionsApart(s, p.State(), p.kernelDir, p.currentDir, p.reserved, p.N(), sections[i], sections[j]);
      }
      i := i + 1;
    }
  }

  /** allocKernelSection on a section that can be mapped. */
  method MapNext(p: Paging, sec: Section)
    requires p.Valid() && p.currentDir == p.kernelDir && Mappable(p.State(), p.currentDir, p.reserved, p.N(), sec)
    modifies p`tables, p`dirs, p`brk, p.bitmap.frames
    ensures p.Valid() && p.frames == old(p.frames) && MappedSection(p.State(), p.currentDir, sec)
    ensures RangeStep(old(p.State()), p.State(), PageOf(SectionStart(sec.addr)), KernelLimit(sec.addr, sec.size))
    ensures BusyWithin(old(p.State()), p.State(), PageOf(SectionStart(sec.addr)), KernelLimit(sec.addr, sec.size))
  {
    hide Busy, Inv, RangeStep, Flagged, Mirrored, Mirrorable, Steps, EntryOf, PageOf, SectionStart, KernelLimit, KernelStart, KernelEnd, KernelSound, Ends, BusyWithin, Settled;
    AllocKernelSection(p, sec.addr, sec.size, sec.isWriteable);
  }
}
