/** Frames, page tables and page directories of kernel/src/memory_managment/paging.c. */
module PageManager {
  import opened FrameBitmap
  import opened Machine
  import opened PageClones
  import opened PageDirs
  import opened PageFrames
  import opened PageRanges
  import opened PageTables

  class Paging {
    const bitmap: FrameMap
    const kernelDir: int
    var currentDir: int
    var tables: Tables
    var dirs: Dirs
    var frames: Frames
    /** kmalloc: addresses from here on are unused; a physical address is a fixed distance away. */
    var brk: int
    const distance: int
    ghost const reserved: set<int>

    ghost function N(): nat {
      32 * bitmap.frames.Length
    }

    ghost function InUse(): set<int>
      reads bitmap.frames
    {
      Busy(bitmap.frames[..])
    }

    ghost function State(): Paged
      reads this, bitmap.frames
    {
      Paged(tables, dirs, InUse(), frames)
    }

    ghost predicate Fresh()
      reads this
    {
      && 0 < brk && brk % PAGE_SIZE == 0 && distance % PAGE_SIZE == 0
      && (forall t :: t in tables ==> 0 < t < brk) && (forall d :: d in dirs ==> 0 < d < brk)
    }

    /** The tables and frames, with kernelTables for the tables that may hold reserved frames. */
    ghost predicate Core(kernelTables: set<int>)
      reads this, bitmap.frames
    {
      Fresh() && Owned(tables, InUse(), reserved, kernelTables) && Stored(frames, InUse(), N())
    }

    /** Everything but that the current directory is still there: freeDir may have released it. */
    ghost predicate Consistent()
      reads this, bitmap.frames
    {
      Fresh() && Inv(State(), kernelDir, reserved, N())
    }

    ghost predicate Valid()
      reads this, bitmap.frames
    {
      Consistent() && currentDir in dirs
    }

    /**
     The state paging starts from: an empty kernel directory, and the frames in `boot` set aside for
     the identity mapping of the kernel. Frame 0 is among them, as it stands for "no frame".
     */
    constructor (nframes: nat, boot: seq<int>, dir: int, distance: int)
      requires 0 in boot && forall i :: 0 <= i < |boot| ==> 0 <= boot[i] < 32 * (nframes / 32)
      requires 0 < dir && dir % PAGE_SIZE == 0 && distance % PAGE_SIZE == 0
      ensures Valid() && fresh(bitmap) && fresh(bitmap.frames) && bitmap.frames.Length == nframes / 32
      ensures InUse() == (set f | f in boot) && reserved == InUse() && currentDir == kernelDir == dir && tables == map[]
      ensures dirs == map[dir := BlankDir()]
    {
      bitmap := new FrameMap(nframes);
      kernelDir := dir;
      currentDir := dir;
      tables := map[];
      dirs := map[dir := BlankDir()];
      frames := BlankFrames(32 * (nframes / 32));
      brk := dir + PAGE_SIZE;
      this.distance := distance;
      reserved := set f | f in boot;
      new;
      hide Busy, Inv, BlankDir, BlankFrames;
      var i := 0;
      while i < |boot|
        invariant 0 <= i <= |boot| && InUse() == set f | f in boot[..i]
        modifies bitmap.frames
      {
        bitmap.SetFrame(boot[i] * PAGE_SIZE);
        i := i + 1;
      }
      assert boot[..i] == boot;
      BootInv(dir, reserved, N());
    }

    /** firstFrame and SET_FRAME; -1 when every frame is in use. */
    method ClaimFrame() returns (frame: int)
      requires forall f :: f in InUse() ==> 0 <= f < N()
      modifies bitmap.frames
      ensures |old(InUse())| <= N() && (frame == -1 <==> |old(InUse())| == N())
      ensures frame == -1 ==> InUse() == old(InUse())
      ensures frame != -1 ==> Lowest(old(InUse()), N(), frame) && InUse() == old(InUse()) + {frame} && |InUse()| == |old(InUse())| + 1
    {
      hide Busy, Taken;
      FreeCount(InUse(), N());
      InUseIs(bitmap.frames[..]);
      ghost var words := bitmap.frames[..];
      frame := bitmap.FirstFrame();
      assert bitmap.frames[..] == words;
      assert frame == -1 ==> forall f :: 0 <= f < N() ==> f in Busy(words);
      assert frame != -1 ==> frame !in Busy(words);
      if frame != -1 {
        bitmap.SetFrame(frame * PAGE_SIZE);
      }
    }

    /** allocFrame. PANIC, when memory has run out, is the answer false. */
    method AllocFrame(t: int, i: int, isKernel: bool, isWriteable: bool, ghost kernelTables: set<int>) returns (ok: bool, ghost f: int)
      requires Core(kernelTables) && t in tables && 0 <= i < ENTRIES
      modifies this`tables, bitmap.frames
      ensures Core(kernelTables) && |old(tables)[t].pages| == ENTRIES
      ensures ok <==> old(tables)[t].pages[i].frame != 0 || |old(InUse())| < N()
      ensures !ok || old(tables)[t].pages[i].frame != 0 ==> tables == old(tables) && InUse() == old(InUse())
      ensures ok && old(tables)[t].pages[i].frame == 0 ==>
                && Lowest(old(InUse()), N(), f) && InUse() == old(InUse()) + {f} && |InUse()| == |old(InUse())| + 1
                && tables == SetEntry(old(tables), t, i, Granted(old(tables)[t].pages[i], f, isKernel, isWriteable, currentDir == kernelDir))
    {
      hide Owned, Stored, Busy, SetEntry, Lowest;
      CoreSized(tables, InUse(), reserved, kernelTables, frames, N(), t);
      if tables[t].pages[i].frame != 0 {
        return true, 0;
      }
      ghost var before := InUse();
      var frame := ClaimFrame();
      if frame == -1 {
        return false, 0;
      }
      LowestFacts(before, N(), frame);
      var page := tables[t].pages[i].(present := true, rw := isWriteable, user := !isKernel, frame := frame, isKernel := currentDir == kernelDir);
      GiveFrame(tables, before, reserved, kernelTables, t, i, page);
      SetEntrySame(tables, t, i, page);
      StoredMore(frames, before, N(), frame);
      tables := SetEntry(tables, t, i, page);
      ok, f := true, frame;
    }

    /** freeFrame. A reserved frame must not be given back: the bitmap would offer it to others. */
    method FreeFrame(t: int, i: int, ghost kernelTables: set<int>)
      requires Core(kernelTables) && t in tables && 0 <= i < ENTRIES && Releasable(tables, reserved, t, i)
      modifies this`tables, bitmap.frames
      ensures Core(kernelTables) && |old(tables)[t].pages| == ENTRIES
      ensures var f := old(tables)[t].pages[i].frame;
              if f == 0 then tables == old(tables) && InUse() == old(InUse())
              else tables == SetEntry(old(tables), t, i, Emptied(old(tables)[t].pages[i])) && InUse() == old(InUse()) - {f}
    {
      hide Owned, Stored, Busy, SetEntry;
      CoreSized(tables, InUse(), reserved, kernelTables, frames, N(), t);
      var frame := tables[t].pages[i].frame;
      if frame == 0 {
        return;
      }
      HeldInUse(tables, InUse(), reserved, kernelTables, t, i);
      var page := tables[t].pages[i].(present := false, frame := 0);
      TakeFrame(tables, InUse(), reserved, kernelTables, t, i, page);
      SetEntrySame(tables, t, i, page);
      StoredLess(frames, InUse(), N(), frame);
      bitmap.ClearFrame(frame * PAGE_SIZE);
      tables := SetEntry(tables, t, i, page);
    }

    /** linkFrame, on a frame that is free or set aside for the kernel's identity mapping. */
    method LinkFrame(t: int, i: int, address: int, isKernel: bool, isWriteable: bool, ghost kernelTables: set<int>)
      requires Core(kernelTables) && t in tables && t in kernelTables && 0 <= i < ENTRIES
      requires MayLink(tables, InUse(), reserved, N(), t, i, address / PAGE_SIZE)
      modifies this`tables, bitmap.frames
      ensures Core(kernelTables) && |old(tables)[t].pages| == ENTRIES
      ensures if old(tables)[t].pages[i].frame != 0 then tables == old(tables) && InUse() == old(InUse())
              else InUse() == old(InUse()) + {address / PAGE_SIZE}
                   && tables == SetEntry(old(tables), t, i, Granted(old(tables)[t].pages[i], address / PAGE_SIZE, isKernel, isWriteable, currentDir == kernelDir))
    {
      hide Owned, Stored, Busy, SetEntry;
      CoreSized(tables, InUse(), reserved, kernelTables, frames, N(), t);
      if tables[t].pages[i].frame != 0 {
        return;
      }
      ghost var before := InUse();
      bitmap.SetFrame(address);
      var page := tables[t].pages[i].(present := true, rw := isWriteable, user := !isKernel, frame := address / PAGE_SIZE, isKernel := currentDir == kernelDir);
      GiveFrame(tables, before, reserved, kernelTables, t, i, page);
      SetEntrySame(tables, t, i, page);
      StoredMore(frames, before, N(), address / PAGE_SIZE);
      tables := SetEntry(tables, t, i, page);
    }

    /** getPage */
    method GetPage(address: int, make: bool, d: int) returns (r: PageRef)
      requires Valid() && Word(address) && d in dirs
      modifies this`tables, this`dirs, this`brk
      ensures Valid() && frames == old(frames) && d in dirs && dirs.Keys == old(dirs).Keys
      ensures r == Reached(dirs, d, address) && (make ==> r.PageAt?)
      ensures Reached(old(dirs), d, address).PageAt? || !make ==> State() == old(State())
      ensures SameView(old(State()), State())
      ensures KernelTables(old(dirs), kernelDir) <= KernelTables(dirs, kernelDir)
    {
      hide Owned, Stored, Busy, Hung, KernelTables, Hang, Blank, SameView;
      Indices(address);
      HungSized(dirs, tables, kernelDir, d);
      SameViewNow(State());
      var index := Slot(address);
      if dirs[d].tables[index] != 0 {
        r := PageAt(dirs[d].tables[index], Offset(address));
      } else if make {
        ghost var before := State();
        var t := brk;
        brk := brk + PAGE_SIZE;
        HangKeeps(dirs, tables, kernelDir, d, index, t, t + distance);
        AddTable(tables, InUse(), reserved, KernelTables(dirs, kernelDir), t, t + distance,
                 if d == kernelDir then KernelTables(dirs, kernelDir) + {t} else KernelTables(dirs, kernelDir));
        HangSlot(dirs, d, index, t, t + distance);
        HungView(before, kernelDir, d, index, t, t + distance);
        tables := tables[t := Table(Blank(), t + distance)];
        dirs := Hang(dirs, d, index, t, t + distance);
        r := PageAt(t, Offset(address));
      } else {
        r := NoPage;
      }
    }

    /** copyPagePhysical */
    method CopyPagePhysical(from: int, to: int)
      requires from / PAGE_SIZE in frames
      modifies this`frames
      ensures frames == old(frames)[to / PAGE_SIZE := old(frames)[from / PAGE_SIZE]]
    {
      frames := frames[to / PAGE_SIZE := frames[from / PAGE_SIZE]];
    }

    /** cloneTable, lines 341-350, for an entry that has a frame. */
    method CloneEntry(src: int, t: int, i: int, ghost kernelTables: set<int>) returns (ok: bool, ghost f: int)
      requires Core(kernelTables) && src in tables && t in tables && src != t && src !in kernelTables && t !in kernelTables && 0 <= i < ENTRIES
      requires |tables[t].pages| == |tables[src].pages| == ENTRIES && tables[t].pages[i] == BLANK && tables[src].pages[i].frame != 0
      modifies this`tables, this`frames, bitmap.frames
      ensures Core(kernelTables) && (ok <==> |old(InUse())| < N())
      ensures ok ==>
                && f != 0 && f !in old(InUse()) && InUse() == old(InUse()) + {f} && |InUse()| == |old(InUse())| + 1
                && tables == SetEntry(old(tables), t, i, old(tables)[src].pages[i].(frame := f))
                && old(tables)[src].pages[i].frame in old(frames) && frames == old(frames)[f := old(frames)[old(tables)[src].pages[i].frame]]
    {
      hide Owned, Stored, Busy, SetEntry;
      ghost var before := tables;
      CoreSized(tables, InUse(), reserved, kernelTables, frames, N(), t);
      SourceFrame(tables, InUse(), reserved, kernelTables, frames, N(), src, i);
      ok, f := AllocFrame(t, i, false, false, kernelTables);
      if !ok {
        return;
      }
      LowestFacts(old(InUse()), N(), f);
      SetEntryHolds(before, t, i, Granted(BLANK, f, false, false, currentDir == kernelDir));
      var p := tables[src].pages[i];
      var page := tables[t].pages[i].(present := p.present, rw := p.rw, user := p.user, accessed := p.accessed, dirty := p.dirty, isKernel := p.isKernel);
      Reflag(tables, InUse(), reserved, kernelTables, t, i, page);
      SetTwice(before, t, i, Granted(BLANK, f, false, false, currentDir == kernelDir), page);
      tables := SetEntry(tables, t, i, page);
      SetEntrySame(before, t, i, page);
      StoredCopy(frames, InUse(), N(), p.frame, f);
      CopyPagePhysical(p.frame * PAGE_SIZE, tables[t].pages[i].frame * PAGE_SIZE);
    }

    /** cloneTable */
    method CloneTable(src: int, ghost kernelTables: set<int>) returns (ok: bool, t: int, phys: int)
      requires Core(kernelTables) && src in tables && src !in kernelTables && kernelTables <= tables.Keys
      modifies this`tables, this`frames, this`brk, bitmap.frames
      ensures Core(kernelTables) && |old(tables)[src].pages| == ENTRIES && old(brk) <= brk
      ensures ok <==> |old(InUse())| + Mapped(old(tables)[src].pages, ENTRIES) <= N()
      ensures ok ==>
                && t !in old(tables) && t in tables && tables == old(tables)[t := tables[t]] && tables[t].phys == phys && 0 < t
                && CopiedUpTo(old(tables)[src].pages, old(frames), tables[t].pages, frames, ENTRIES)
                && FramesUpTo(tables[t].pages, ENTRIES) !! old(InUse()) && InUse() == old(InUse()) + FramesUpTo(tables[t].pages, ENTRIES)
                && |InUse()| == |old(InUse())| + Mapped(old(tables)[src].pages, ENTRIES) && KeptFrames(old(frames), frames, old(InUse()))
    {
      hide Owned, Stored, Busy, SetEntry, CopiedUpTo, FramesUpTo, Blank, Mapped, KeptFrames;
      ghost var tables0, frames0, busy0 := tables, frames, InUse();
      CoreSized(tables, InUse(), reserved, kernelTables, frames, N(), src);
      var pages := tables[src].pages;
      t, phys := brk, brk + distance;
      brk := brk + PAGE_SIZE;
      AddTable(tables, InUse(), reserved, kernelTables, t, phys, kernelTables);
      tables := tables[t := Table(Blank(), phys)];
      CopyStart(pages, frames, busy0, N());
      var i := 0;
      while i < ENTRIES
        invariant 0 <= i <= ENTRIES && Core(kernelTables) && old(brk) <= brk && t !in tables0 && t in tables && tables == tables0[t := tables[t]] && tables[t].phys == phys
        invariant pages == tables0[src].pages && CopiedUpTo(pages, frames0, tables[t].pages, frames, i)
        invariant KeptFrames(frames0, frames, busy0)
        invariant |tables[t].pages| == |pages| == ENTRIES && InUse() == busy0 + FramesUpTo(tables[t].pages, i)
        invariant FramesUpTo(tables[t].pages, i) !! busy0 && |InUse()| == |busy0| + Mapped(pages, i)
      {
        MappedNext(pages, i);
        CopyBlank(pages, frames0, tables[t].pages, frames, i);
        if pages[i].frame == 0 {
          CopySkip(pages, frames0, tables[t].pages, frames, i);
        } else {
          ghost var tables1, frames1, busy1 := tables, frames, InUse();
          SourceFrame(tables, InUse(), reserved, kernelTables, frames, N(), src, i);
          SourceFrame(tables0, busy0, reserved, kernelTables, frames0, N(), src, i);
          ghost var f;
          ok, f := CloneEntry(src, t, i, kernelTables);
          if !ok {
            MappedMore(pages, i + 1);
            return;
          }
          CopyMore(pages, frames0, tables1[t].pages, frames1, i, f, busy0, busy1);
          SetEntrySame(tables1, t, i, pages[i].(frame := f));
          SetEntryIs(tables0, tables1, t, i, pages[i].(frame := f));
        }
        i := i + 1;
      }
      BusyBounded(InUse(), N(), frames);
      ok := true;
    }

    /** freeTable */
    method FreeTable(t: int, ghost kernelTables: set<int>)
      requires Core(kernelTables) && t in tables && t !in kernelTables
      modifies this`tables, bitmap.frames
      ensures Core(kernelTables) && |old(tables)[t].pages| == ENTRIES
      ensures tables == old(tables) - {t} && InUse() == old(InUse()) - FramesUpTo(old(tables)[t].pages, ENTRIES)
    {
      hide Owned, Stored, Busy, SetEntry, FramesUpTo;
      ghost var tables0, busy0 := tables, InUse();
      CoreSized(tables, InUse(), reserved, kernelTables, frames, N(), t);
      ghost var pages := tables[t].pages;
      NoFrames(pages);
      var i := 0;
      while i < ENTRIES
        invariant 0 <= i <= ENTRIES && Core(kernelTables) && t in tables && tables == tables0[t := tables[t]] && |tables[t].pages| == |pages| == ENTRIES
        invariant pages == tables0[t].pages && (forall j :: 0 <= j < i ==> tables[t].pages[j].frame == 0)
        invariant forall j :: i <= j < ENTRIES ==> tables[t].pages[j] == pages[j]
        invariant InUse() == busy0 - FramesUpTo(pages, i)
      {
        FramesNext(pages, i);
        if tables[t].pages[i].frame != 0 {
          ghost var tables1 := tables;
          MayRelease(tables, InUse(), reserved, kernelTables, t, i);
          FreeFrame(t, i, kernelTables);
          SetEntrySame(tables1, t, i, Emptied(tables1[t].pages[i]));
          SetEntryIs(tables0, tables1, t, i, Emptied(tables1[t].pages[i]));
        }
        i := i + 1;
      }
      DropTable(tables, InUse(), reserved, kernelTables, t);
      tables := tables - {t};
    }

    /** cloneDir; false is the PANIC of allocFrame. */
    method CloneDir(src: int) returns (ok: bool, d: int)
      requires Valid() && src in dirs
      modifies this`tables, this`dirs, this`frames, this`brk, bitmap.frames
      ensures ok <==> |old(InUse())| + Need(old(State()), kernelDir, src, ENTRIES) <= N()
      ensures ok ==> Valid() && Cloned(old(State()), State(), kernelDir, src, d)
    {
      hide Owned, Stored, Busy, Hung, KernelTables, ClonedUpTo, Need, SlotNeed, Mapped, FramesUpTo, CopiedUpTo, KeptFrames, Private;
      ghost var s0 := State();
      HungSized(dirs, tables, kernelDir, src);
      HungSized(dirs, tables, kernelDir, kernelDir);
      ghost var kt := KernelTables(dirs, kernelDir);
      BusyStored(s0, N());
      d := brk;
      brk := brk + PAGE_SIZE;
      var dir := Dir(seq(ENTRIES, _ => 0), seq(ENTRIES, _ => 0));
      CloneStart(s0, kernelDir, src);
      BusyBounded(InUse(), N(), frames);
      var i := 0;
      while i < ENTRIES
        invariant 0 <= i <= ENTRIES && Core(kt) && dirs == s0.dirs && |dir.tables| == |dir.physical| == ENTRIES && d < brk
        invariant ClonedUpTo(s0, kernelDir, src, dir, tables, InUse(), frames, i)
        invariant |InUse()| == |s0.busy| + Need(s0, kernelDir, src, i) && |InUse()| <= N()
      {
        PrivateIs(dirs, kernelDir, src, i);
        if dirs[src].tables[i] != 0 {
          if dirs[kernelDir].tables[i] == dirs[src].tables[i] {
            CloneShared(s0, kernelDir, src, dir, tables, InUse(), frames, i);
            dir := Dir(dir.tables[i := dirs[src].tables[i]], dir.physical[i := dirs[src].physical[i]]);
          } else {
            ghost var tables1, busy1, frames1 := tables, InUse(), frames;
            PrivateSource(s0, kernelDir, reserved, N(), src, i);
            SourceKept(s0, kernelDir, src, dir, tables, InUse(), frames, i);
            SourceBusy(s0, reserved, kt, s0.dirs[src].tables[i]);
            NeedSlot(s0, kernelDir, src, i);
            var t, phys;
            ok, t, phys := CloneTable(dirs[src].tables[i], kt);
            if !ok {
              NeedMore(s0, kernelDir, src, i + 1, ENTRIES);
              return;
            }
            CoreSized(tables, InUse(), reserved, kt, frames, N(), t);
            CloneOwn(s0, kernelDir, src, dir, tables1, busy1, frames1, i, t, tables, InUse(), frames);
            dir := Dir(dir.tables[i := t], dir.physical[i := phys + 7]);
            BusyBounded(InUse(), N(), frames);
          }
        } else {
          CloneEmpty(s0, kernelDir, src, dir, tables, InUse(), frames, i);
        }
        i := i + 1;
      }
      CloneHung(s0, kernelDir, reserved, N(), src, d, dir, tables, InUse(), frames);
      dirs := dirs[d := dir];
      ok := true;
    }

    /** freeDir; the directory may be the current one, which then has to be switched before anything else. */
    method FreeDir(d: int)
      requires Consistent() && d in dirs && d != kernelDir
      modifies this`tables, this`dirs, bitmap.frames
      ensures Consistent() && Freed(old(State()), State(), kernelDir, d)
    {
      hide Owned, Stored, Busy, Hung, KernelTables, FreedUpTo, FramesUpTo, Private, Own;
      ghost var s0 := State();
      HungSized(dirs, tables, kernelDir, d);
      HungSized(dirs, tables, kernelDir, kernelDir);
      ghost var kt := KernelTables(dirs, kernelDir);
      FreeStart(s0, kernelDir, d);
      var i := 0;
      while i < ENTRIES
        invariant 0 <= i <= ENTRIES && Core(kt) && dirs == s0.dirs && frames == s0.frames && FreedUpTo(s0, tables, InUse(), kernelDir, d, i)
      {
        PrivateIs(dirs, kernelDir, d, i);
        if dirs[d].tables[i] != 0 && dirs[d].tables[i] != dirs[kernelDir].tables[i] {
          StillThere(s0, tables, InUse(), kernelDir, d, i);
          FreeNext(s0, tables, InUse(), kernelDir, d, i, InUse() - FramesUpTo(s0.tables[dirs[d].tables[i]].pages, |s0.tables[dirs[d].tables[i]].pages|));
          FreeTable(dirs[d].tables[i], kt);
        } else {
          FreeSkip(s0, tables, InUse(), kernelDir, d, i);
        }
        i := i + 1;
      }
      FreedIs(s0, tables, InUse(), kernelDir, d);
      FreeHung(s0, kernelDir, d);
      dirs := dirs - {d};
    }

    /** switchPageDir, the registers aside. */
    method SwitchPageDir(dir: int) returns (oldDir: int)
      requires Consistent() && dir in dirs
      modifies this`currentDir
      ensures Valid() && currentDir == dir && oldDir == old(currentDir) && State() == old(State())
    {
      oldDir := currentDir;
      currentDir := dir;
    }

    /** allocFrame(getPage(a, 1, currentDir), ...): the body of the loops of allocFrames and allocFramesReversed. */
    method AllocPage(a: int, isKernel: bool, isWriteable: bool) returns (ok: bool)
      requires Valid() && Word(a)
      modifies this`tables, this`dirs, this`brk, bitmap.frames
      ensures Valid() && frames == old(frames)
      ensures ok <==> EntryOf(old(State()), currentDir, a).frame != 0 || |old(InUse())| < N()
      ensures |old(InUse())| <= N() && |InUse()| == |old(InUse())| + if ok && EntryOf(old(State()), currentDir, a).frame == 0 then 1 else 0
      ensures PageStep(old(State()), State(), a) && (ok ==> Given(State(), currentDir, PageOf(a), PageOf(a) + 1))
      ensures ok ==> Flagged(old(State()), State(), currentDir, PageOf(a), PageOf(a) + 1, isKernel, isWriteable, currentDir == kernelDir)
    {
      hide Owned, Stored, Busy, Hung, KernelTables, SetEntry, Slot, Offset, PageStep, Given, Flagged, EntryOf, SameView, Lowest, Changed, Inv;
      InvIs(State(), kernelDir, reserved, N());
      ghost var s0 := State();
      var page := GetPage(a, true, currentDir);
      InvIs(State(), kernelDir, reserved, N());
      ghost var s1 := State();
      ghost var kt := KernelTables(dirs, kernelDir);
      ViewAt(s1, kernelDir, reserved, kt, currentDir, a);
      BusyBounded(s1.busy, N(), frames);
      ghost var f;
      ok, f := AllocFrame(page.table, page.index, isKernel, isWriteable, kt);
      StepSame(s0, s1, a);
      if EntryOf(s1, currentDir, a).frame != 0 {
        GivenOld(s1, currentDir, a);
        FlaggedOld(s0, s1, currentDir, a, isKernel, isWriteable, currentDir == kernelDir);
      } else if ok {
        ghost var p := Granted(EntryOf(s1, currentDir, a), f, isKernel, isWriteable, currentDir == kernelDir);
        OwnedZero(s1.tables, s1.busy, reserved, kt);
        LowestZero(s1.busy, N(), f, reserved);
        SetEntryView(s1, State(), kernelDir, currentDir, a, p);
        HungSet(s1, tables, kernelDir, page.table, page.index, p);
        StepSet(s0, s1, State(), currentDir, a, p);
        GivenSet(s1, State(), currentDir, a, p);
        FlaggedSet(s0, s1, State(), currentDir, a, f, isKernel, isWriteable, currentDir == kernelDir);
      }
      InvIs(State(), kernelDir, reserved, N());
    }

    /**
     allocFrames with makePage, where the loop stops. It succeeds if and only if there are as many free
     frames as pages without one, and each of those pages takes exactly one.
     */
    method AllocFrames(start: int, end: int, isKernel: bool, isWriteable: bool) returns (ok: bool)
      requires Valid() && Word(start) && Word(end) && Ends(start, end)
      modifies this`tables, this`dirs, this`brk, bitmap.frames
      ensures Valid() && frames == old(frames) && RangeStep(old(State()), State(), PageOf(start), PageOf(start) + Steps(start, end))
      ensures ok <==> |old(InUse())| + Lacking(old(State()), currentDir, PageOf(start), Steps(start, end)) <= N()
      ensures ok ==> |InUse()| == |old(InUse())| + Lacking(old(State()), currentDir, PageOf(start), Steps(start, end))
      ensures ok ==> Given(State(), currentDir, PageOf(start), PageOf(start) + Steps(start, end))
      ensures ok ==> Flagged(old(State()), State(), currentDir, PageOf(start), PageOf(start) + Steps(start, end), isKernel, isWriteable, currentDir == kernelDir)
    {
      hide Inv, EntryOf, RangeStep, PageStep, Given, Flagged, Steps, PageOf, Lacking, Busy, Wrap;
      ghost var s0, k, inKernel := State(), 0, currentDir == kernelDir;
      RangeStart(s0, currentDir, PageOf(start));
      FlaggedStart(s0, currentDir, PageOf(start), isKernel, isWriteable, inKernel);
      LackingStart(s0, currentDir, PageOf(start));
      CountStays(s0, kernelDir, reserved, N());
      StepsFacts(start, end);
      var i := start;
      while i < end
        invariant Valid() && frames == old(frames) && 0 <= k <= Steps(start, end) && i == start + PAGE_SIZE * k
        invariant RangeStep(s0, State(), PageOf(start), PageOf(start) + k) && Given(State(), currentDir, PageOf(start), PageOf(start) + k)
        invariant Flagged(s0, State(), currentDir, PageOf(start), PageOf(start) + k, isKernel, isWriteable, inKernel)
        invariant |InUse()| == |s0.busy| + Lacking(s0, currentDir, PageOf(start), k) && |InUse()| <= N()
        decreases Steps(start, end) - k
      {
        PageAfter(start, k);
        ghost var s1 := State();
        LackingNext(s0, s1, currentDir, i, PageOf(start), k);
        LackingMore(s0, currentDir, PageOf(start), k + 1, Steps(start, end));
        ok := AllocPage(i, isKernel, isWriteable);
        RangeNext(s0, s1, State(), i, PageOf(start), PageOf(start) + k);
        RangeWiden(s0, State(), PageOf(start), PageOf(start) + k + 1, PageOf(start), PageOf(start) + Steps(start, end));
        if !ok {
          return;
        }
        GivenNext(s1, State(), currentDir, i, PageOf(start), PageOf(start) + k);
        FlaggedNext(s0, s1, State(), currentDir, i, PageOf(start), PageOf(start) + k, isKernel, isWriteable, inKernel);
        WrapsNot(start, end, k);
        i := Wrap(i + PAGE_SIZE);
        k := k + 1;
      }
      ok := true;
    }

    /** allocFramesReversed: from the page of `end` down, the page of `start` left out. */
    method AllocFramesReversed(start: int, end: int, isKernel: bool, isWriteable: bool) returns (ok: bool)
      requires Valid() && Word(start) && Word(end) && EndsDown(start, end)
      modifies this`tables, this`dirs, this`brk, bitmap.frames
      ensures Valid() && frames == old(frames) && RangeStep(old(State()), State(), PageOf(end) + 1 - Steps(start, end), PageOf(end) + 1)
      ensures ok <==> |old(InUse())| + Lacking(old(State()), currentDir, PageOf(end) + 1 - Steps(start, end), Steps(start, end)) <= N()
      ensures ok ==> |InUse()| == |old(InUse())| + Lacking(old(State()), currentDir, PageOf(end) + 1 - Steps(start, end), Steps(start, end))
      ensures ok ==> Given(State(), currentDir, PageOf(end) + 1 - Steps(start, end), PageOf(end) + 1)
      ensures ok ==> Flagged(old(State()), State(), currentDir, PageOf(end) + 1 - Steps(start, end), PageOf(end) + 1, isKernel, isWriteable, currentDir == kernelDir)
    {
      hide Inv, EntryOf, RangeStep, PageStep, Given, Flagged, Steps, PageOf, Lacking, Busy, Wrap;
      ghost var s0, k, inKernel := State(), 0, currentDir == kernelDir;
      RangeStart(s0, currentDir, PageOf(end) + 1);
      FlaggedStart(s0, currentDir, PageOf(end) + 1, isKernel, isWriteable, inKernel);
      LackingStart(s0, currentDir, PageOf(end) + 1);
      CountStays(s0, kernelDir, reserved, N());
      StepsFacts(start, end);
      var i := end;
      while i > start
        invariant Valid() && frames == old(frames) && 0 <= k <= Steps(start, end) && i == end - PAGE_SIZE * k
        invariant RangeStep(s0, State(), PageOf(end) + 1 - k, PageOf(end) + 1) && Given(State(), currentDir, PageOf(end) + 1 - k, PageOf(end) + 1)
        invariant Flagged(s0, State(), currentDir, PageOf(end) + 1 - k, PageOf(end) + 1, isKernel, isWriteable, inKernel)
        invariant |InUse()| == |s0.busy| + Lacking(s0, currentDir, PageOf(end) + 1 - k, k) && |InUse()| <= N()
        decreases Steps(start, end) - k
      {
        PageAfter(end, -k);
        ghost var s1 := State();
        LackingPrevious(s0, s1, currentDir, i, PageOf(end) + 1, k);
        LackingBefore(s0, currentDir, PageOf(end) + 1, k + 1, Steps(start, end));
        ok := AllocPage(i, isKernel, isWriteable);
        RangeBefore(s0, s1, State(), i, PageOf(end) + 1 - k, PageOf(end) + 1);
        RangeWiden(s0, State(), PageOf(end) - k, PageOf(end) + 1, PageOf(end) + 1 - Steps(start, end), PageOf(end) + 1);
        if !ok {
          return;
        }
        GivenBefore(s1, State(), currentDir, i, PageOf(end) + 1 - k, PageOf(end) + 1);
        FlaggedBefore(s0, s1, State(), currentDir, i, PageOf(end) + 1 - k, PageOf(end) + 1, isKernel, isWriteable, inKernel);
        WrapsNotDown(start, end, k);
        i := Wrap(i - PAGE_SIZE);
        k := k + 1;
      }
      ok := true;
    }

    /** freeFrame(getPage(a, 0, currentDir)): the table has to be there, and the frame not set aside. */
    method FreePage(a: int)
      requires Valid() && Word(a) && Reached(dirs, currentDir, a).PageAt? && EntryOf(State(), currentDir, a).frame !in reserved - {0}
      modifies this`tables, this`dirs, this`brk, bitmap.frames
      ensures Valid() && frames == old(frames) && dirs == old(dirs)
      ensures InUse() == old(InUse()) - ({EntryOf(old(State()), currentDir, a).frame} - {0})
      ensures PageCleared(old(State()), State(), currentDir, a)
    {
      hide Owned, Stored, Busy, Hung, KernelTables, SetEntry, Slot, Offset, EntryOf, SameView, Changed, Inv, PageCleared;
      InvIs(State(), kernelDir, reserved, N());
      ghost var s0 := State();
      ghost var kt := KernelTables(dirs, kernelDir);
      var page := GetPage(a, false, currentDir);
      ViewAt(s0, kernelDir, reserved, kt, currentDir, a);
      OwnedZero(s0.tables, s0.busy, reserved, kt);
      FreeFrame(page.table, page.index, kt);
      ClearedSame(s0, currentDir, a);
      if EntryOf(s0, currentDir, a).frame != 0 {
        SetEntryView(s0, State(), kernelDir, currentDir, a, Emptied(EntryOf(s0, currentDir, a)));
        HungSet(s0, tables, kernelDir, page.table, page.index, Emptied(EntryOf(s0, currentDir, a)));
        ClearedSet(s0, State(), currentDir, a);
      }
      InvIs(State(), kernelDir, reserved, N());
    }

    /** freeFrames, where the loop stops. */
    method FreeFrames(start: int, end: int)
      requires Valid() && Word(start) && Word(end) && Ends(start, end)
      requires Clearable(State(), currentDir, reserved, PageOf(start), PageOf(start) + Steps(start, end))
      modifies this`tables, this`dirs, this`brk, bitmap.frames
      ensures Valid() && frames == old(frames) && dirs == old(dirs)
      ensures RangeCleared(old(State()), State(), currentDir, PageOf(start), PageOf(start) + Steps(start, end))
    {
      hide Inv, EntryOf, RangeCleared, PageCleared, Clearable, Steps, PageOf, Busy, Wrap;
      ghost var s0, k := State(), 0;
      ClearedStart(s0, currentDir, PageOf(start));
      StepsFacts(start, end);
      var i := start;
      while i < end
        invariant Valid() && frames == old(frames) && dirs == s0.dirs && 0 <= k <= Steps(start, end) && i == start + PAGE_SIZE * k
        invariant RangeCleared(s0, State(), currentDir, PageOf(start), PageOf(start) + k)
        decreases Steps(start, end) - k
      {
        PageAfter(start, k);
        ghost var s1 := State();
        ClearableAt(s0, s1, currentDir, reserved, PageOf(start), PageOf(start) + k, PageOf(start) + Steps(start, end), i);
        FreePage(i);
        ClearedNext(s0, s1, State(), currentDir, i, PageOf(start), PageOf(start) + k);
        WrapsNot(start, end, k);
        i := Wrap(i + PAGE_SIZE);
        k := k + 1;
      }
    }

    /** linkFrame(getPage(a, 1, currentDir), a, ...); nothing changes where the page is mapped so already. */
    method MirrorPage(a: int, isKernel: bool, isWriteable: bool)
      requires Valid() && Word(a) && currentDir == kernelDir
      requires EntryOf(State(), currentDir, a).frame == 0 ==> PageOf(a) < N() && (PageOf(a) in reserved || PageOf(a) !in InUse())
      modifies this`tables, this`dirs, this`brk, bitmap.frames
      ensures Valid() && frames == old(frames) && BusyWithin(old(State()), State(), PageOf(a), PageOf(a) + 1)
      ensures PageStep(old(State()), State(), a)
      ensures EntryOf(old(State()), currentDir, a).frame == 0 ==> Mirrored(State(), currentDir, PageOf(a), PageOf(a) + 1)
      ensures Flagged(old(State()), State(), currentDir, PageOf(a), PageOf(a) + 1, isKernel, isWriteable, currentDir == kernelDir)
      ensures SettledPage(EntryOf(old(State()), currentDir, a), PageOf(a), isKernel, isWriteable, currentDir == kernelDir) ==> State() == old(State())
    {
      hide Owned, Stored, Busy, Hung, KernelTables, SetEntry, Slot, Offset, PageStep, Mirrored, Flagged, EntryOf, SameView, Changed, Inv, Granted;
      InvIs(State(), kernelDir, reserved, N());
      ghost var s0 := State();
      SettledFound(s0, currentDir, a, PageOf(a), isKernel, isWriteable, currentDir == kernelDir);
      var page := GetPage(a, true, currentDir);
      InvIs(State(), kernelDir, reserved, N());
      ghost var s1 := State();
      ghost var kt := KernelTables(dirs, kernelDir);
      ViewAt(s1, kernelDir, reserved, kt, currentDir, a);
      KernelHas(s1.dirs, kernelDir, a);
      StepSame(s0, s1, a);
      LinkFrame(page.table, page.index, a, isKernel, isWriteable, kt);
      ghost var p := Granted(EntryOf(s1, currentDir, a), PageOf(a), isKernel, isWriteable, currentDir == kernelDir);
      if EntryOf(s1, currentDir, a).frame == 0 {
        if SettledPage(EntryOf(s1, currentDir, a), PageOf(a), isKernel, isWriteable, currentDir == kernelDir) {
          SettledSame(s1, reserved, kt, page.table, page.index, PageOf(a), isKernel, isWriteable, currentDir == kernelDir);
        }
        GrantedFrame(EntryOf(s1, currentDir, a), PageOf(a), isKernel, isWriteable, currentDir == kernelDir);
        SetEntryView(s1, State(), kernelDir, currentDir, a, p);
        HungSet(s1, tables, kernelDir, page.table, page.index, p);
        StepSet(s0, s1, State(), currentDir, a, p);
        MirroredSet(s1, State(), currentDir, a, p);
        FlaggedSet(s0, s1, State(), currentDir, a, PageOf(a), isKernel, isWriteable, currentDir == kernelDir);
      } else {
        FlaggedOld(s0, s1, currentDir, a, isKernel, isWriteable, currentDir == kernelDir);
      }
      InvIs(State(), kernelDir, reserved, N());
    }

    /** allocFramesMirrored with makePage, lines 110-114: start and end as the XORs have left them. */
    method MirrorRange(start: int, end: int, isKernel: bool, isWriteable: bool)
      requires Valid() && Word(start) && Word(end) && Ends(start, end) && currentDir == kernelDir
      requires Mirrorable(State(), currentDir, reserved, N(), PageOf(start), PageOf(start) + Steps(start, end))
      modifies this`tables, this`dirs, this`brk, bitmap.frames
      ensures Valid() && frames == old(frames) && RangeStep(old(State()), State(), PageOf(start), PageOf(start) + Steps(start, end))
      ensures Mirrored(State(), currentDir, PageOf(start), PageOf(start) + Steps(start, end))
      ensures Flagged(old(State()), State(), currentDir, PageOf(start), PageOf(start) + Steps(start, end), isKernel, isWriteable, true)
      ensures BusyWithin(old(State()), State(), PageOf(start), PageOf(start) + Steps(start, end))
      ensures Settled(old(State()), currentDir, PageOf(start), PageOf(start) + Steps(start, end), isKernel, isWriteable, true) ==> State() == old(State())
    {
      hide Inv, EntryOf, RangeStep, PageStep, Mirrored, Mirrorable, Flagged, Steps, PageOf, Settled, SettledPage, BusyWithin, Busy, Wrap;
      ghost var s0, k := State(), 0;
      FlaggedStart(s0, currentDir, PageOf(start), isKernel, isWriteable, true);
      RangeStart(s0, currentDir, PageOf(start));
      MirrorStart(s0, currentDir, PageOf(start));
      StepsFacts(start, end);
      var i := start;
      while i < end
        invariant Valid() && frames == old(frames) && 0 <= k <= Steps(start, end) && i == start + PAGE_SIZE * k
        invariant RangeStep(s0, State(), PageOf(start), PageOf(start) + k) && Mirrored(State(), currentDir, PageOf(start), PageOf(start) + k)
        invariant Flagged(s0, State(), currentDir, PageOf(start), PageOf(start) + k, isKernel, isWriteable, true)
        invariant BusyWithin(s0, State(), PageOf(start), PageOf(start) + k)
        invariant Settled(s0, currentDir, PageOf(start), PageOf(start) + Steps(start, end), isKernel, isWriteable, true) ==> State() == s0
        decreases Steps(start, end) - k
      {
        PageAfter(start, k);
        ghost var s1 := State();
        MirrorReached(s0, s1, currentDir, reserved, N(), PageOf(start), PageOf(start) + k, PageOf(start) + Steps(start, end), i);
        SettledAt(s0, currentDir, PageOf(start), PageOf(start) + Steps(start, end), isKernel, isWriteable, true, i);
        MirrorPage(i, isKernel, isWriteable);
        RangeNext(s0, s1, State(), i, PageOf(start), PageOf(start) + k);
        BusyNext(s0, s1, State(), PageOf(start), PageOf(start) + k);
        MirrorNext(s1, State(), currentDir, i, PageOf(start), PageOf(start) + k);
        FlaggedNext(s0, s1, State(), currentDir, i, PageOf(start), PageOf(start) + k, isKernel, isWriteable, true);
        WrapsNot(start, end, k);
        i := Wrap(i + PAGE_SIZE);
        k := k + 1;
      }
    }
  }

  /** An entry with a frame, or one that is set already, was found in a table. */
  lemma SettledFound(s: Paged, d: int, a: int, f: int, isKernel: bool, isWriteable: bool, inKernelDir: bool)
    requires d in s.dirs && Word(a)
    ensures SettledPage(EntryOf(s, d, a), f, isKernel, isWriteable, inKernelDir) ==> Reached(s.dirs, d, a).PageAt?
  {
    Indices(a);
    hide Slot, Offset;
  }

  /** Linking an entry once more leaves all tables and the bitmap as they are. */
  lemma SettledSame(s: Paged, reserved: set<int>, kernelTables: set<int>, t: int, i: int, f: int, isKernel: bool, isWriteable: bool, inKernelDir: bool)
    requires Owned(s.tables, s.busy, reserved, kernelTables) && t in s.tables && 0 <= i < |s.tables[t].pages|
    requires SettledPage(s.tables[t].pages[i], f, isKernel, isWriteable, inKernelDir) && s.tables[t].pages[i].frame == 0
    ensures SetEntry(s.tables, t, i, Granted(s.tables[t].pages[i], f, isKernel, isWriteable, inKernelDir)) == s.tables && s.busy + {f} == s.busy
  {
    assert s.tables[t].pages[i := s.tables[t].pages[i]] == s.tables[t].pages;
    assert 0 in s.busy;
  }

  lemma GrantedFrame(p: Page, f: int, isKernel: bool, isWriteable: bool, inKernelDir: bool)
    ensures Granted(p, f, isKernel, isWriteable, inKernelDir).frame == f
  {
  }

  lemma SourceFrame(tables: Tables, busy: set<int>, reserved: set<int>, kernelTables: set<int>, frames: Frames, n: int, src: int, i: int)
    requires Owned(tables, busy, reserved, kernelTables) && Stored(frames, busy, n) && src in tables && 0 <= i < ENTRIES && src !in kernelTables
    ensures |tables[src].pages| == ENTRIES
    ensures var p := tables[src].pages[i]; p.frame in busy && p.frame in frames && |frames[p.frame]| == PAGE_SIZE && (p.present <==> p.frame != 0)
  {
    HeldInUse(tables, busy, reserved, kernelTables, src, i);
  }

  lemma MayRelease(tables: Tables, busy: set<int>, reserved: set<int>, kernelTables: set<int>, t: int, i: int)
    requires Owned(tables, busy, reserved, kernelTables) && t in tables && t !in kernelTables
    ensures Releasable(tables, reserved, t, i)
  {
    if 0 <= i < |tables[t].pages| { assert HoldsFrame(tables, t, i, tables[t].pages[i].frame); }
  }

  lemma Reflag(tables: Tables, busy: set<int>, reserved: set<int>, kernelTables: set<int>, t: int, i: int, p: Page)
    requires Owned(tables, busy, reserved, kernelTables) && t in tables && 0 <= i < |tables[t].pages|
    requires p.frame == tables[t].pages[i].frame && p.present == tables[t].pages[i].present
    ensures Owned(SetEntry(tables, t, i, p), busy, reserved, kernelTables)
  {
    var after := SetEntry(tables, t, i, p);
    assert HoldsFrame(tables, t, i, p.frame);
    SetEntryHolds(tables, t, i, p);
    hide SetEntry;
    assert forall u, j, f :: HoldsFrame(after, u, j, f) <==> HoldsFrame(tables, u, j, f) by { OneFrame(tables, t, i); }
    hide HoldsFrame;
    forall f | f in busy && f !in reserved ensures HeldOnce(after, f) {
      assert HeldOnce(tables, f);
      var u, j :| HoldsFrame(tables, u, j, f);
      assert HoldsFrame(after, u, j, f);
    }
  }

  lemma OneFrame(tables: Tables, t: int, i: int)
    requires t in tables && 0 <= i < |tables[t].pages|
    ensures forall f :: HoldsFrame(tables, t, i, f) <==> f == tables[t].pages[i].frame
  {
  }

  lemma SetTwice(tables: Tables, t: int, i: int, p: Page, q: Page)
    requires t in tables && 0 <= i < |tables[t].pages|
    ensures var once := SetEntry(tables, t, i, p);
            t in once && i < |once[t].pages| && SetEntry(once, t, i, q) == SetEntry(tables, t, i, q)
  {
    assert tables[t].pages[i := p][i := q] == tables[t].pages[i := q];
  }

  lemma SetEntryIs(tables0: Tables, tables: Tables, t: int, i: int, p: Page)
    requires t in tables && tables == tables0[t := tables[t]] && 0 <= i < |tables[t].pages|
    ensures var r := SetEntry(tables, t, i, p);
            t in r && r == tables0[t := r[t]] && r[t].pages == tables[t].pages[i := p] && r[t].phys == tables[t].phys
  {
  }

  lemma StoredCopy(frames: Frames, busy: set<int>, n: int, from: int, to: int)
    requires Stored(frames, busy, n) && from in busy && to in busy
    ensures from in frames && Stored(frames[to := frames[from]], busy, n)
  {
  }

  lemma CopyStart(src: seq<Page>, frames: Frames, busy: set<int>, n: int)
    requires |src| == ENTRIES && Stored(frames, busy, n)
    ensures CopiedUpTo(src, frames, Blank(), frames, 0) && FramesUpTo(Blank(), 0) == {} && Mapped(src, 0) == 0 && KeptFrames(frames, frames, busy)
  {
  }

  lemma CopyBlank(src: seq<Page>, frames: Frames, pages: seq<Page>, frames': Frames, i: int)
    requires CopiedUpTo(src, frames, pages, frames', i) && i < ENTRIES
    ensures pages[i] == BLANK
  {
  }

  lemma CopyMore(src: seq<Page>, frames: Frames, pages: seq<Page>, frames': Frames, i: int, f: int, busy: set<int>, busy': set<int>)
    requires CopiedUpTo(src, frames, pages, frames', i) && i < ENTRIES && src[i].frame != 0 && f != 0 && f !in busy'
    requires busy' == busy + FramesUpTo(pages, i) && KeptFrames(frames, frames', busy) && src[i].frame in busy && FramesUpTo(pages, i) !! busy
    ensures src[i].frame in frames'
    ensures var pages2, frames2 := pages[i := src[i].(frame := f)], frames'[f := frames'[src[i].frame]];
            && CopiedUpTo(src, frames, pages2, frames2, i + 1) && busy' + {f} == busy + FramesUpTo(pages2, i + 1) && FramesUpTo(pages2, i + 1) !! busy
            && KeptFrames(frames, frames2, busy)
  {
    var pages2 := pages[i := src[i].(frame := f)];
    CopyNext(src, frames, pages, frames', i, f, busy, busy');
    FramesSame(pages, pages2, i);
    FramesNext(pages2, i);
  }

  lemma MappedNext(pages: seq<Page>, i: int)
    requires 0 <= i < |pages|
    ensures Mapped(pages, i + 1) == Mapped(pages, i) + if pages[i].frame != 0 then 1 else 0
  {
  }

  lemma {:induction false} MappedMore(pages: seq<Page>, i: int)
    requires 0 <= i <= |pages|
    ensures Mapped(pages, i) <= Mapped(pages, |pages|)
    decreases |pages| - i
  {
    if i < |pages| {
      MappedNext(pages, i);
      MappedMore(pages, i + 1);
    }
  }

  lemma BusyBounded(busy: set<int>, n: nat, frames: Frames)
    requires Stored(frames, busy, n)
    ensures |busy| <= n
  {
    FreeCount(busy, n);
  }

  lemma NoFrames(pages: seq<Page>)
    ensures FramesUpTo(pages, 0) == {}
  {
  }

  /** An entry without a frame may be linked to a frame that is free or set aside. */
  predicate MayLink(tables: Tables, busy: set<int>, reserved: set<int>, n: nat, t: int, i: int, f: int) {
    t in tables && 0 <= i < |tables[t].pages| && tables[t].pages[i].frame == 0 ==> 0 <= f < n && (f in reserved || f !in busy)
  }

  /** The frame of an entry may be given back. */
  predicate Releasable(tables: Tables, reserved: set<int>, t: int, i: int) {
    t in tables && 0 <= i < |tables[t].pages| ==> tables[t].pages[i].frame == 0 || tables[t].pages[i].frame !in reserved
  }

  lemma HeldInUse(tables: Tables, busy: set<int>, reserved: set<int>, kernelTables: set<int>, t: int, i: int)
    requires Owned(tables, busy, reserved, kernelTables) && t in tables && 0 <= i < |tables[t].pages|
    ensures tables[t].pages[i].frame in busy
  {
    assert HoldsFrame(tables, t, i, tables[t].pages[i].frame);
  }

  lemma StoredLess(frames: Frames, busy: set<int>, n: nat, f: int)
    requires Stored(frames, busy, n)
    ensures Stored(frames, busy - {f}, n)
  {
  }

  lemma HungSized(dirs: Dirs, tables: Tables, kernel: int, d: int)
    requires Hung(dirs, tables, kernel) && d in dirs
    ensures |dirs[d].tables| == ENTRIES && |dirs[d].physical| == ENTRIES && kernel in dirs
  {
  }

  lemma HangSlot(dirs: Dirs, d: int, i: int, t: int, phys: int)
    requires d in dirs && 0 <= i < |dirs[d].tables| && i < |dirs[d].physical|
    ensures d in Hang(dirs, d, i, t, phys) && |Hang(dirs, d, i, t, phys)[d].tables| == |dirs[d].tables| && Hang(dirs, d, i, t, phys)[d].tables[i] == t
    ensures Hang(dirs, d, i, t, phys).Keys == dirs.Keys
  {
  }

  lemma HungView(s: Paged, kernel: int, d: int, i: int, t: int, phys: int)
    requires Hung(s.dirs, s.tables, kernel) && d in s.dirs && 0 <= i < ENTRIES && t != 0 && t !in s.tables && 0 !in s.tables
    requires |s.dirs[d].tables| == ENTRIES ==> s.dirs[d].tables[i] == 0
    ensures |s.dirs[d].tables| == ENTRIES && |s.dirs[d].physical| == ENTRIES
    ensures SameView(s, s.(tables := s.tables[t := Table(Blank(), phys)], dirs := Hang(s.dirs, d, i, t, phys)))
  {
    HungSized(s.dirs, s.tables, kernel, d);
    forall e, v ensures EntryOf(s.(tables := s.tables[t := Table(Blank(), phys)], dirs := Hang(s.dirs, d, i, t, phys)), e, v) == EntryOf(s, e, v) {
      HangSame(s, kernel, d, i, t, phys, e, v);
    }
  }

  /** The lowest frame that is free; it is not frame 0. */
  ghost predicate Lowest(busy: set<int>, n: nat, f: int) {
    0 <= f < n && f !in busy && forall g :: 0 <= g < f ==> g in busy
  }

  lemma LowestFacts(busy: set<int>, n: nat, f: int)
    requires Lowest(busy, n, f)
    ensures 0 <= f < n && f !in busy
  {
  }

  /** What the bitmap's bits mean as a set. */
  lemma InUseIs(words: seq<bv32>)
    ensures forall f :: 0 <= f < 32 * |words| ==> (Taken(words, f) <==> f in Busy(words))
  {
  }

  lemma CoreSized(tables: Tables, busy: set<int>, reserved: set<int>, kernelTables: set<int>, frames: Frames, n: nat, t: int)
    requires Owned(tables, busy, reserved, kernelTables) && Stored(frames, busy, n) && t in tables
    ensures |tables[t].pages| == ENTRIES && 0 in busy && forall f :: f in busy ==> 0 <= f < n
  {
  }

  lemma SetEntrySame(tables: Tables, t: int, i: int, p: Page)
    requires t in tables && 0 <= i < |tables[t].pages|
    ensures var r := SetEntry(tables, t, i, p);
            r.Keys == tables.Keys && |r[t].pages| == |tables[t].pages| && r[t].pages[i] == p
  {
  }

  lemma StoredMore(frames: Frames, busy: set<int>, n: nat, f: int)
    requires Stored(frames, busy, n) && 0 <= f < n
    ensures Stored(frames, busy + {f}, n)
  {
  }

  lemma BusyStored(s: Paged, n: nat)
    requires Stored(s.frames, s.busy, n)
    ensures forall f :: f in s.busy ==> f in s.frames
  {
  }

  lemma PrivateIs(dirs: Dirs, kernel: int, d: int, i: int)
    requires d in dirs && kernel in dirs && 0 <= i < |dirs[d].tables| && i < |dirs[kernel].tables|
    ensures Private(dirs, kernel, d, i) <==> dirs[d].tables[i] != 0 && dirs[d].tables[i] != dirs[kernel].tables[i]
  {
  }

  lemma SourceKept(s: Paged, kernel: int, src: int, dir: Dir, tables: Tables, busy: set<int>, frames: Frames, i: int)
    requires ClonedUpTo(s, kernel, src, dir, tables, busy, frames, i)
    ensures s.tables.Keys <= tables.Keys && forall t :: t in s.tables ==> t in tables && tables[t] == s.tables[t]
  {
  }

  lemma SourceBusy(s: Paged, reserved: set<int>, kernelTables: set<int>, t: int)
    requires Owned(s.tables, s.busy, reserved, kernelTables) && t in s.tables
    ensures |s.tables[t].pages| == ENTRIES && forall j :: 0 <= j < ENTRIES ==> s.tables[t].pages[j].frame in s.busy
  {
    forall j | 0 <= j < ENTRIES ensures s.tables[t].pages[j].frame in s.busy {
      HeldInUse(s.tables, s.busy, reserved, kernelTables, t, j);
    }
  }

  lemma NeedSlot(s: Paged, kernel: int, src: int, i: int)
    requires 0 <= i && Private(s.dirs, kernel, src, i) && s.dirs[src].tables[i] in s.tables
    ensures var pages := s.tables[s.dirs[src].tables[i]].pages; Need(s, kernel, src, i + 1) == Need(s, kernel, src, i) + Mapped(pages, |pages|)
  {
  }

  lemma FreedIs(s: Paged, tables: Tables, busy: set<int>, kernel: int, d: int)
    requires FreedUpTo(s, tables, busy, kernel, d, ENTRIES) && d in s.dirs && |s.dirs[d].tables| == ENTRIES
    ensures tables == s.tables - Own(s.dirs, kernel, d) && busy == s.busy - FramesIn(s.tables, Own(s.dirs, kernel, d))
  {
  }

  lemma InvIs(s: Paged, kernel: int, reserved: set<int>, n: nat)
    ensures Inv(s, kernel, reserved, n) <==>
              Hung(s.dirs, s.tables, kernel) && kernel in s.dirs && Owned(s.tables, s.busy, reserved, KernelTables(s.dirs, kernel)) && Stored(s.frames, s.busy, n)
  {
  }

  /** What getPage found is the entry behind the address. */
  lemma ViewAt(s: Paged, kernel: int, reserved: set<int>, kernelTables: set<int>, d: int, a: int)
    requires Hung(s.dirs, s.tables, kernel) && Owned(s.tables, s.busy, reserved, kernelTables) && Word(a) && d in s.dirs && Reached(s.dirs, d, a).PageAt?
    ensures var (t, i) := (Reached(s.dirs, d, a).table, Reached(s.dirs, d, a).index);
            && t in s.tables && 0 <= i < ENTRIES && |s.tables[t].pages| == ENTRIES && s.tables[t].pages[i] == EntryOf(s, d, a)
            && 0 <= Slot(a) < |s.dirs[d].tables| && t == s.dirs[d].tables[Slot(a)] && t != 0 && i == Offset(a) && Sized(s.tables)
  {
    Indices(a);
    assert HoldsTable(s.dirs, d, Slot(a), s.dirs[d].tables[Slot(a)]);
  }

  lemma OwnedZero(tables: Tables, busy: set<int>, reserved: set<int>, kernelTables: set<int>)
    requires Owned(tables, busy, reserved, kernelTables)
    ensures 0 in busy
  {
  }

  lemma LowestZero(busy: set<int>, n: nat, f: int, reserved: set<int>)
    requires Lowest(busy, n, f) && 0 in busy
    ensures f != 0
  {
  }

  /** Setting an entry moves no table. */
  lemma HungSet(s: Paged, tables: Tables, kernel: int, t: int, i: int, p: Page)
    requires Hung(s.dirs, s.tables, kernel) && t in s.tables && 0 <= i < |s.tables[t].pages|
    requires tables == s.tables || tables == SetEntry(s.tables, t, i, p)
    ensures Hung(s.dirs, tables, kernel)
  {
  }

  lemma KernelHas(dirs: Dirs, kernel: int, a: int)
    requires kernel in dirs && Reached(dirs, kernel, a).PageAt?
    ensures Reached(dirs, kernel, a).table in KernelTables(dirs, kernel)
  {
  }

  // ---------------------------------------------------------------- the start

  function BlankDir(): Dir {
    Dir(seq(ENTRIES, _ => 0), seq(ENTRIES, _ => 0))
  }

  function BlankFrames(n: nat): Frames {
    map f | 0 <= f < n && Below(f, n) :: seq(PAGE_SIZE, _ => 0)
  }

  lemma BootInv(dir: int, reserved: set<int>, n: nat)
    requires 0 in reserved && forall f :: f in reserved ==> 0 <= f < n
    ensures Inv(Paged(map[], map[dir := BlankDir()], reserved, BlankFrames(n)), dir, reserved, n)
  {
    assert forall f :: 0 <= f < n ==> Below(f, n);
  }
}
