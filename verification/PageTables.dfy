/**
 Two-level page directories (kernel/src/memory_managment/paging.c) on values. Page tables are named
 by their addresses, physical frames by their numbers; frame 0 in an entry means that it has none.
 */
module PageTables {
  import opened Machine

  const ENTRIES := 1024

  datatype Page = Page(present: bool, rw: bool, user: bool, accessed: bool, dirty: bool, isKernel: bool, frame: int)

  const BLANK := Page(false, false, false, false, false, false, 0)

  datatype Table = Table(pages: seq<Page>, phys: int)

  /** tables and tablesPhysical of PageDir_t; 0 stands for no table. */
  datatype Dir = Dir(tables: seq<int>, physical: seq<int>)

  type Tables = map<int, Table>
  type Dirs = map<int, Dir>
  type Frames = map<int, seq<int>>

  // ---------------------------------------------------------------- frames

  ghost predicate Sized(tables: Tables) {
    forall t :: t in tables ==> |tables[t].pages| == ENTRIES
  }

  /** Entry i of table t holds frame f. */
  predicate HoldsFrame(tables: Tables, t: int, i: int, f: int) {
    t in tables && 0 <= i < |tables[t].pages| && tables[t].pages[i].frame == f
  }

  /** A frame outside the reserved set is held by one entry at most. */
  ghost predicate Exclusively(tables: Tables, reserved: set<int>) {
    forall t, i, t', i', f ::
      HoldsFrame(tables, t, i, f) && HoldsFrame(tables, t', i', f) && f !in reserved ==> t == t' && i == i'
  }

  ghost predicate HeldOnce(tables: Tables, f: int) {
    exists t, i :: HoldsFrame(tables, t, i, f)
  }

  /** Every frame in use is reserved or held by an entry, and every frame held is in use. */
  ghost predicate Accounted(tables: Tables, busy: set<int>, reserved: set<int>) {
    && (forall f :: f in busy ==> f in reserved || HeldOnce(tables, f))
    && (forall t, i, f :: HoldsFrame(tables, t, i, f) ==> f in busy)
  }

  /** Only the tables of the kernel hold reserved frames; elsewhere an entry is present when it has a frame. */
  ghost predicate Segregated(tables: Tables, kernelTables: set<int>, reserved: set<int>) {
    && (forall t, i, f :: HoldsFrame(tables, t, i, f) && t !in kernelTables ==> f == 0 || f !in reserved)
    && (forall t, i :: t in tables && 0 <= i < |tables[t].pages| && t !in kernelTables ==>
          (tables[t].pages[i].present <==> tables[t].pages[i].frame != 0))
  }

  ghost predicate Owned(tables: Tables, busy: set<int>, reserved: set<int>, kernelTables: set<int>) {
    && Sized(tables) && 0 in reserved && reserved <= busy
    && Exclusively(tables, reserved) && Accounted(tables, busy, reserved) && Segregated(tables, kernelTables, reserved)
  }

  // ---------------------------------------------------------------- directories

  function Slot(v: int): int {
    v / PAGE_SIZE / ENTRIES
  }

  function Offset(v: int): int {
    v / PAGE_SIZE % ENTRIES
  }

  ghost predicate DirSized(dirs: Dirs) {
    forall d :: d in dirs ==> |dirs[d].tables| == ENTRIES && |dirs[d].physical| == ENTRIES
  }

  /** Slot i of directory d holds table t. */
  predicate HoldsTable(dirs: Dirs, d: int, i: int, t: int) {
    d in dirs && 0 <= i < |dirs[d].tables| && dirs[d].tables[i] == t && t != 0
  }

  /** A slot that differs from the kernel directory's. */
  predicate Private(dirs: Dirs, kernel: int, d: int, i: int) {
    && d in dirs && kernel in dirs && 0 <= i < |dirs[d].tables| && i < |dirs[kernel].tables|
    && dirs[d].tables[i] != 0 && dirs[d].tables[i] != dirs[kernel].tables[i]
  }

  /** A private table hangs in one slot of one directory only. */
  ghost predicate PrivateOnce(dirs: Dirs, kernel: int) {
    forall d, i, d', i', t ::
      Private(dirs, kernel, d, i) && HoldsTable(dirs, d, i, t) && HoldsTable(dirs, d', i', t) ==> d == d' && i == i'
  }

  /** A table hangs at one slot number only, whoever shares it. */
  ghost predicate SameSlot(dirs: Dirs) {
    forall d, i, d', i', t :: HoldsTable(dirs, d, i, t) && HoldsTable(dirs, d', i', t) ==> i == i'
  }

  /** Both words of a slot name the same table, as the processor and the kernel see it. */
  ghost predicate Wired(dirs: Dirs, tables: Tables) {
    forall d, i, t :: HoldsTable(dirs, d, i, t) && i < |dirs[d].physical| ==> t in tables && dirs[d].physical[i] == tables[t].phys + 7
  }

  ghost function KernelTables(dirs: Dirs, kernel: int): set<int>
    requires kernel in dirs
  {
    set i | 0 <= i < |dirs[kernel].tables| && dirs[kernel].tables[i] != 0 :: dirs[kernel].tables[i]
  }

  ghost predicate Hung(dirs: Dirs, tables: Tables, kernel: int) {
    kernel in dirs && DirSized(dirs) && PrivateOnce(dirs, kernel) && SameSlot(dirs) && Wired(dirs, tables)
  }

  datatype Paged = Paged(tables: Tables, dirs: Dirs, busy: set<int>, frames: Frames)

  ghost predicate Stored(frames: Frames, busy: set<int>, n: int) {
    && (forall f :: f in busy ==> 0 <= f < n)
    && (forall f :: 0 <= f < n ==> f in frames && |frames[f]| == PAGE_SIZE)
  }

  ghost predicate Inv(s: Paged, kernel: int, reserved: set<int>, n: int) {
    && Hung(s.dirs, s.tables, kernel) && Owned(s.tables, s.busy, reserved, KernelTables(s.dirs, kernel)) && Stored(s.frames, s.busy, n)
  }

  // ---------------------------------------------------------------- what a process sees

  /** The entry the two-level walk of an address ends at. */
  function EntryOf(s: Paged, d: int, v: int): Page {
    if Word(v) && d in s.dirs && Slot(v) < |s.dirs[d].tables|
       && s.dirs[d].tables[Slot(v)] != 0 && s.dirs[d].tables[Slot(v)] in s.tables
       && Offset(v) < |s.tables[s.dirs[d].tables[Slot(v)]].pages|
    then s.tables[s.dirs[d].tables[Slot(v)]].pages[Offset(v)]
    else BLANK
  }

  datatype Byte = Fault | Value(b: int)

  /** The byte at virtual address v under directory d. */
  function Read(s: Paged, d: int, v: int): Byte {
    var e := EntryOf(s, d, v);
    if e.present && e.frame in s.frames && 0 <= v % PAGE_SIZE < |s.frames[e.frame]| then Value(s.frames[e.frame][v % PAGE_SIZE]) else Fault
  }

  /** A store to virtual address v under directory d. */
  function Write(s: Paged, d: int, v: int, b: int): Paged {
    var e := EntryOf(s, d, v);
    if e.present && e.frame in s.frames && 0 <= v % PAGE_SIZE < |s.frames[e.frame]| then
      s.(frames := s.frames[e.frame := s.frames[e.frame][v % PAGE_SIZE := b]])
    else s
  }

  lemma WriteInv(s: Paged, kernel: int, reserved: set<int>, n: int, d: int, v: int, b: int)
    requires Inv(s, kernel, reserved, n)
    ensures Inv(Write(s, d, v, b), kernel, reserved, n)
  {
  }

  /** An address whose table is the directory's own. */
  predicate PrivateAt(s: Paged, kernel: int, d: int, v: int) {
    Word(v) && Private(s.dirs, kernel, d, Slot(v))
  }

  lemma PrivateTable(s: Paged, kernel: int, d: int, i: int)
    requires Hung(s.dirs, s.tables, kernel) && Private(s.dirs, kernel, d, i)
    ensures s.dirs[d].tables[i] !in KernelTables(s.dirs, kernel) && HoldsTable(s.dirs, d, i, s.dirs[d].tables[i]) && s.dirs[d].tables[i] in s.tables
  {
    var t := s.dirs[d].tables[i];
    assert HoldsTable(s.dirs, d, i, t);
    if t in KernelTables(s.dirs, kernel) {
      var j :| 0 <= j < |s.dirs[kernel].tables| && s.dirs[kernel].tables[j] == t;
      assert HoldsTable(s.dirs, kernel, j, t);
    }
  }

  lemma Indices(v: int)
    requires Word(v)
    ensures 0 <= Slot(v) < ENTRIES && 0 <= Offset(v) < ENTRIES && v == (Slot(v) * ENTRIES + Offset(v)) * PAGE_SIZE + v % PAGE_SIZE
  {
  }

  /** The table and the entry behind a mapped address. */
  lemma Walks(s: Paged, d: int, v: int)
    requires EntryOf(s, d, v).present
    ensures Word(v) && d in s.dirs && 0 <= Slot(v) < |s.dirs[d].tables|
       && s.dirs[d].tables[Slot(v)] != 0 && s.dirs[d].tables[Slot(v)] in s.tables
    ensures HoldsFrame(s.tables, s.dirs[d].tables[Slot(v)], Offset(v), EntryOf(s, d, v).frame)
  {
    assert Word(v);
    Indices(v);
  }

  /** Two addresses that end at the same frame outside the reserved set end at the same entry of the same table. */
  lemma SameFrame(s: Paged, kernel: int, reserved: set<int>, n: int, d: int, v: int, d': int, v': int)
    requires Inv(s, kernel, reserved, n) && PrivateAt(s, kernel, d, v) && EntryOf(s, d, v).present
    requires EntryOf(s, d', v').present && EntryOf(s, d', v').frame == EntryOf(s, d, v).frame
    ensures d == d' && Slot(v) == Slot(v') && Offset(v) == Offset(v')
  {
    hide Slot, Offset;
    Walks(s, d, v);
    Walks(s, d', v');
    PrivateTable(s, kernel, d, Slot(v));
    var t, t', f := s.dirs[d].tables[Slot(v)], s.dirs[d'].tables[Slot(v')], EntryOf(s, d, v).frame;
    assert HoldsFrame(s.tables, t, Offset(v), f) && HoldsFrame(s.tables, t', Offset(v'), f);
    assert f != 0 && f !in reserved;
    assert t == t';
    assert HoldsTable(s.dirs, d', Slot(v'), t);
  }

  /** Isolation: a store to a private page is seen at no address of any other directory. */
  lemma WriteIsolated(s: Paged, kernel: int, reserved: set<int>, n: int, d: int, v: int, b: int, d': int, v': int)
    requires Inv(s, kernel, reserved, n) && PrivateAt(s, kernel, d, v) && d' != d
    ensures Read(Write(s, d, v, b), d', v') == Read(s, d', v')
  {
    var e, e' := EntryOf(s, d, v), EntryOf(s, d', v');
    if e.present && e'.present && e.frame == e'.frame {
      SameFrame(s, kernel, reserved, n, d, v, d', v');
      assert false;
    }
  }

  /** And within the directory it is seen at that address only. */
  lemma WriteReads(s: Paged, kernel: int, reserved: set<int>, n: int, d: int, v: int, b: int, v': int)
    requires Inv(s, kernel, reserved, n) && PrivateAt(s, kernel, d, v) && EntryOf(s, d, v).present && Word(v')
    ensures Read(Write(s, d, v, b), d, v') == if v' == v then Value(b) else Read(s, d, v')
  {
    var e, e' := EntryOf(s, d, v), EntryOf(s, d, v');
    Walks(s, d, v);
    Indices(v);
    Indices(v');
    hide Slot, Offset;
    if e'.present && e.frame == e'.frame {
      SameFrame(s, kernel, reserved, n, d, v, d, v');
    }
  }
}
