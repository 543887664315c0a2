/** What a copied page table and a copied or released page directory are. */
module PageClones {
  import opened PageTables

  /** An entry of a copy: the flags of the source, a frame of its own with the same contents. */
  ghost predicate CopiedAt(src: Page, frames: Frames, p: Page, frames': Frames) {
    if src.frame == 0 then p == BLANK
    else p == src.(frame := p.frame) && p.frame != 0 && src.frame in frames && p.frame in frames' && frames'[p.frame] == frames[src.frame]
  }

  /** The entries before i are copied, the others blank. */
  ghost predicate CopiedUpTo(src: seq<Page>, frames: Frames, pages: seq<Page>, frames': Frames, i: int) {
    && |src| == |pages| == ENTRIES && 0 <= i <= ENTRIES
    && (forall j :: 0 <= j < i ==> CopiedAt(src[j], frames, pages[j], frames'))
    && (forall j :: i <= j < ENTRIES ==> pages[j] == BLANK)
  }

  /** The contents of the frames in use are as they were. */
  ghost predicate KeptFrames(frames: Frames, frames': Frames, busy: set<int>) {
    forall f :: f in busy ==> f in frames && f in frames' && frames'[f] == frames[f]
  }

  /** How many of the first i entries have a frame. */
  function Mapped(pages: seq<Page>, i: int): (k: nat)
    requires 0 <= i <= |pages|
    ensures k <= i
  {
    if i == 0 then 0 else Mapped(pages, i - 1) + if pages[i - 1].frame != 0 then 1 else 0
  }

  /** The frames of the first i entries. */
  ghost function FramesUpTo(pages: seq<Page>, i: int): set<int>
    requires 0 <= i <= |pages|
  {
    set j | 0 <= j < i && pages[j].frame != 0 :: pages[j].frame
  }

  lemma FramesNext(pages: seq<Page>, i: int)
    requires 0 <= i < |pages|
    ensures FramesUpTo(pages, i + 1) == FramesUpTo(pages, i) + if pages[i].frame != 0 then {pages[i].frame} else {}
  {
    var next := if pages[i].frame != 0 then {pages[i].frame} else {};
    forall f | f in FramesUpTo(pages, i + 1) ensures f in FramesUpTo(pages, i) + next {
      var j :| 0 <= j < i + 1 && pages[j].frame != 0 && pages[j].frame == f;
      if j < i { assert f in FramesUpTo(pages, i); }
    }
    forall f | f in FramesUpTo(pages, i) ensures f in FramesUpTo(pages, i + 1) {
      var j :| 0 <= j < i && pages[j].frame != 0 && pages[j].frame == f;
      assert 0 <= j < i + 1;
    }
    if pages[i].frame != 0 { assert pages[i].frame in FramesUpTo(pages, i + 1); }
  }

  lemma FramesSame(pages: seq<Page>, pages': seq<Page>, i: int)
    requires 0 <= i <= |pages| && i <= |pages'| && forall j :: 0 <= j < i ==> pages'[j].frame == pages[j].frame
    ensures FramesUpTo(pages', i) == FramesUpTo(pages, i)
  {
    forall f | f in FramesUpTo(pages, i) ensures f in FramesUpTo(pages', i) {
      var j :| 0 <= j < i && pages[j].frame != 0 && pages[j].frame == f;
      assert pages'[j].frame == f;
    }
    forall f | f in FramesUpTo(pages', i) ensures f in FramesUpTo(pages, i) {
      var j :| 0 <= j < i && pages'[j].frame != 0 && pages'[j].frame == f;
      assert pages[j].frame == f;
    }
  }

  /** One more entry is copied, to frame f. */
  lemma CopyNext(src: seq<Page>, frames: Frames, pages: seq<Page>, frames': Frames, i: int, f: int, busy: set<int>, busy': set<int>)
    requires CopiedUpTo(src, frames, pages, frames', i) && i < ENTRIES && src[i].frame != 0 && f != 0 && f !in busy'
    requires busy' == busy + FramesUpTo(pages, i) && (forall g :: g in busy ==> g in frames && g in frames' && frames'[g] == frames[g])
    requires src[i].frame in busy
    ensures src[i].frame in frames'
    ensures var pages2, frames2 := pages[i := src[i].(frame := f)], frames'[f := frames'[src[i].frame]];
            && CopiedUpTo(src, frames, pages2, frames2, i + 1) && busy' + {f} == busy + FramesUpTo(pages2, i + 1)
            && (forall g :: g in busy ==> g in frames2 && frames2[g] == frames[g])
  {
    var pages2, frames2 := pages[i := src[i].(frame := f)], frames'[f := frames'[src[i].frame]];
    forall j | 0 <= j < i + 1 ensures CopiedAt(src[j], frames, pages2[j], frames2) {
      if j < i {
        assert CopiedAt(src[j], frames, pages[j], frames');
        assert src[j].frame != 0 ==> pages[j].frame in FramesUpTo(pages, i);
      }
    }
    FramesSame(pages, pages2, i);
    FramesNext(pages2, i);
  }

  lemma CopySkip(src: seq<Page>, frames: Frames, pages: seq<Page>, frames': Frames, i: int)
    requires CopiedUpTo(src, frames, pages, frames', i) && i < ENTRIES && src[i].frame == 0
    ensures CopiedUpTo(src, frames, pages, frames', i + 1) && FramesUpTo(pages, i + 1) == FramesUpTo(pages, i)
  {
    FramesNext(pages, i);
  }

  /** A finished copy does not change while its frames keep their contents. */
  lemma CopyKept(src: seq<Page>, frames0: Frames, pages: seq<Page>, frames1: Frames, frames2: Frames, busy: set<int>)
    requires CopiedUpTo(src, frames0, pages, frames1, ENTRIES) && FramesUpTo(pages, ENTRIES) <= busy && KeptFrames(frames1, frames2, busy)
    ensures CopiedUpTo(src, frames0, pages, frames2, ENTRIES)
  {
    forall j | 0 <= j < ENTRIES ensures CopiedAt(src[j], frames0, pages[j], frames2) {
      assert CopiedAt(src[j], frames0, pages[j], frames1);
      assert pages[j].frame != 0 ==> pages[j].frame in FramesUpTo(pages, ENTRIES);
    }
  }

  // ---------------------------------------------------------------- directories

  /** The private tables among the first i slots of `dir`, a directory with the private slots of d. */
  ghost function OwnUpTo(dirs: Dirs, kernel: int, d: int, ts: seq<int>, i: int): set<int>
    requires 0 <= i <= |ts|
  {
    set j | 0 <= j < i && Private(dirs, kernel, d, j) :: ts[j]
  }

  lemma OwnNext(dirs: Dirs, kernel: int, d: int, ts: seq<int>, i: int)
    requires 0 <= i < |ts|
    ensures OwnUpTo(dirs, kernel, d, ts, i + 1) == OwnUpTo(dirs, kernel, d, ts, i) + if Private(dirs, kernel, d, i) then {ts[i]} else {}
  {
    var next := if Private(dirs, kernel, d, i) then {ts[i]} else {};
    hide Private;
    forall t | t in OwnUpTo(dirs, kernel, d, ts, i + 1) ensures t in OwnUpTo(dirs, kernel, d, ts, i) + next {
      var j :| 0 <= j < i + 1 && Private(dirs, kernel, d, j) && ts[j] == t;
    }
    forall t | t in OwnUpTo(dirs, kernel, d, ts, i) + next ensures t in OwnUpTo(dirs, kernel, d, ts, i + 1) {
      if t in OwnUpTo(dirs, kernel, d, ts, i) {
        var j :| 0 <= j < i && Private(dirs, kernel, d, j) && ts[j] == t;
      }
    }
  }

  lemma OwnSame(dirs: Dirs, kernel: int, d: int, ts: seq<int>, ts': seq<int>, i: int)
    requires 0 <= i <= |ts| && i <= |ts'| && forall j :: 0 <= j < i ==> ts'[j] == ts[j]
    ensures OwnUpTo(dirs, kernel, d, ts', i) == OwnUpTo(dirs, kernel, d, ts, i)
  {
    hide Private;
    forall t | t in OwnUpTo(dirs, kernel, d, ts, i) ensures t in OwnUpTo(dirs, kernel, d, ts', i) {
      var j :| 0 <= j < i && Private(dirs, kernel, d, j) && ts[j] == t;
      assert ts'[j] == t;
    }
    forall t | t in OwnUpTo(dirs, kernel, d, ts', i) ensures t in OwnUpTo(dirs, kernel, d, ts, i) {
      var j :| 0 <= j < i && Private(dirs, kernel, d, j) && ts'[j] == t;
      assert ts[j] == t;
    }
  }

  /** The frames in the entries of some tables. */
  ghost function FramesIn(tables: Tables, own: set<int>): set<int> {
    set t, j | t in own && t in tables && 0 <= j < |tables[t].pages| && tables[t].pages[j].frame != 0 :: tables[t].pages[j].frame
  }

  lemma FramesInOne(tables: Tables, own: set<int>, t: int)
    requires t in tables
    ensures FramesIn(tables, own + {t}) == FramesIn(tables, own) + FramesUpTo(tables[t].pages, |tables[t].pages|)
  {
    var pages := tables[t].pages;
    forall f | f in FramesIn(tables, own + {t}) ensures f in FramesIn(tables, own) + FramesUpTo(pages, |pages|) {
      var u, j :| u in own + {t} && u in tables && 0 <= j < |tables[u].pages| && tables[u].pages[j].frame != 0 && tables[u].pages[j].frame == f;
      if u in own { assert f in FramesIn(tables, own); } else { assert f in FramesUpTo(pages, |pages|); }
    }
    forall f | f in FramesIn(tables, own) + FramesUpTo(pages, |pages|) ensures f in FramesIn(tables, own + {t}) {
      if f in FramesIn(tables, own) {
        var u, j :| u in own && u in tables && 0 <= j < |tables[u].pages| && tables[u].pages[j].frame != 0 && tables[u].pages[j].frame == f;
        assert u in own + {t};
      } else {
        var j :| 0 <= j < |pages| && pages[j].frame != 0 && pages[j].frame == f;
        assert t in own + {t};
      }
    }
  }

  lemma FramesInSame(tables: Tables, tables': Tables, own: set<int>)
    requires forall t :: t in own ==> t in tables && t in tables' && tables'[t] == tables[t]
    ensures FramesIn(tables', own) == FramesIn(tables, own)
  {
    forall f | f in FramesIn(tables, own) ensures f in FramesIn(tables', own) {
      var u, j :| u in own && u in tables && 0 <= j < |tables[u].pages| && tables[u].pages[j].frame != 0 && tables[u].pages[j].frame == f;
      assert tables'[u] == tables[u];
    }
    forall f | f in FramesIn(tables', own) ensures f in FramesIn(tables, own) {
      var u, j :| u in own && u in tables' && 0 <= j < |tables'[u].pages| && tables'[u].pages[j].frame != 0 && tables'[u].pages[j].frame == f;
      assert tables'[u] == tables[u];
    }
  }

  /** How many frames a copy of slot j needs. */
  function SlotNeed(s: Paged, kernel: int, d: int, j: int): nat {
    if Private(s.dirs, kernel, d, j) && s.dirs[d].tables[j] in s.tables then
      var pages := s.tables[s.dirs[d].tables[j]].pages;
      Mapped(pages, |pages|)
    else 0
  }

  /** How many frames the private tables among the first i slots need. */
  function Need(s: Paged, kernel: int, d: int, i: int): (k: nat)
    requires 0 <= i
  {
    if i == 0 then 0
    else Need(s, kernel, d, i - 1) + SlotNeed(s, kernel, d, i - 1)
  }

  lemma {:induction false} NeedMore(s: Paged, kernel: int, d: int, i: int, n: int)
    requires 0 <= i <= n
    ensures Need(s, kernel, d, i) <= Need(s, kernel, d, n)
    decreases n - i
  {
    if i < n {
      NeedMore(s, kernel, d, i + 1, n);
    }
  }

  /** Slot j of a copy: absent, shared with the kernel directory, or a copied table of its own. */
  ghost predicate SlotCloned(s: Paged, kernel: int, src: int, dir: Dir, tables: Tables, frames: Frames, j: int)
    requires src in s.dirs && 0 <= j < |s.dirs[src].tables| && j < |s.dirs[src].physical| && j < |dir.tables| && j < |dir.physical|
  {
    var u := s.dirs[src].tables[j];
    if u == 0 then dir.tables[j] == 0
    else if !Private(s.dirs, kernel, src, j) then dir.tables[j] == u && dir.physical[j] == s.dirs[src].physical[j]
    else
      var t := dir.tables[j];
      && t != 0 && t !in s.tables && t in tables && dir.physical[j] == tables[t].phys + 7
      && u in s.tables && CopiedUpTo(s.tables[u].pages, s.frames, tables[t].pages, frames, ENTRIES)
  }

  ghost predicate ClonedUpTo(s: Paged, kernel: int, src: int, dir: Dir, tables: Tables, busy: set<int>, frames: Frames, i: int) {
    && src in s.dirs && |s.dirs[src].tables| == |s.dirs[src].physical| == |dir.tables| == |dir.physical| == ENTRIES && 0 <= i <= ENTRIES
    && (forall j :: 0 <= j < i ==> SlotCloned(s, kernel, src, dir, tables, frames, j))
    && (forall j :: i <= j < ENTRIES ==> dir.tables[j] == 0)
    && (forall j, k :: 0 <= j < k < i && Private(s.dirs, kernel, src, j) && Private(s.dirs, kernel, src, k) ==> dir.tables[j] != dir.tables[k])
    && (forall t :: t in s.tables ==> t in tables && tables[t] == s.tables[t])
    && tables.Keys == s.tables.Keys + OwnUpTo(s.dirs, kernel, src, dir.tables, i)
    && FramesIn(tables, OwnUpTo(s.dirs, kernel, src, dir.tables, i)) !! s.busy
    && busy == s.busy + FramesIn(tables, OwnUpTo(s.dirs, kernel, src, dir.tables, i))
    && KeptFrames(s.frames, frames, s.busy)
  }

  /** r is s with a copy d of directory src. */
  ghost predicate Cloned(s: Paged, r: Paged, kernel: int, src: int, d: int) {
    && d in r.dirs && d !in s.dirs && kernel in s.dirs && r.dirs == s.dirs[d := r.dirs[d]]
    && ClonedUpTo(s, kernel, src, r.dirs[d], r.tables, r.busy, r.frames, ENTRIES)
  }

  /** The private tables of a directory. */
  ghost function Own(dirs: Dirs, kernel: int, d: int): set<int>
    requires d in dirs
  {
    OwnUpTo(dirs, kernel, d, dirs[d].tables, |dirs[d].tables|)
  }

  /** r is s without directory d, its private tables and their frames. */
  ghost predicate Freed(s: Paged, r: Paged, kernel: int, d: int) {
    && d in s.dirs && r.dirs == s.dirs - {d} && r.tables == s.tables - Own(s.dirs, kernel, d)
    && r.busy == s.busy - FramesIn(s.tables, Own(s.dirs, kernel, d)) && r.frames == s.frames
  }

  lemma CloneStart(s: Paged, kernel: int, src: int)
    requires src in s.dirs && |s.dirs[src].tables| == |s.dirs[src].physical| == ENTRIES && (forall f :: f in s.busy ==> f in s.frames)
    ensures ClonedUpTo(s, kernel, src, Dir(seq(ENTRIES, _ => 0), seq(ENTRIES, _ => 0)), s.tables, s.busy, s.frames, 0)
    ensures Need(s, kernel, src, 0) == 0
  {
    var none := OwnUpTo(s.dirs, kernel, src, seq(ENTRIES, _ => 0), 0);
    assert none == {};
    assert FramesIn(s.tables, none) == {};
  }

  /** Line 372: a slot shared with the kernel directory. */
  lemma CloneShared(s: Paged, kernel: int, src: int, dir: Dir, tables: Tables, busy: set<int>, frames: Frames, i: int)
    requires ClonedUpTo(s, kernel, src, dir, tables, busy, frames, i) && i < ENTRIES && !Private(s.dirs, kernel, src, i)
    ensures ClonedUpTo(s, kernel, src, Dir(dir.tables[i := s.dirs[src].tables[i]], dir.physical[i := s.dirs[src].physical[i]]), tables, busy, frames, i + 1)
    ensures Need(s, kernel, src, i + 1) == Need(s, kernel, src, i)
  {
    var dir' := Dir(dir.tables[i := s.dirs[src].tables[i]], dir.physical[i := s.dirs[src].physical[i]]);
    OwnSame(s.dirs, kernel, src, dir.tables, dir'.tables, i);
    OwnNext(s.dirs, kernel, src, dir'.tables, i);
    SharedSlots(s, kernel, src, dir, dir', tables, busy, frames, i);
    hide OwnUpTo, FramesIn, Private, CopiedUpTo, KeptFrames, SlotCloned;
  }

  /** Line 369: an empty slot. */
  lemma CloneEmpty(s: Paged, kernel: int, src: int, dir: Dir, tables: Tables, busy: set<int>, frames: Frames, i: int)
    requires ClonedUpTo(s, kernel, src, dir, tables, busy, frames, i) && i < ENTRIES && s.dirs[src].tables[i] == 0
    ensures ClonedUpTo(s, kernel, src, dir, tables, busy, frames, i + 1) && Need(s, kernel, src, i + 1) == Need(s, kernel, src, i)
  {
    OwnNext(s.dirs, kernel, src, dir.tables, i);
    SharedSlots(s, kernel, src, dir, dir, tables, busy, frames, i);
    hide OwnUpTo, FramesIn, CopiedUpTo, KeptFrames, SlotCloned;
  }

  lemma SharedSlots(s: Paged, kernel: int, src: int, dir: Dir, dir': Dir, tables: Tables, busy: set<int>, frames: Frames, i: int)
    requires ClonedUpTo(s, kernel, src, dir, tables, busy, frames, i) && i < ENTRIES && !Private(s.dirs, kernel, src, i)
    requires |dir'.tables| == |dir'.physical| == ENTRIES
    requires forall j :: 0 <= j < i ==> dir'.tables[j] == dir.tables[j] && dir'.physical[j] == dir.physical[j]
    ensures (if s.dirs[src].tables[i] == 0 then dir'.tables[i] == 0
             else dir'.tables[i] == s.dirs[src].tables[i] && dir'.physical[i] == s.dirs[src].physical[i])
            ==> forall j :: 0 <= j < i + 1 ==> SlotCloned(s, kernel, src, dir', tables, frames, j)
  {
    hide OwnUpTo, FramesIn, Private, CopiedUpTo, KeptFrames;
    forall j | 0 <= j < i ensures SlotCloned(s, kernel, src, dir', tables, frames, j) {
      assert SlotCloned(s, kernel, src, dir, tables, frames, j);
    }
  }

  /** A private table hangs in the directory it was found in, and is no table of the kernel. */
  lemma PrivateSource(s: Paged, kernel: int, reserved: set<int>, n: int, src: int, i: int)
    requires Inv(s, kernel, reserved, n) && Private(s.dirs, kernel, src, i)
    ensures s.dirs[src].tables[i] in s.tables && s.dirs[src].tables[i] !in KernelTables(s.dirs, kernel)
    ensures |s.tables[s.dirs[src].tables[i]].pages| == ENTRIES
    ensures KernelTables(s.dirs, kernel) <= s.tables.Keys
  {
    PrivateTable(s, kernel, src, i);
    forall t | t in KernelTables(s.dirs, kernel) ensures t in s.tables {
      var j :| 0 <= j < |s.dirs[kernel].tables| && s.dirs[kernel].tables[j] == t && t != 0;
      assert HoldsTable(s.dirs, kernel, j, t);
    }
  }

  /** Lines 376-378: a slot with a copied table. */
  lemma CloneOwn(s: Paged, kernel: int, src: int, dir: Dir, tables: Tables, busy: set<int>, frames: Frames, i: int, t: int, tables': Tables, busy': set<int>, frames': Frames)
    requires ClonedUpTo(s, kernel, src, dir, tables, busy, frames, i) && i < ENTRIES && Private(s.dirs, kernel, src, i)
    requires s.dirs[src].tables[i] in s.tables && t !in tables && t in tables' && tables' == tables[t := tables'[t]] && t != 0 && |tables'[t].pages| == ENTRIES
    requires CopiedUpTo(s.tables[s.dirs[src].tables[i]].pages, frames, tables'[t].pages, frames', ENTRIES)
    requires forall j :: 0 <= j < ENTRIES ==> s.tables[s.dirs[src].tables[i]].pages[j].frame in s.busy
    requires FramesUpTo(tables'[t].pages, ENTRIES) !! busy && busy' == busy + FramesUpTo(tables'[t].pages, ENTRIES) && KeptFrames(frames, frames', busy)
    ensures var dir' := Dir(dir.tables[i := t], dir.physical[i := tables'[t].phys + 7]);
            ClonedUpTo(s, kernel, src, dir', tables', busy', frames', i + 1)
    ensures Need(s, kernel, src, i + 1) == Need(s, kernel, src, i) + Mapped(s.tables[s.dirs[src].tables[i]].pages, |s.tables[s.dirs[src].tables[i]].pages|)
  {
    CopyFromStart(s, frames, src, i, tables'[t].pages, frames');
    KeptTrans(s.frames, frames, frames', s.busy, busy);
    OwnSlots(s, kernel, src, dir, tables, busy, frames, i, t, tables', frames');
    OwnPlus(s, kernel, src, dir, tables, busy, frames, i, t, tables', busy');
    hide OwnUpTo, FramesIn, Private, CopiedUpTo, KeptFrames, FramesUpTo, SlotCloned;
  }

  lemma OwnPlus(s: Paged, kernel: int, src: int, dir: Dir, tables: Tables, busy: set<int>, frames: Frames, i: int, t: int, tables': Tables, busy': set<int>)
    requires ClonedUpTo(s, kernel, src, dir, tables, busy, frames, i) && i < ENTRIES && Private(s.dirs, kernel, src, i)
    requires t !in tables && t in tables' && tables' == tables[t := tables'[t]] && |tables'[t].pages| == ENTRIES
    requires FramesUpTo(tables'[t].pages, ENTRIES) !! busy && busy' == busy + FramesUpTo(tables'[t].pages, ENTRIES)
    ensures var own := OwnUpTo(s.dirs, kernel, src, dir.tables[i := t], i + 1);
            tables'.Keys == s.tables.Keys + own && FramesIn(tables', own) !! s.busy && busy' == s.busy + FramesIn(tables', own)
  {
    var ts := dir.tables[i := t];
    var own := OwnUpTo(s.dirs, kernel, src, dir.tables, i);
    OwnSame(s.dirs, kernel, src, dir.tables, ts, i);
    OwnNext(s.dirs, kernel, src, ts, i);
    hide OwnUpTo, FramesIn, Private, CopiedUpTo, KeptFrames, FramesUpTo, SlotCloned;
    assert forall u :: u in own ==> u in tables.Keys;
    FramesInSame(tables, tables', own);
    FramesInOne(tables', own, t);
  }

  lemma KeptTrans(frames: Frames, frames1: Frames, frames2: Frames, busy: set<int>, busy1: set<int>)
    requires KeptFrames(frames, frames1, busy) && KeptFrames(frames1, frames2, busy1) && busy <= busy1
    ensures KeptFrames(frames, frames2, busy)
  {
  }

  lemma CopyFromStart(s: Paged, frames: Frames, src: int, i: int, pages: seq<Page>, frames': Frames)
    requires src in s.dirs && 0 <= i < |s.dirs[src].tables| && s.dirs[src].tables[i] in s.tables && KeptFrames(s.frames, frames, s.busy)
    requires CopiedUpTo(s.tables[s.dirs[src].tables[i]].pages, frames, pages, frames', ENTRIES)
    requires forall j :: 0 <= j < ENTRIES ==> s.tables[s.dirs[src].tables[i]].pages[j].frame in s.busy
    ensures CopiedUpTo(s.tables[s.dirs[src].tables[i]].pages, s.frames, pages, frames', ENTRIES)
  {
    var from := s.tables[s.dirs[src].tables[i]].pages;
    forall j | 0 <= j < ENTRIES ensures CopiedAt(from[j], s.frames, pages[j], frames') {
      assert CopiedAt(from[j], frames, pages[j], frames');
    }
  }

  lemma OwnSlots(s: Paged, kernel: int, src: int, dir: Dir, tables: Tables, busy: set<int>, frames: Frames, i: int, t: int, tables': Tables, frames': Frames)
    requires ClonedUpTo(s, kernel, src, dir, tables, busy, frames, i) && i < ENTRIES && Private(s.dirs, kernel, src, i) && t != 0
    requires s.dirs[src].tables[i] in s.tables && t !in tables && t in tables' && tables' == tables[t := tables'[t]]
    requires CopiedUpTo(s.tables[s.dirs[src].tables[i]].pages, s.frames, tables'[t].pages, frames', ENTRIES) && KeptFrames(frames, frames', busy)
    ensures var dir' := Dir(dir.tables[i := t], dir.physical[i := tables'[t].phys + 7]);
            && (forall j :: 0 <= j < i + 1 ==> SlotCloned(s, kernel, src, dir', tables', frames', j))
            && (forall j, k :: 0 <= j < k < i + 1 && Private(s.dirs, kernel, src, j) && Private(s.dirs, kernel, src, k) ==> dir'.tables[j] != dir'.tables[k])
  {
    var dir' := Dir(dir.tables[i := t], dir.physical[i := tables'[t].phys + 7]);
    hide CopiedUpTo, KeptFrames;
    forall j | 0 <= j < i + 1 ensures SlotCloned(s, kernel, src, dir', tables', frames', j) && (j < i && Private(s.dirs, kernel, src, j) ==> dir'.tables[j] in tables) {
      if j < i {
        assert SlotCloned(s, kernel, src, dir, tables, frames, j);
        if Private(s.dirs, kernel, src, j) {
          OwnFrames(s, kernel, src, dir, tables, busy, frames, i, j);
          var from := s.tables[s.dirs[src].tables[j]].pages;
          CopyKept(from, s.frames, tables[dir.tables[j]].pages, frames, frames', busy);
        }
      }
    }
  }

  lemma OwnFrames(s: Paged, kernel: int, src: int, dir: Dir, tables: Tables, busy: set<int>, frames: Frames, i: int, j: int)
    requires ClonedUpTo(s, kernel, src, dir, tables, busy, frames, i) && 0 <= j < i && Private(s.dirs, kernel, src, j)
    ensures dir.tables[j] in tables && |tables[dir.tables[j]].pages| == ENTRIES && FramesUpTo(tables[dir.tables[j]].pages, ENTRIES) <= busy
  {
    assert SlotCloned(s, kernel, src, dir, tables, frames, j);
    var t, own := dir.tables[j], OwnUpTo(s.dirs, kernel, src, dir.tables, i);
    assert t in own;
    forall f | f in FramesUpTo(tables[t].pages, ENTRIES) ensures f in FramesIn(tables, own) {
      var k :| 0 <= k < ENTRIES && tables[t].pages[k].frame != 0 && tables[t].pages[k].frame == f;
    }
  }

  // ---------------------------------------------------------------- publishing a copy

  /** A slot of a copy is empty, the kernel directory's, or a new table. */
  lemma CloneSlot(s: Paged, kernel: int, reserved: set<int>, n: int, src: int, dir: Dir, tables: Tables, busy: set<int>, frames: Frames, j: int)
    requires Inv(s, kernel, reserved, n) && ClonedUpTo(s, kernel, src, dir, tables, busy, frames, ENTRIES) && 0 <= j < ENTRIES && dir.tables[j] != 0
    ensures if Private(s.dirs, kernel, src, j) then dir.tables[j] !in s.tables && dir.tables[j] in tables && dir.physical[j] == tables[dir.tables[j]].phys + 7
            else HoldsTable(s.dirs, kernel, j, dir.tables[j]) && dir.tables[j] in s.tables && dir.physical[j] == s.tables[dir.tables[j]].phys + 7
  {
    assert SlotCloned(s, kernel, src, dir, tables, frames, j);
    assert |s.dirs[kernel].tables| == ENTRIES;
    assert !Private(s.dirs, kernel, src, j) ==> HoldsTable(s.dirs, kernel, j, dir.tables[j]) && HoldsTable(s.dirs, src, j, dir.tables[j]);
  }

  /** Who holds a table once the copy is published as `dirs`. */
  ghost predicate Publishes(s: Paged, kernel: int, src: int, d: int, dir: Dir, tables: Tables, dirs: Dirs) {
    && d !in s.dirs && dirs == s.dirs[d := dir] && kernel in s.dirs && |dir.tables| == |dir.physical| == ENTRIES && DirSized(s.dirs)
    && EachOnce(s.dirs, kernel, src, dir.tables) && (forall t :: t in s.tables ==> t in tables && tables[t] == s.tables[t])
    && (forall e, j, t :: HoldsTable(dirs, e, j, t) && e != d ==> HoldsTable(s.dirs, e, j, t) && t in s.tables)
    && (forall j, t :: HoldsTable(dirs, d, j, t) && Private(s.dirs, kernel, src, j) ==> t !in s.tables && t in tables && dir.physical[j] == tables[t].phys + 7)
    && (forall j, t :: HoldsTable(dirs, d, j, t) && !Private(s.dirs, kernel, src, j) ==>
          HoldsTable(s.dirs, kernel, j, t) && t in s.tables && dir.physical[j] == s.tables[t].phys + 7)
  }

  lemma CloneHeld(s: Paged, kernel: int, reserved: set<int>, n: int, src: int, d: int, dir: Dir, tables: Tables, busy: set<int>, frames: Frames)
    requires Inv(s, kernel, reserved, n) && ClonedUpTo(s, kernel, src, dir, tables, busy, frames, ENTRIES) && d !in s.dirs
    ensures Publishes(s, kernel, src, d, dir, tables, s.dirs[d := dir])
  {
    var dirs := s.dirs[d := dir];
    forall j, t | HoldsTable(dirs, d, j, t)
      ensures Private(s.dirs, kernel, src, j) ==> t !in s.tables && t in tables && dir.physical[j] == tables[t].phys + 7
      ensures !Private(s.dirs, kernel, src, j) ==> HoldsTable(s.dirs, kernel, j, t) && t in s.tables && dir.physical[j] == s.tables[t].phys + 7
    {
      CloneSlot(s, kernel, reserved, n, src, dir, tables, busy, frames, j);
    }
    forall e, j, t | HoldsTable(dirs, e, j, t) && e != d ensures HoldsTable(s.dirs, e, j, t) && t in s.tables {
      assert HoldsTable(s.dirs, e, j, t);
    }
    CloneDistinct(s, kernel, src, dir, tables, busy, frames);
  }

  lemma CloneHung(s: Paged, kernel: int, reserved: set<int>, n: int, src: int, d: int, dir: Dir, tables: Tables, busy: set<int>, frames: Frames)
    requires Inv(s, kernel, reserved, n) && ClonedUpTo(s, kernel, src, dir, tables, busy, frames, ENTRIES) && d !in s.dirs
    ensures Hung(s.dirs[d := dir], tables, kernel) && KernelTables(s.dirs[d := dir], kernel) == KernelTables(s.dirs, kernel)
  {
    CloneHeld(s, kernel, reserved, n, src, d, dir, tables, busy, frames);
    hide ClonedUpTo, Owned, Stored;
    var dirs := s.dirs[d := dir];
    assert dirs[kernel] == s.dirs[kernel];
    hide HoldsTable, Private;
    PublishedOnce(s, kernel, src, d, dir, tables, dirs);
    PublishedSlots(s, kernel, src, d, dir, tables, dirs);
    forall e, j, t | HoldsTable(dirs, e, j, t) && j < |dirs[e].physical| ensures t in tables && dirs[e].physical[j] == tables[t].phys + 7 {
      PublishedWire(s, kernel, src, d, dir, tables, dirs, e, j, t);
    }
  }

  lemma PublishedWire(s: Paged, kernel: int, src: int, d: int, dir: Dir, tables: Tables, dirs: Dirs, e: int, j: int, t: int)
    requires Publishes(s, kernel, src, d, dir, tables, dirs) && Wired(s.dirs, s.tables) && HoldsTable(dirs, e, j, t) && j < |dirs[e].physical|
    ensures t in tables && dirs[e].physical[j] == tables[t].phys + 7
  {
    assert e != d ==> HoldsTable(s.dirs, e, j, t);
  }

  lemma PublishedOnce(s: Paged, kernel: int, src: int, d: int, dir: Dir, tables: Tables, dirs: Dirs)
    requires Publishes(s, kernel, src, d, dir, tables, dirs) && PrivateOnce(s.dirs, kernel)
    ensures PrivateOnce(dirs, kernel)
  {
    assert dirs[kernel] == s.dirs[kernel];
    forall e, j, e', j', t | Private(dirs, kernel, e, j) && HoldsTable(dirs, e, j, t) && HoldsTable(dirs, e', j', t) ensures e == e' && j == j' {
      if e != d {
        assert Private(s.dirs, kernel, e, j) && HoldsTable(s.dirs, e, j, t);
        assert e' == d ==> t in s.tables;
      } else {
        assert !HoldsTable(s.dirs, kernel, j, t);
        CloneOnce(s, kernel, src, d, dir, tables, dirs, j, e', j', t);
      }
    }
  }

  /** A private table of the copy hangs nowhere else. */
  lemma CloneOnce(s: Paged, kernel: int, src: int, d: int, dir: Dir, tables: Tables, dirs: Dirs, j: int, e: int, k: int, t: int)
    requires Publishes(s, kernel, src, d, dir, tables, dirs)
    requires HoldsTable(dirs, d, j, t) && HoldsTable(dirs, e, k, t) && !HoldsTable(s.dirs, kernel, j, t)
    ensures e == d && k == j
  {
    assert CopySlot(s.dirs, kernel, src, dir.tables, j, t);
    assert e == d;
    assert CopySlot(s.dirs, kernel, src, dir.tables, k, t);
  }

  lemma PublishedSlots(s: Paged, kernel: int, src: int, d: int, dir: Dir, tables: Tables, dirs: Dirs)
    requires Publishes(s, kernel, src, d, dir, tables, dirs) && SameSlot(s.dirs)
    ensures SameSlot(dirs)
  {
    forall e, j, e', j', t | HoldsTable(dirs, e, j, t) && HoldsTable(dirs, e', j', t) ensures j == j' {
      if e == d && !HoldsTable(s.dirs, kernel, j, t) {
        CloneOnce(s, kernel, src, d, dir, tables, dirs, j, e', j', t);
      } else if e' == d && !HoldsTable(s.dirs, kernel, j', t) {
        CloneOnce(s, kernel, src, d, dir, tables, dirs, j', e, j, t);
      } else {
        assert HoldsTable(s.dirs, if e == d then kernel else e, j, t) && HoldsTable(s.dirs, if e' == d then kernel else e', j', t);
      }
    }
  }

  predicate CopySlot(dirs: Dirs, kernel: int, src: int, ts: seq<int>, j: int, t: int) {
    0 <= j < |ts| && ts[j] == t && Private(dirs, kernel, src, j)
  }

  /** No table is in two private slots of the copy. */
  ghost predicate EachOnce(dirs: Dirs, kernel: int, src: int, ts: seq<int>) {
    forall j, k, t :: CopySlot(dirs, kernel, src, ts, j, t) && CopySlot(dirs, kernel, src, ts, k, t) ==> j == k
  }

  lemma CloneDistinct(s: Paged, kernel: int, src: int, dir: Dir, tables: Tables, busy: set<int>, frames: Frames)
    requires ClonedUpTo(s, kernel, src, dir, tables, busy, frames, ENTRIES)
    ensures EachOnce(s.dirs, kernel, src, dir.tables)
  {
  }

  // ---------------------------------------------------------------- releasing a directory

  ghost predicate FreedUpTo(s: Paged, tables: Tables, busy: set<int>, kernel: int, d: int, i: int) {
    && d in s.dirs && 0 <= i <= |s.dirs[d].tables|
    && tables == s.tables - OwnUpTo(s.dirs, kernel, d, s.dirs[d].tables, i)
    && busy == s.busy - FramesIn(s.tables, OwnUpTo(s.dirs, kernel, d, s.dirs[d].tables, i))
  }

  lemma FreeStart(s: Paged, kernel: int, d: int)
    requires d in s.dirs
    ensures FreedUpTo(s, s.tables, s.busy, kernel, d, 0)
  {
    var none := OwnUpTo(s.dirs, kernel, d, s.dirs[d].tables, 0);
    assert none == {};
    assert FramesIn(s.tables, none) == {};
  }

  /** The i-th private table is still there: it is none of the earlier ones. */
  lemma StillThere(s: Paged, tables: Tables, busy: set<int>, kernel: int, d: int, i: int)
    requires Hung(s.dirs, s.tables, kernel) && FreedUpTo(s, tables, busy, kernel, d, i) && Private(s.dirs, kernel, d, i)
    ensures var t := s.dirs[d].tables[i]; t in s.tables && t in tables && tables[t] == s.tables[t] && t !in KernelTables(s.dirs, kernel)
  {
    PrivateTable(s, kernel, d, i);
    var t := s.dirs[d].tables[i];
    forall j | 0 <= j < i && Private(s.dirs, kernel, d, j) ensures s.dirs[d].tables[j] != t {
      assert HoldsTable(s.dirs, d, j, s.dirs[d].tables[j]) && HoldsTable(s.dirs, d, i, t);
    }
  }

  lemma FreeNext(s: Paged, tables: Tables, busy: set<int>, kernel: int, d: int, i: int, busy': set<int>)
    requires FreedUpTo(s, tables, busy, kernel, d, i) && Private(s.dirs, kernel, d, i)
    requires var t := s.dirs[d].tables[i]; t in s.tables && busy' == busy - FramesUpTo(s.tables[t].pages, |s.tables[t].pages|)
    ensures FreedUpTo(s, tables - {s.dirs[d].tables[i]}, busy', kernel, d, i + 1)
  {
    var t, own := s.dirs[d].tables[i], OwnUpTo(s.dirs, kernel, d, s.dirs[d].tables, i);
    OwnNext(s.dirs, kernel, d, s.dirs[d].tables, i);
    FramesInOne(s.tables, own, t);
    hide OwnUpTo, FramesIn, FramesUpTo, Private;
    assert s.tables - own - {t} == s.tables - (own + {t});
  }

  lemma FreeSkip(s: Paged, tables: Tables, busy: set<int>, kernel: int, d: int, i: int)
    requires FreedUpTo(s, tables, busy, kernel, d, i) && i < |s.dirs[d].tables| && !Private(s.dirs, kernel, d, i)
    ensures FreedUpTo(s, tables, busy, kernel, d, i + 1)
  {
    OwnNext(s.dirs, kernel, d, s.dirs[d].tables, i);
  }

  /** What is left still hangs together. */
  lemma FreeHung(s: Paged, kernel: int, d: int)
    requires Hung(s.dirs, s.tables, kernel) && d in s.dirs && d != kernel
    ensures Hung(s.dirs - {d}, s.tables - Own(s.dirs, kernel, d), kernel)
    ensures KernelTables(s.dirs - {d}, kernel) == KernelTables(s.dirs, kernel)
  {
    var dirs := s.dirs - {d};
    forall e, j, t | HoldsTable(dirs, e, j, t) ensures HoldsTable(s.dirs, e, j, t) && t !in Own(s.dirs, kernel, d) {
      OthersKeep(s, kernel, d, e, j, t);
    }
    forall e, j | Private(dirs, kernel, e, j) ensures Private(s.dirs, kernel, e, j) {}
  }

  /** A table in another directory is no private table of d. */
  lemma OthersKeep(s: Paged, kernel: int, d: int, e: int, j: int, t: int)
    requires Hung(s.dirs, s.tables, kernel) && d in s.dirs && HoldsTable(s.dirs, e, j, t) && e != d
    ensures t !in Own(s.dirs, kernel, d)
  {
    forall k | 0 <= k < |s.dirs[d].tables| && Private(s.dirs, kernel, d, k) ensures s.dirs[d].tables[k] != t {
      assert HoldsTable(s.dirs, d, k, s.dirs[d].tables[k]);
    }
  }
}
