/** Hanging new tables into page directories. */
module PageDirs {
  import opened Machine
  import opened PageFrames
  import opened PageTables

  /** Slot i of directory d gets table t with physical address phys, as `phys | 0x7`. */
  function Hang(dirs: Dirs, d: int, i: int, t: int, phys: int): Dirs
    requires d in dirs && 0 <= i < |dirs[d].tables| && i < |dirs[d].physical|
  {
    dirs[d := Dir(dirs[d].tables[i := t], dirs[d].physical[i := phys + 7])]
  }

  lemma HangHolds(dirs: Dirs, d: int, i: int, t: int, phys: int)
    requires d in dirs && 0 <= i < |dirs[d].tables| && i < |dirs[d].physical| && t != 0
    ensures forall e, j, u :: HoldsTable(Hang(dirs, d, i, t, phys), e, j, u) <==> if e == d && j == i then u == t else HoldsTable(dirs, e, j, u)
    ensures Hang(dirs, d, i, t, phys).Keys == dirs.Keys
    ensures forall e :: e in dirs ==> |Hang(dirs, d, i, t, phys)[e].tables| == |dirs[e].tables| && |Hang(dirs, d, i, t, phys)[e].physical| == |dirs[e].physical|
    ensures forall e, j :: e in dirs && 0 <= j < |dirs[e].physical| ==>
              Hang(dirs, d, i, t, phys)[e].physical[j] == if e == d && j == i then phys + 7 else dirs[e].physical[j]
  {
  }

  lemma HangKeeps(dirs: Dirs, tables: Tables, kernel: int, d: int, i: int, t: int, phys: int)
    requires Hung(dirs, tables, kernel) && d in dirs && 0 <= i < ENTRIES && t != 0 && t !in tables
    requires |dirs[d].tables| == ENTRIES ==> dirs[d].tables[i] == 0
    ensures |dirs[d].tables| == ENTRIES && |dirs[d].physical| == ENTRIES
    ensures Hung(Hang(dirs, d, i, t, phys), tables[t := Table(Blank(), phys)], kernel)
    ensures KernelTables(Hang(dirs, d, i, t, phys), kernel) == if d == kernel then KernelTables(dirs, kernel) + {t} else KernelTables(dirs, kernel)
  {
    var after := Hang(dirs, d, i, t, phys);
    HangHolds(dirs, d, i, t, phys);
    assert forall e, j :: HoldsTable(dirs, e, j, t) ==> false;
    HangKernel(dirs, kernel, d, i, t, phys);
    hide Hang, HoldsTable, Blank;
    HangPrivate(dirs, tables, kernel, d, i, t, phys);
  }

  lemma HangKernel(dirs: Dirs, kernel: int, d: int, i: int, t: int, phys: int)
    requires d in dirs && kernel in dirs && 0 <= i < |dirs[d].tables| && i < |dirs[d].physical| && t != 0 && dirs[d].tables[i] == 0
    ensures kernel in Hang(dirs, d, i, t, phys)
    ensures KernelTables(Hang(dirs, d, i, t, phys), kernel) == if d == kernel then KernelTables(dirs, kernel) + {t} else KernelTables(dirs, kernel)
  {
    var after := Hang(dirs, d, i, t, phys);
    if d == kernel {
      assert after[kernel].tables[i] == t;
      forall u | u in KernelTables(dirs, kernel) ensures u in KernelTables(after, kernel) {
        var j :| 0 <= j < |dirs[kernel].tables| && dirs[kernel].tables[j] == u && u != 0;
        assert after[kernel].tables[j] == u;
      }
    } else {
      assert after[kernel] == dirs[kernel];
    }
  }

  lemma HangPrivate(dirs: Dirs, tables: Tables, kernel: int, d: int, i: int, t: int, phys: int)
    requires Hung(dirs, tables, kernel) && d in dirs && 0 <= i < ENTRIES && t != 0 && t !in tables
    requires |dirs[d].tables| == ENTRIES ==> dirs[d].tables[i] == 0
    ensures |dirs[d].tables| == ENTRIES && |dirs[d].physical| == ENTRIES && PrivateOnce(Hang(dirs, d, i, t, phys), kernel)
  {
    var after := Hang(dirs, d, i, t, phys);
    HangHolds(dirs, d, i, t, phys);
    assert forall e, j :: HoldsTable(dirs, e, j, t) ==> false;
    forall e, j, e', j', u | Private(after, kernel, e, j) && HoldsTable(after, e, j, u) && HoldsTable(after, e', j', u) ensures e == e' && j == j' {
      if u != t {
        assert HoldsTable(dirs, e, j, u) && HoldsTable(dirs, e', j', u);
        assert Private(dirs, kernel, e, j);
      }
    }
  }

  /** A new blank table changes no entry of any directory. */
  lemma HangSame(s: Paged, kernel: int, d: int, i: int, t: int, phys: int, e: int, v: int)
    requires Hung(s.dirs, s.tables, kernel) && d in s.dirs && 0 <= i < ENTRIES && t != 0 && t !in s.tables && 0 !in s.tables
    requires |s.dirs[d].tables| == ENTRIES ==> s.dirs[d].tables[i] == 0
    ensures |s.dirs[d].tables| == ENTRIES && |s.dirs[d].physical| == ENTRIES
    ensures EntryOf(s.(tables := s.tables[t := Table(Blank(), phys)], dirs := Hang(s.dirs, d, i, t, phys)), e, v) == EntryOf(s, e, v)
  {
    if Word(v) && e in s.dirs {
      Indices(v);
      assert s.dirs[e].tables[Slot(v)] != 0 ==> HoldsTable(s.dirs, e, Slot(v), s.dirs[e].tables[Slot(v)]);
    }
  }

  function PageOf(v: int): int {
    v / PAGE_SIZE
  }

  lemma PageParts(v: int, a: int)
    requires Word(v) && Word(a)
    ensures PageOf(v) == PageOf(a) <==> Slot(v) == Slot(a) && Offset(v) == Offset(a)
  {
  }

  lemma SamePart(v: int, a: int)
    requires PageOf(v) == PageOf(a)
    ensures Slot(v) == Slot(a) && Offset(v) == Offset(a)
  {
  }

  /** What processes see when the entry behind address a of directory d is set to p. */
  ghost predicate Changed(s: Paged, r: Paged, d: int, a: int, p: Page) {
    && (forall v :: Word(v) && PageOf(v) == PageOf(a) ==> EntryOf(r, d, v) == p)
    && (forall e, v :: PageOf(v) != PageOf(a) ==> EntryOf(r, e, v) == EntryOf(s, e, v))
    && (forall e, v :: EntryOf(r, e, v) == EntryOf(s, e, v) || EntryOf(s, e, v) == EntryOf(s, d, a))
  }

  lemma SetEntryView(s: Paged, r: Paged, kernel: int, d: int, a: int, p: Page)
    requires Hung(s.dirs, s.tables, kernel) && Sized(s.tables) && Word(a) && d in s.dirs
    requires 0 <= Slot(a) < |s.dirs[d].tables| ==> s.dirs[d].tables[Slot(a)] != 0
    ensures 0 <= Slot(a) < |s.dirs[d].tables| && 0 <= Offset(a) < ENTRIES
    ensures var t := s.dirs[d].tables[Slot(a)]; t in s.tables && |s.tables[t].pages| == ENTRIES && s.tables[t].pages[Offset(a)] == EntryOf(s, d, a)
    ensures r.dirs == s.dirs && r.tables == SetEntry(s.tables, s.dirs[d].tables[Slot(a)], Offset(a), p) ==> Changed(s, r, d, a, p)
  {
    Indices(a);
    var t := s.dirs[d].tables[Slot(a)];
    assert HoldsTable(s.dirs, d, Slot(a), t);
    assert |s.tables[t].pages| == ENTRIES;
    if r.dirs == s.dirs && r.tables == SetEntry(s.tables, t, Offset(a), p) {
      forall v | Word(v) && PageOf(v) == PageOf(a) ensures EntryOf(r, d, v) == p {
        SamePart(v, a);
      }
      forall e, v
        ensures PageOf(v) != PageOf(a) ==> EntryOf(r, e, v) == EntryOf(s, e, v)
        ensures EntryOf(r, e, v) == EntryOf(s, e, v) || EntryOf(s, e, v) == EntryOf(s, d, a)
      {
        SetEntryOne(s, r, kernel, d, a, p, e, v);
      }
    }
  }

  lemma SetEntryOne(s: Paged, r: Paged, kernel: int, d: int, a: int, p: Page, e: int, v: int)
    requires Hung(s.dirs, s.tables, kernel) && Sized(s.tables) && Word(a) && d in s.dirs && 0 <= Slot(a) < |s.dirs[d].tables| && 0 <= Offset(a) < ENTRIES
    requires HoldsTable(s.dirs, d, Slot(a), s.dirs[d].tables[Slot(a)]) && s.dirs[d].tables[Slot(a)] in s.tables
    requires r.dirs == s.dirs && |s.tables[s.dirs[d].tables[Slot(a)]].pages| == ENTRIES
    requires r.tables == SetEntry(s.tables, s.dirs[d].tables[Slot(a)], Offset(a), p)
    ensures PageOf(v) != PageOf(a) ==> EntryOf(r, e, v) == EntryOf(s, e, v)
    ensures EntryOf(r, e, v) == EntryOf(s, e, v) || EntryOf(s, e, v) == EntryOf(s, d, a)
  {
    if Word(v) && e in s.dirs {
      Indices(v);
      PageParts(v, a);
      hide Slot, Offset, PageOf;
      var u := s.dirs[e].tables[Slot(v)];
      assert u != 0 ==> HoldsTable(s.dirs, e, Slot(v), u);
    }
  }
}
