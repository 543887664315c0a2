/** Giving frames to page entries and taking them back, and new and released page tables. */
module PageFrames {
  import opened PageTables

  function SetEntry(tables: Tables, t: int, i: int, p: Page): Tables
    requires t in tables && 0 <= i < |tables[t].pages|
  {
    tables[t := tables[t].(pages := tables[t].pages[i := p])]
  }

  lemma SetEntryHolds(tables: Tables, t: int, i: int, p: Page)
    requires t in tables && 0 <= i < |tables[t].pages|
    ensures var after := SetEntry(tables, t, i, p);
            forall u, j, f :: HoldsFrame(after, u, j, f) <==> if u == t && j == i then f == p.frame else HoldsFrame(tables, u, j, f)
    ensures var after := SetEntry(tables, t, i, p);
            after.Keys == tables.Keys && (forall u :: u in tables ==> |after[u].pages| == |tables[u].pages| && after[u].phys == tables[u].phys)
            && (forall u, j :: u in tables && 0 <= j < |tables[u].pages| ==> after[u].pages[j] == if u == t && j == i then p else tables[u].pages[j])
  {
  }

  /** An entry without a frame gets one that is free, or any reserved one in a table of the kernel. */
  lemma GiveFrame(tables: Tables, busy: set<int>, reserved: set<int>, kernelTables: set<int>, t: int, i: int, p: Page)
    requires Owned(tables, busy, reserved, kernelTables) && t in tables && 0 <= i < ENTRIES && tables[t].pages[i].frame == 0
    requires p.present && (p.frame !in busy || (p.frame in reserved && t in kernelTables))
    ensures |tables[t].pages| == ENTRIES && Owned(SetEntry(tables, t, i, p), busy + {p.frame}, reserved, kernelTables)
  {
    var after := SetEntry(tables, t, i, p);
    SetEntryHolds(tables, t, i, p);
    hide SetEntry, HoldsFrame;
    assert HoldsFrame(after, t, i, p.frame);
    forall f | f in busy + {p.frame} && f !in reserved ensures HeldOnce(after, f) {
      if f != p.frame {
        assert HeldOnce(tables, f);
        var u, j :| HoldsFrame(tables, u, j, f);
        NotThere(tables, t, i, 0, u, j, f);
        assert HoldsFrame(after, u, j, f);
      }
    }
    forall u, j, u', j', f | HoldsFrame(after, u, j, f) && HoldsFrame(after, u', j', f) && f !in reserved ensures u == u' && j == j' {
      assert HoldsFrame(tables, u, j, f) ==> f in busy;
      assert HoldsFrame(tables, u', j', f) ==> f in busy;
    }
  }

  lemma NotThere(tables: Tables, t: int, i: int, g: int, u: int, j: int, f: int)
    requires t in tables && 0 <= i < |tables[t].pages| && tables[t].pages[i].frame == g && HoldsFrame(tables, u, j, f) && f != g
    ensures u != t || j != i
  {
  }

  /** An entry gives up a frame that is not reserved. */
  lemma TakeFrame(tables: Tables, busy: set<int>, reserved: set<int>, kernelTables: set<int>, t: int, i: int, p: Page)
    requires Owned(tables, busy, reserved, kernelTables) && t in tables && 0 <= i < ENTRIES
    requires |tables[t].pages| == ENTRIES ==> tables[t].pages[i].frame !in reserved
    requires p.frame == 0 && !p.present
    ensures |tables[t].pages| == ENTRIES && Owned(SetEntry(tables, t, i, p), busy - {tables[t].pages[i].frame}, reserved, kernelTables)
  {
    var g := tables[t].pages[i].frame;
    var after := SetEntry(tables, t, i, p);
    assert HoldsFrame(tables, t, i, g);
    SetEntryHolds(tables, t, i, p);
    hide SetEntry;
    hide HoldsFrame;
    forall f | f in busy - {g} && f !in reserved ensures HeldOnce(after, f) {
      assert HeldOnce(tables, f);
      var u, j :| HoldsFrame(tables, u, j, f);
      NotThere(tables, t, i, g, u, j, f);
      assert HoldsFrame(after, u, j, f);
    }
    forall u, j, f | HoldsFrame(after, u, j, f) ensures f in busy - {g} {
      if u != t || j != i { assert HoldsFrame(tables, u, j, f); }
    }
  }

  /** memset of a new table. */
  function Blank(): (pages: seq<Page>)
    ensures |pages| == ENTRIES && forall i :: 0 <= i < ENTRIES ==> pages[i] == BLANK
  {
    seq(ENTRIES, _ => BLANK)
  }

  lemma AddTable(tables: Tables, busy: set<int>, reserved: set<int>, kernelTables: set<int>, t: int, phys: int, kernelTables': set<int>)
    requires Owned(tables, busy, reserved, kernelTables) && t !in tables
    requires kernelTables' == kernelTables || kernelTables' == kernelTables + {t}
    ensures Owned(tables[t := Table(Blank(), phys)], busy, reserved, kernelTables')
  {
    var after := tables[t := Table(Blank(), phys)];
    forall u, j, f | HoldsFrame(after, u, j, f) ensures if u == t then f == 0 else HoldsFrame(tables, u, j, f) {}
    forall f | f in busy && f !in reserved ensures HeldOnce(after, f) {
      var u, j :| HoldsFrame(tables, u, j, f);
      assert HoldsFrame(after, u, j, f);
    }
  }

  /** kfree of a table whose entries hold no frames any more. */
  lemma DropTable(tables: Tables, busy: set<int>, reserved: set<int>, kernelTables: set<int>, t: int)
    requires Owned(tables, busy, reserved, kernelTables) && t in tables
    requires forall i :: 0 <= i < |tables[t].pages| ==> tables[t].pages[i].frame == 0
    ensures Owned(tables - {t}, busy, reserved, kernelTables)
  {
    var after := tables - {t};
    assert forall u, j, f :: HoldsFrame(after, u, j, f) ==> HoldsFrame(tables, u, j, f);
    forall f | f in busy && f !in reserved ensures HeldOnce(after, f) {
      assert HeldOnce(tables, f);
      var u, j :| HoldsFrame(tables, u, j, f);
      assert HoldsFrame(after, u, j, f);
    }
  }

  // ---------------------------------------------------------------- counting

  predicate Below(f: int, n: int) {
    0 <= f < n
  }

  /** All n frames. */
  ghost function AllFrames(n: nat): set<int> {
    set f | 0 <= f < n && Below(f, n)
  }

  lemma {:induction false} AllSize(n: nat)
    ensures |AllFrames(n)| == n
  {
    if n > 0 {
      AllSize(n - 1);
      forall f ensures f in AllFrames(n) <==> f in AllFrames(n - 1) + {n - 1} {
        assert Below(f, n) <==> Below(f, n - 1) || f == n - 1;
      }
      assert AllFrames(n) == AllFrames(n - 1) + {n - 1};
    }
  }

  /** There is a free frame exactly when fewer than n are in use. */
  lemma FreeCount(busy: set<int>, n: nat)
    requires forall f :: f in busy ==> 0 <= f < n
    ensures |busy| <= n && (|busy| == n <==> forall f :: 0 <= f < n ==> f in busy)
  {
    AllSize(n);
    assert forall f :: Below(f, n) ==> f in AllFrames(n);
    assert forall f :: f in busy ==> Below(f, n);
    SubsetSize(busy, AllFrames(n));
  }

  lemma SubsetSize(a: set<int>, b: set<int>)
    requires a <= b
    ensures |a| <= |b| && (|a| == |b| <==> a == b)
  {
    assert b == a + (b - a);
    assert |b| == |a| + |b - a|;
    assert |b - a| == 0 ==> b - a == {};
  }
}
