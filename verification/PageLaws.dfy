/** What cloning and releasing page directories mean for the processes that run in them. */
module PageLaws {
  import opened Machine
  import opened PageClones
  import opened PageTables

  /** Entries that stay keep reading the same. */
  lemma SameEntryReads(s: Paged, r: Paged, reserved: set<int>, n: int, kernel: int, d: int, e: int, v: int)
    requires Inv(s, kernel, reserved, n) && KeptFrames(s.frames, r.frames, s.busy) && EntryOf(r, e, v) == EntryOf(s, d, v)
    ensures Read(r, e, v) == Read(s, d, v)
  {
    if EntryOf(s, d, v).present {
      Walks(s, d, v);
    }
  }

  /** A clone reads at every address what its source reads, and faults where its source faults. */
  lemma CloneReads(s: Paged, r: Paged, kernel: int, reserved: set<int>, n: int, src: int, d: int, v: int)
    requires Inv(s, kernel, reserved, n) && Cloned(s, r, kernel, src, d)
    ensures Read(r, d, v) == Read(s, src, v)
  {
    if Word(v) {
      Indices(v);
      var j := Slot(v);
      assert SlotCloned(s, kernel, src, r.dirs[d], r.tables, r.frames, j);
      if Private(s.dirs, kernel, src, j) {
        PrivateSource(s, kernel, reserved, n, src, j);
        CopyReads(s, r, kernel, reserved, n, s.dirs[src].tables[j], r.dirs[d].tables[j], Offset(v), v);
        hide Read, Slot, Offset;
        ReadIs(s, src, v);
        ReadIs(r, d, v);
      } else {
        if s.dirs[src].tables[j] != 0 {
          CloneSlot(s, kernel, reserved, n, src, r.dirs[d], r.tables, r.busy, r.frames, j);
        }
        SameEntryReads(s, r, reserved, n, kernel, src, d, v);
      }
    }
  }

  /** And every page of the clone that has a frame is as writeable and as open to user mode as in the source. */
  lemma CloneFlags(s: Paged, r: Paged, kernel: int, reserved: set<int>, n: int, src: int, d: int, v: int)
    requires Inv(s, kernel, reserved, n) && Cloned(s, r, kernel, src, d)
    ensures var (p, p') := (EntryOf(s, src, v), EntryOf(r, d, v));
            && (p'.frame == 0 <==> p.frame == 0)
            && (p.frame != 0 ==>
                  && p'.present == p.present && p'.rw == p.rw && p'.user == p.user && p'.accessed == p.accessed && p'.dirty == p.dirty
                  && p'.isKernel == p.isKernel)
  {
    if Word(v) {
      Indices(v);
      var j := Slot(v);
      assert SlotCloned(s, kernel, src, r.dirs[d], r.tables, r.frames, j);
      if Private(s.dirs, kernel, src, j) {
        PrivateSource(s, kernel, reserved, n, src, j);
        CopyFlags(s, r, s.dirs[src].tables[j], r.dirs[d].tables[j], Offset(v));
      } else if s.dirs[src].tables[j] != 0 {
        CloneSlot(s, kernel, reserved, n, src, r.dirs[d], r.tables, r.busy, r.frames, j);
      }
    }
  }

  lemma CopyFlags(s: Paged, r: Paged, u: int, t: int, i: int)
    requires u in s.tables && t in r.tables && 0 <= i < ENTRIES && |s.tables[u].pages| == ENTRIES
    requires CopiedUpTo(s.tables[u].pages, s.frames, r.tables[t].pages, r.frames, ENTRIES)
    ensures |r.tables[t].pages| == ENTRIES
    ensures var (p, p') := (s.tables[u].pages[i], r.tables[t].pages[i]); (p'.frame == 0 <==> p.frame == 0) && (p.frame != 0 ==> p' == p.(frame := p'.frame))
  {
    assert CopiedAt(s.tables[u].pages[i], s.frames, r.tables[t].pages[i], r.frames);
  }

  /** What an entry reads at an offset in its page. */
  function ReadEntry(e: Page, frames: Frames, v: int): Byte {
    if e.present && e.frame in frames && 0 <= v % PAGE_SIZE < |frames[e.frame]| then Value(frames[e.frame][v % PAGE_SIZE]) else Fault
  }

  lemma ReadIs(s: Paged, d: int, v: int)
    ensures Read(s, d, v) == ReadEntry(EntryOf(s, d, v), s.frames, v)
  {
  }

  /** An entry of a copied table reads like the entry it was copied from. */
  lemma CopyReads(s: Paged, r: Paged, kernel: int, reserved: set<int>, n: int, u: int, t: int, i: int, v: int)
    requires Inv(s, kernel, reserved, n) && u in s.tables && u !in KernelTables(s.dirs, kernel) && t in r.tables && 0 <= i < ENTRIES
    requires CopiedUpTo(s.tables[u].pages, s.frames, r.tables[t].pages, r.frames, ENTRIES)
    ensures |s.tables[u].pages| == |r.tables[t].pages| == ENTRIES
    ensures ReadEntry(r.tables[t].pages[i], r.frames, v) == ReadEntry(s.tables[u].pages[i], s.frames, v)
  {
    assert CopiedAt(s.tables[u].pages[i], s.frames, r.tables[t].pages[i], r.frames);
    assert HoldsFrame(s.tables, u, i, s.tables[u].pages[i].frame);
  }

  /** A bit outside the reserved set is set exactly when one page entry, and one only, holds that frame. */
  lemma BitExact(s: Paged, kernel: int, reserved: set<int>, n: int, f: int)
    requires Inv(s, kernel, reserved, n) && f !in reserved
    ensures f in s.busy <==> HeldOnce(s.tables, f)
    ensures forall t, i, t', i' :: HoldsFrame(s.tables, t, i, f) && HoldsFrame(s.tables, t', i', f) ==> t == t' && i == i'
  {
  }

  /** Cloning changes nothing for the directories that are there already. */
  lemma CloneKeeps(s: Paged, r: Paged, kernel: int, reserved: set<int>, n: int, src: int, d: int, e: int, v: int)
    requires Inv(s, kernel, reserved, n) && Cloned(s, r, kernel, src, d) && e in s.dirs
    ensures EntryOf(r, e, v) == EntryOf(s, e, v) && Read(r, e, v) == Read(s, e, v)
  {
    SameEntryOther(s, r, kernel, reserved, n, src, d, e, v);
    SameEntryReads(s, r, reserved, n, kernel, e, e, v);
  }

  lemma SameEntryOther(s: Paged, r: Paged, kernel: int, reserved: set<int>, n: int, src: int, d: int, e: int, v: int)
    requires Inv(s, kernel, reserved, n) && Cloned(s, r, kernel, src, d) && e in s.dirs
    ensures EntryOf(r, e, v) == EntryOf(s, e, v)
  {
    if Word(v) {
      Indices(v);
      hide Slot, Offset;
      var t := s.dirs[e].tables[Slot(v)];
      assert t != 0 ==> HoldsTable(s.dirs, e, Slot(v), t);
    }
  }

  /** After a fork, a store by one process to a page of its own leaves every byte the other one reads as it was at the fork. */
  lemma ForkIsolates(s: Paged, r: Paged, kernel: int, reserved: set<int>, n: int, src: int, d: int, v: int, b: int, v': int)
    requires Inv(s, kernel, reserved, n) && Cloned(s, r, kernel, src, d) && Inv(r, kernel, reserved, n)
    ensures PrivateAt(r, kernel, src, v) ==> Read(Write(r, src, v, b), d, v') == Read(s, src, v')
    ensures PrivateAt(r, kernel, d, v) ==> Read(Write(r, d, v, b), src, v') == Read(s, src, v')
  {
    hide Inv, Read, Write, ClonedUpTo, Private;
    CloneReads(s, r, kernel, reserved, n, src, d, v');
    SourceThere(s, kernel, src, d, r);
    CloneKeeps(s, r, kernel, reserved, n, src, d, src, v');
    if PrivateAt(r, kernel, src, v) { WriteIsolated(r, kernel, reserved, n, src, v, b, d, v'); }
    if PrivateAt(r, kernel, d, v) { WriteIsolated(r, kernel, reserved, n, d, v, b, src, v'); }
  }

  lemma SourceThere(s: Paged, kernel: int, src: int, d: int, r: Paged)
    requires Cloned(s, r, kernel, src, d)
    ensures src in s.dirs && src != d
  {
  }

  /** Releasing a directory leaves what all others read as it was. */
  lemma FreeKeeps(s: Paged, r: Paged, kernel: int, reserved: set<int>, n: int, d: int, e: int, v: int)
    requires Inv(s, kernel, reserved, n) && Freed(s, r, kernel, d) && e in s.dirs && e != d
    ensures Read(r, e, v) == Read(s, e, v)
  {
    if Word(v) {
      Indices(v);
      hide Slot, Offset, Own;
      var t := s.dirs[e].tables[Slot(v)];
      if t != 0 {
        assert HoldsTable(s.dirs, e, Slot(v), t);
        OthersKeep(s, kernel, d, e, Slot(v), t);
      }
    }
  }

  /** freeDir undoes cloneDir: the bitmap, the tables and the directories are what they were, and every byte reads the same. */
  lemma FreeUndoesClone(s: Paged, r: Paged, r2: Paged, kernel: int, reserved: set<int>, n: int, src: int, d: int)
    requires Inv(s, kernel, reserved, n) && Cloned(s, r, kernel, src, d) && Freed(r, r2, kernel, d)
    ensures r2.busy == s.busy && r2.tables == s.tables && r2.dirs == s.dirs && KeptFrames(s.frames, r2.frames, s.busy)
    ensures forall e, v :: Read(r2, e, v) == Read(s, e, v)
  {
    CopyOwns(s, r, kernel, reserved, n, src, d);
    hide Own, FramesIn, OwnUpTo;
    assert r2.dirs == s.dirs;
    KeysBack(s, r, r2, kernel, reserved, n, src, d);
    forall t | t in s.tables ensures t in r2.tables && r2.tables[t] == s.tables[t] { assert t in r2.tables.Keys; }
    assert r2.tables == s.tables;
    forall e, v ensures Read(r2, e, v) == Read(s, e, v) {
      SameEntryReads(s, r2, reserved, n, kernel, e, e, v);
    }
  }

  /** The private tables of the copy are the new ones. */
  lemma CopyOwns(s: Paged, r: Paged, kernel: int, reserved: set<int>, n: int, src: int, d: int)
    requires Inv(s, kernel, reserved, n) && Cloned(s, r, kernel, src, d)
    ensures Own(r.dirs, kernel, d) == OwnUpTo(s.dirs, kernel, src, r.dirs[d].tables, ENTRIES)
  {
    var dir := r.dirs[d];
    assert r.dirs[kernel] == s.dirs[kernel];
    forall j | 0 <= j < ENTRIES ensures Private(r.dirs, kernel, d, j) <==> Private(s.dirs, kernel, src, j) {
      if dir.tables[j] != 0 {
        CloneSlot(s, kernel, reserved, n, src, dir, r.tables, r.busy, r.frames, j);
        assert s.dirs[kernel].tables[j] != 0 ==> HoldsTable(s.dirs, kernel, j, s.dirs[kernel].tables[j]);
      } else {
        assert SlotCloned(s, kernel, src, dir, r.tables, r.frames, j);
      }
    }
    hide Private;
    SameOwn(s.dirs, r.dirs, kernel, src, d, dir.tables);
  }

  lemma SameOwn(dirs: Dirs, dirs': Dirs, kernel: int, d: int, d': int, ts: seq<int>)
    requires |ts| == ENTRIES && forall j :: 0 <= j < ENTRIES ==> (Private(dirs', kernel, d', j) <==> Private(dirs, kernel, d, j))
    ensures OwnUpTo(dirs', kernel, d', ts, ENTRIES) == OwnUpTo(dirs, kernel, d, ts, ENTRIES)
  {
    hide Private;
    forall t | t in OwnUpTo(dirs, kernel, d, ts, ENTRIES) ensures t in OwnUpTo(dirs', kernel, d', ts, ENTRIES) {
      var j :| 0 <= j < ENTRIES && Private(dirs, kernel, d, j) && ts[j] == t;
      assert Private(dirs', kernel, d', j);
    }
    forall t | t in OwnUpTo(dirs', kernel, d', ts, ENTRIES) ensures t in OwnUpTo(dirs, kernel, d, ts, ENTRIES) {
      var j :| 0 <= j < ENTRIES && Private(dirs', kernel, d', j) && ts[j] == t;
      assert Private(dirs, kernel, d, j);
    }
  }

  /** No table of the copy's own was there before. */
  lemma KeysBack(s: Paged, r: Paged, r2: Paged, kernel: int, reserved: set<int>, n: int, src: int, d: int)
    requires Inv(s, kernel, reserved, n) && Cloned(s, r, kernel, src, d) && Freed(r, r2, kernel, d)
    requires Own(r.dirs, kernel, d) == OwnUpTo(s.dirs, kernel, src, r.dirs[d].tables, ENTRIES)
    ensures r2.tables.Keys == s.tables.Keys
  {
    var own := OwnUpTo(s.dirs, kernel, src, r.dirs[d].tables, ENTRIES);
    forall t | t in own ensures t !in s.tables {
      var j :| 0 <= j < ENTRIES && Private(s.dirs, kernel, src, j) && r.dirs[d].tables[j] == t;
      assert SlotCloned(s, kernel, src, r.dirs[d], r.tables, r.frames, j);
    }
    hide OwnUpTo, Own;
    assert r2.tables.Keys == r.tables.Keys - own;
  }

  // ---------------------------------------------------------------- runs of stores

  datatype Store = Store(dir: int, address: int, value: int)

  function Writes(s: Paged, stores: seq<Store>): Paged
    decreases |stores|
  {
    if stores == [] then s else Writes(Write(s, stores[0].dir, stores[0].address, stores[0].value), stores[1..])
  }

  /** Each store is made by a process other than e, to a page of its own. */
  predicate Elsewhere(s: Paged, kernel: int, e: int, stores: seq<Store>) {
    forall i :: 0 <= i < |stores| ==> stores[i].dir != e && PrivateAt(s, kernel, stores[i].dir, stores[i].address)
  }

  lemma WriteDirs(s: Paged, d: int, v: int, b: int)
    ensures Write(s, d, v, b).dirs == s.dirs
  {
  }

  /** However many stores the others make to pages of their own, a process reads what it read before. */
  lemma {:induction false} WritesIsolated(s: Paged, kernel: int, reserved: set<int>, n: int, e: int, stores: seq<Store>, v: int)
    requires Inv(s, kernel, reserved, n) && Elsewhere(s, kernel, e, stores)
    ensures Inv(Writes(s, stores), kernel, reserved, n) && Read(Writes(s, stores), e, v) == Read(s, e, v)
    decreases |stores|
  {
    hide Inv, Read, Write, Private;
    if stores != [] {
      var w := stores[0];
      WriteInv(s, kernel, reserved, n, w.dir, w.address, w.value);
      WriteIsolated(s, kernel, reserved, n, w.dir, w.address, w.value, e, v);
      WriteDirs(s, w.dir, w.address, w.value);
      assert forall i :: 0 <= i < |stores[1..]| ==> stores[1..][i] == stores[i + 1];
      WritesIsolated(Write(s, w.dir, w.address, w.value), kernel, reserved, n, e, stores[1..], v);
    }
  }
}
