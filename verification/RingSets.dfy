/** Several circular lists in one memory: moving a node between them leaves every list well formed. */
module RingSets {
  import opened LinkedLists

  /** `cells` are the list_heads in use: mapped, and no two share a word. */
  ghost predicate Layout(m: Mem, cells: set<int>) {
    && (forall a :: a in cells ==> Mapped(m, a))
    && (forall a, b :: a in cells && b in cells && a != b ==> Apart(a, b))
  }

  /** `lists` gives the nodes behind each head, in order; every node is on one list only and is not a head. */
  ghost predicate Placement(lists: map<int, seq<int>>, cells: set<int>) {
    && (forall h :: h in lists ==> h in cells)
    && (forall h, x :: h in lists && x in lists[h] ==> x in cells && x !in lists)
    && (forall h, h', x :: h in lists && h' in lists && x in lists[h] && x in lists[h'] ==> h == h')
    && (forall h, i, j :: h in lists && 0 <= i < j < |lists[h]| ==> lists[h][i] != lists[h][j])
  }

  ghost predicate AllRings(m: Mem, lists: map<int, seq<int>>) {
    forall h :: h in lists ==> Ring(m, h, lists[h])
  }

  ghost predicate Rings(m: Mem, lists: map<int, seq<int>>, cells: set<int>) {
    Layout(m, cells) && Placement(lists, cells) && AllRings(m, lists)
  }

  lemma OutsideOthers(m: Mem, lists: map<int, seq<int>>, cells: set<int>, x: int, h: int)
    requires Layout(m, cells) && Placement(lists, cells) && x in cells && h in lists && x != h && x !in lists[h]
    ensures Outside(x, h, lists[h])
  {
    forall i | 0 <= i < |lists[h]| ensures Apart(x, lists[h][i]) { assert lists[h][i] in lists[h]; }
  }

  lemma ListsApart(m: Mem, lists: map<int, seq<int>>, cells: set<int>, h: int, h': int)
    requires Layout(m, cells) && Placement(lists, cells) && h in lists && h' in lists && h != h'
    ensures RingsApart(h, lists[h], h', lists[h'])
  {
    assert h in lists[h'] ==> h !in lists;
    OutsideOthers(m, lists, cells, h, h');
    forall i | 0 <= i < |lists[h]| ensures Outside(lists[h][i], h', lists[h']) {
      assert lists[h][i] in lists[h];
      OutsideOthers(m, lists, cells, lists[h][i], h');
    }
  }

  lemma LayoutKept(m: Mem, m': Mem, cells: set<int>)
    requires Layout(m, cells) && m'.Keys == m.Keys
    ensures Layout(m', cells)
  {
  }

  lemma PlaceInsert(lists: map<int, seq<int>>, cells: set<int>, h: int, i: int, x: int)
    requires Placement(lists, cells) && h in lists && 0 <= i <= |lists[h]| && x in cells && x !in lists
    requires forall h' :: h' in lists ==> x !in lists[h']
    ensures Placement(lists[h := InsertAt(lists[h], i, x)], cells)
  {
    var s := lists[h];
    var t := InsertAt(s, i, x);
    assert forall j :: 0 <= j < |t| ==> t[j] == if j < i then s[j] else if j == i then x else s[j - 1];
    assert forall y :: y in t ==> y in s || y == x;
  }

  lemma PlaceRemove(lists: map<int, seq<int>>, cells: set<int>, h: int, i: int)
    requires Placement(lists, cells) && h in lists && 0 <= i < |lists[h]|
    ensures Placement(lists[h := RemoveAt(lists[h], i)], cells) && lists[h][i] !in RemoveAt(lists[h], i)
    ensures lists[h][i] in cells && lists[h][i] !in lists && forall h' :: h' in lists && h' != h ==> lists[h][i] !in lists[h']
  {
    var s := lists[h];
    var t := RemoveAt(s, i);
    assert forall j :: 0 <= j < |t| ==> t[j] == if j < i then s[j] else s[j + 1];
    assert forall y :: y in t ==> y in s;
    assert s[i] in s;
    hide RemoveAt;
  }

  /** list_add_tail and list_add: a node that is on no list joins one. */
  lemma Joined(m: Mem, lists: map<int, seq<int>>, cells: set<int>, h: int, i: int, x: int)
    requires Rings(m, lists, cells) && h in lists && 0 <= i <= |lists[h]| && x in cells && x !in lists
    requires forall h' :: h' in lists ==> x !in lists[h']
    ensures Mapped(m, x) && Outside(x, h, lists[h]) && Ring(m, h, lists[h])
    ensures Rings(Link(m, x, At(h, lists[h], i - 1), At(h, lists[h], i)), lists[h := InsertAt(lists[h], i, x)], cells)
  {
    var s := lists[h];
    var m' := Link(m, x, At(h, s, i - 1), At(h, s, i));
    OutsideOthers(m, lists, cells, x, h);
    hide Ring, Outside;
    PlaceInsert(lists, cells, h, i, x);
    LinkInserts(m, h, s, i, x);
    LinkStores(m, h, s, i, x);
    forall h' | h' in lists && h' != h ensures Ring(m', h', lists[h']) {
      ListsApart(m, lists, cells, h, h');
      OutsideOthers(m, lists, cells, x, h');
      OutsideAt(h, s, h', lists[h'], i - 1);
      OutsideAt(h, s, h', lists[h'], i);
      LinkElsewhereRing(m, x, At(h, s, i - 1), At(h, s, i), h', lists[h']);
    }
    LayoutKept(m, m', cells);
  }

  lemma CutElsewhere(m: Mem, lists: map<int, seq<int>>, cells: set<int>, h: int, i: int, h': int)
    requires Rings(m, lists, cells) && h in lists && h' in lists && h != h' && 0 <= i < |lists[h]|
    ensures Ring(Unlink(m, At(h, lists[h], i - 1), At(h, lists[h], i + 1)), h', lists[h'])
  {
    var s := lists[h];
    hide Ring, Unlink, Placement, Layout, Outside;
    RingLinks(m, h, s, i);
    RingLinks(m, h, s, i + 1);
    ListsApart(m, lists, cells, h, h');
    OutsideAt(h, s, h', lists[h'], i - 1);
    OutsideAt(h, s, h', lists[h'], i + 1);
    UnlinkElsewhereRing(m, At(h, s, i - 1), At(h, s, i + 1), h', lists[h']);
  }

  /** __list_del_entry */
  lemma Cut(m: Mem, lists: map<int, seq<int>>, cells: set<int>, h: int, i: int)
    requires Rings(m, lists, cells) && h in lists && 0 <= i < |lists[h]|
    ensures Ring(m, h, lists[h])
    ensures Rings(Unlink(m, At(h, lists[h], i - 1), At(h, lists[h], i + 1)), lists[h := RemoveAt(lists[h], i)], cells)
  {
    var s := lists[h];
    var m' := Unlink(m, At(h, s, i - 1), At(h, s, i + 1));
    hide Ring, RemoveAt, Unlink, Placement, Layout, Outside;
    PlaceRemove(lists, cells, h, i);
    UnlinkRemoves(m, h, s, i);
    RingLinks(m, h, s, i);
    RingLinks(m, h, s, i + 1);
    hide At;
    forall h' | h' in lists && h' != h ensures Ring(m', h', lists[h']) {
      CutElsewhere(m, lists, cells, h, i, h');
    }
    UnlinkKeys(m, At(h, s, i - 1), At(h, s, i + 1));
    LayoutKept(m, m', cells);
  }

  lemma UnlinkKeys(m: Mem, prev: int, next: int)
    requires Mapped(m, prev) && Mapped(m, next)
    ensures Unlink(m, prev, next).Keys == m.Keys
  {
  }

  /** list_move and list_move_tail: position i of one list becomes position j of another. */
  lemma Shifted(m: Mem, lists: map<int, seq<int>>, cells: set<int>, h: int, i: int, h': int, j: int)
    requires Rings(m, lists, cells) && h in lists && h' in lists && h != h' && 0 <= i < |lists[h]| && 0 <= j <= |lists[h']|
    ensures Ring(m, h, lists[h]) && Ring(m, h', lists[h']) && RingsApart(h, lists[h], h', lists[h'])
    ensures var x := lists[h][i];
            var u := Unlink(m, At(h, lists[h], i - 1), At(h, lists[h], i + 1));
            Rings(Link(u, x, At(h', lists[h'], j - 1), At(h', lists[h'], j)),
                  lists[h := RemoveAt(lists[h], i)][h' := InsertAt(lists[h'], j, x)], cells)
  {
    hide Ring;
    Cut(m, lists, cells, h, i);
    ListsApart(m, lists, cells, h, h');
    PlaceRemove(lists, cells, h, i);
    var u := Unlink(m, At(h, lists[h], i - 1), At(h, lists[h], i + 1));
    Joined(u, lists[h := RemoveAt(lists[h], i)], cells, h', j, lists[h][i]);
  }

  /** INIT_LIST_HEAD on a list_head that is in use by no list. */
  lemma Opened(m: Mem, lists: map<int, seq<int>>, cells: set<int>, h: int)
    requires Rings(m, lists, cells) && h in cells && h !in lists && forall h' :: h' in lists ==> h !in lists[h']
    ensures Rings(m[h := h][h + 4 := h], lists[h := []], cells)
  {
    var m' := m[h := h][h + 4 := h];
    hide Ring;
    forall h' | h' in lists ensures Ring(m', h', lists[h']) {
      OutsideOthers(m, lists, cells, h, h');
      KeptOutside(m, m', h, h', lists[h']);
    }
    NewRing(m, h);
    LayoutKept(m, m', cells);
  }

  lemma NewRing(m: Mem, h: int)
    ensures Ring(m[h := h][h + 4 := h], h, [])
  {
  }

  lemma KeptOutside(m: Mem, m': Mem, l: int, h: int, s: seq<int>)
    requires Ring(m, h, s) && Outside(l, h, s) && m' == m[l := l][l + 4 := l]
    ensures Ring(m', h, s)
  {
    RingFrame(m, m', h, s);
  }

  /** Forgetting an empty list, and list_heads nobody uses. */
  lemma Closed(m: Mem, lists: map<int, seq<int>>, cells: set<int>, h: int)
    requires Rings(m, lists, cells) && h in lists && lists[h] == []
    ensures Rings(m, lists - {h}, cells)
  {
    hide Ring;
  }

  lemma Released(m: Mem, lists: map<int, seq<int>>, cells: set<int>, x: int)
    requires Rings(m, lists, cells) && x !in lists && forall h :: h in lists ==> x !in lists[h]
    ensures Rings(m, lists, cells - {x})
  {
    hide Ring;
  }

  lemma Claimed(m: Mem, lists: map<int, seq<int>>, cells: set<int>, x: int)
    requires Rings(m, lists, cells) && Mapped(m, x) && forall a :: a in cells ==> Apart(a, x)
    ensures Rings(m, lists, cells + {x}) && x !in lists && forall h :: h in lists ==> x !in lists[h]
  {
    hide Ring;
    assert x in cells ==> Apart(x, x);
  }
}
