/**
 The intrusive circular doubly linked list of shared/include/llist.h, over raw
 memory. A list_head is named by its address: the word at the address is `next`
 and the word four bytes on is `prev`.
 */
module LinkedLists {

  /** Word memory; the keys are the addresses that are mapped. */
  type Mem = map<int, int>

  predicate Mapped(m: Mem, l: int) {
    l in m && l + 4 in m
  }

  /** Two list_heads do not share a word. */
  predicate Apart(a: int, b: int) {
    a + 8 <= b || b + 8 <= a
  }

  /** The list_head at position i of the ring; positions -1 and |s| are the head. */
  function At(head: int, s: seq<int>, i: int): int {
    if 0 <= i < |s| then s[i] else head
  }

  ghost predicate Separate(m: Mem, head: int, s: seq<int>) {
    && Mapped(m, head)
    && (forall i :: 0 <= i < |s| ==> Mapped(m, s[i]) && Apart(head, s[i]))
    && (forall i, j :: 0 <= i < j < |s| ==> Apart(s[i], s[j]))
  }

  /** The list_heads starting at `head` form one ring, and leaving out `head` they are s, in order. */
  ghost predicate Ring(m: Mem, head: int, s: seq<int>) {
    && Separate(m, head, s)
    && m[head] == At(head, s, 0) && m[head + 4] == At(head, s, |s| - 1)
    && (s != [] ==> m[s[0] + 4] == head && m[s[|s| - 1]] == head)
    && (forall i, j :: 0 <= i && j == i + 1 && j < |s| ==> m[s[i]] == s[j] && m[s[j] + 4] == s[i])
  }

  /** A list_head outside the ring. */
  ghost predicate Outside(l: int, head: int, s: seq<int>) {
    Apart(l, head) && forall i :: 0 <= i < |s| ==> Apart(l, s[i])
  }

  function InsertAt<T>(s: seq<T>, i: int, x: T): seq<T>
    requires 0 <= i <= |s|
  {
    s[..i] + [x] + s[i..]
  }

  function RemoveAt<T>(s: seq<T>, i: int): seq<T>
    requires 0 <= i < |s|
  {
    s[..i] + s[i + 1..]
  }

  /** __list_add: the four stores in the order the C code makes them. */
  function Link(m: Mem, node: int, prev: int, next: int): Mem {
    m[next + 4 := node][node := next][node + 4 := prev][prev := node]
  }

  /** __list_del */
  function Unlink(m: Mem, prev: int, next: int): Mem {
    m[next + 4 := prev][prev := next]
  }

  lemma RingLinks(m: Mem, head: int, s: seq<int>, i: int)
    requires Ring(m, head, s) && 0 <= i <= |s|
    ensures Mapped(m, At(head, s, i)) && Mapped(m, At(head, s, i - 1))
    ensures m[At(head, s, i - 1)] == At(head, s, i) && m[At(head, s, i) + 4] == At(head, s, i - 1)
  {
    if 0 < i < |s| {
      var j := i - 1;
      assert m[s[j]] == s[i];
    }
  }

  lemma InsertSeparate(m: Mem, m': Mem, head: int, s: seq<int>, i: int, node: int)
    requires Separate(m, head, s) && 0 <= i <= |s|
    requires Mapped(m, node) && Outside(node, head, s) && m'.Keys == m.Keys
    ensures Separate(m', head, InsertAt(s, i, node))
  {
    var t := InsertAt(s, i, node);
    assert forall j :: 0 <= j < |t| ==> t[j] == if j < i then s[j] else if j == i then node else s[j - 1];
  }

  /** The four stores of Link hit four different words of a ring. */
  lemma LinkStores(m: Mem, head: int, s: seq<int>, i: int, node: int)
    requires Ring(m, head, s) && 0 <= i <= |s|
    requires Mapped(m, node) && Outside(node, head, s)
    ensures var p, n := At(head, s, i - 1), At(head, s, i);
            var m' := Link(m, node, p, n);
            && m'.Keys == m.Keys && m'[node] == n && m'[node + 4] == p && m'[p] == node && m'[n + 4] == node
            && (forall a :: a in m && a != node && a != node + 4 && a != p && a != n + 4 ==> m'[a] == m[a])
  {
    RingLinks(m, head, s, i);
    var p, n := At(head, s, i - 1), At(head, s, i);
    assert Apart(node, p) && Apart(node, n);
    assert p == n || Apart(p, n);
  }

  lemma LinkInserts(m: Mem, head: int, s: seq<int>, i: int, node: int)
    requires Ring(m, head, s) && 0 <= i <= |s|
    requires Mapped(m, node) && Outside(node, head, s)
    ensures Ring(Link(m, node, At(head, s, i - 1), At(head, s, i)), head, InsertAt(s, i, node))
  {
    var t := InsertAt(s, i, node);
    var p, n := At(head, s, i - 1), At(head, s, i);
    var m' := Link(m, node, p, n);
    LinkStores(m, head, s, i, node);
    InsertSeparate(m, m', head, s, i, node);
    forall j | -1 <= j < |t|
      ensures m'[At(head, t, j)] == At(head, t, j + 1) && m'[At(head, t, j + 1) + 4] == At(head, t, j)
    {
      LinkAt(m, m', head, s, i, node, j);
    }
    RingFromLinks(m', head, t);
  }

  /** A link away from the insertion point is not touched by the four stores. */
  lemma LinkElsewhere(m: Mem, head: int, s: seq<int>, i: int, node: int, k: int)
    requires Ring(m, head, s) && 0 <= i <= |s| && 0 <= k <= |s| && k != i
    requires Mapped(m, node) && Outside(node, head, s)
    ensures var m' := Link(m, node, At(head, s, i - 1), At(head, s, i));
            At(head, s, k - 1) in m' && At(head, s, k) + 4 in m' &&
            m'[At(head, s, k - 1)] == At(head, s, k) && m'[At(head, s, k) + 4] == At(head, s, k - 1)
  {
    LinkStores(m, head, s, i, node);
    RingLinks(m, head, s, i);
    RingLinks(m, head, s, k);
    AtDistinct(m, head, s, k - 1, i - 1);
    AtDistinct(m, head, s, k, i);
    AtWords(m, head, s, k - 1, i);
    AtWords(m, head, s, i - 1, k);
    assert Apart(node, At(head, s, k - 1)) && Apart(node, At(head, s, k));
  }

  lemma LinkAt(m: Mem, m': Mem, head: int, s: seq<int>, i: int, node: int, j: int)
    requires Ring(m, head, s) && 0 <= i <= |s| && -1 <= j <= |s|
    requires Mapped(m, node) && Outside(node, head, s)
    requires m' == Link(m, node, At(head, s, i - 1), At(head, s, i))
    ensures var t := InsertAt(s, i, node);
            At(head, t, j) in m' && At(head, t, j + 1) + 4 in m' &&
            m'[At(head, t, j)] == At(head, t, j + 1) && m'[At(head, t, j + 1) + 4] == At(head, t, j)
  {
    AtInserted(head, s, i, node, j);
    AtInserted(head, s, i, node, j + 1);
    if j + 1 < i {
      LinkElsewhere(m, head, s, i, node, j + 1);
    } else if j > i {
      LinkElsewhere(m, head, s, i, node, j);
    } else {
      LinkStores(m, head, s, i, node);
    }
  }

  /** The next word of one position is never the prev word of another. */
  lemma AtWords(m: Mem, head: int, s: seq<int>, j: int, k: int)
    requires Separate(m, head, s) && -1 <= j <= |s| && -1 <= k <= |s|
    ensures At(head, s, j) != At(head, s, k) + 4
  {
  }

  lemma AtInserted(head: int, s: seq<int>, i: int, node: int, j: int)
    requires 0 <= i <= |s| && -1 <= j <= |s| + 1
    ensures At(head, InsertAt(s, i, node), j) == if j < i then At(head, s, j) else if j == i then node else At(head, s, j - 1)
  {
  }

  /** Positions of a ring that differ by less than a full round hold different, separate nodes. */
  lemma AtDistinct(m: Mem, head: int, s: seq<int>, j: int, k: int)
    requires Separate(m, head, s)
    requires -1 <= j <= |s| && -1 <= k <= |s| && j != k && !(j == -1 && k == |s|) && !(k == -1 && j == |s|)
    ensures Apart(At(head, s, j), At(head, s, k))
  {
  }

  lemma RingFromLinks(m: Mem, head: int, s: seq<int>)
    requires Separate(m, head, s)
    requires forall j :: -1 <= j <= |s| ==> Mapped(m, At(head, s, j))
    requires forall j :: -1 <= j < |s| ==> m[At(head, s, j)] == At(head, s, j + 1) && m[At(head, s, j + 1) + 4] == At(head, s, j)
    ensures Ring(m, head, s)
  {
    assert m[At(head, s, -1)] == At(head, s, 0);
    assert m[At(head, s, |s| - 1)] == At(head, s, |s|);
    forall i, j | 0 <= i && j == i + 1 && j < |s| ensures m[s[i]] == s[j] && m[s[j] + 4] == s[i] {
      assert m[At(head, s, i)] == At(head, s, i + 1);
    }
  }

  lemma AtRemoved(head: int, s: seq<int>, i: int, j: int)
    requires 0 <= i < |s| && -1 <= j <= |s| - 1
    ensures At(head, RemoveAt(s, i), j) == if j < i then At(head, s, j) else At(head, s, j + 1)
  {
  }

  lemma RemoveSeparate(m: Mem, m': Mem, head: int, s: seq<int>, i: int)
    requires Separate(m, head, s) && 0 <= i < |s| && m'.Keys == m.Keys
    ensures Separate(m', head, RemoveAt(s, i)) && Outside(s[i], head, RemoveAt(s, i))
  {
    var t := RemoveAt(s, i);
    assert forall j :: 0 <= j < |t| ==> t[j] == if j < i then s[j] else s[j + 1];
  }

  /** The two stores of Unlink leave every link alone that does not end at the removed node. */
  lemma UnlinkElsewhere(m: Mem, head: int, s: seq<int>, i: int, k: int)
    requires Ring(m, head, s) && 0 <= i < |s| && 0 <= k <= |s| && k != i && k != i + 1
    requires Mapped(m, At(head, s, i - 1)) && Mapped(m, At(head, s, i + 1))
    ensures var m' := Unlink(m, At(head, s, i - 1), At(head, s, i + 1));
            At(head, s, k - 1) in m' && At(head, s, k) + 4 in m' &&
            m'[At(head, s, k - 1)] == At(head, s, k) && m'[At(head, s, k) + 4] == At(head, s, k - 1)
  {
    RingLinks(m, head, s, k);
    AtDistinct(m, head, s, k - 1, i - 1);
    AtDistinct(m, head, s, k, i + 1);
    AtWords(m, head, s, k - 1, i + 1);
    AtWords(m, head, s, i - 1, k);
  }

  lemma UnlinkAt(m: Mem, m': Mem, head: int, s: seq<int>, i: int, j: int)
    requires Ring(m, head, s) && 0 <= i < |s| && -1 <= j < |s| - 1
    requires m' == Unlink(m, At(head, s, i - 1), At(head, s, i + 1))
    ensures var t := RemoveAt(s, i);
            At(head, t, j) in m' && At(head, t, j + 1) + 4 in m' &&
            m'[At(head, t, j)] == At(head, t, j + 1) && m'[At(head, t, j + 1) + 4] == At(head, t, j)
  {
    RingLinks(m, head, s, i);
    RingLinks(m, head, s, i + 1);
    AtRemoved(head, s, i, j);
    AtRemoved(head, s, i, j + 1);
    if j + 1 < i {
      UnlinkElsewhere(m, head, s, i, j + 1);
    } else if j >= i {
      UnlinkElsewhere(m, head, s, i, j + 2);
    } else {
      AtWords(m, head, s, i - 1, i + 1);
    }
  }

  lemma UnlinkRemoves(m: Mem, head: int, s: seq<int>, i: int)
    requires Ring(m, head, s) && 0 <= i < |s|
    ensures Ring(Unlink(m, At(head, s, i - 1), At(head, s, i + 1)), head, RemoveAt(s, i))
  {
    var t := RemoveAt(s, i);
    var m' := Unlink(m, At(head, s, i - 1), At(head, s, i + 1));
    RingLinks(m, head, s, i);
    RingLinks(m, head, s, i + 1);
    RemoveSeparate(m, m', head, s, i);
    forall j | -1 <= j < |t|
      ensures m'[At(head, t, j)] == At(head, t, j + 1) && m'[At(head, t, j + 1) + 4] == At(head, t, j)
    {
      UnlinkAt(m, m', head, s, i, j);
    }
    RingFromLinks(m', head, t);
  }

  /** A ring only depends on its own cells. */
  lemma RingFrame(m: Mem, m': Mem, head: int, s: seq<int>)
    requires Ring(m, head, s)
    requires Mapped(m', head) && m'[head] == m[head] && m'[head + 4] == m[head + 4]
    requires forall i :: 0 <= i < |s| ==> Mapped(m', s[i]) && m'[s[i]] == m[s[i]] && m'[s[i] + 4] == m[s[i] + 4]
    ensures Ring(m', head, s)
  {
  }

  /** No list_head of one ring shares a word with a list_head of the other. */
  ghost predicate RingsApart(head: int, s: seq<int>, head': int, s': seq<int>) {
    Outside(head, head', s') && forall i :: 0 <= i < |s| ==> Outside(s[i], head', s')
  }

  lemma OutsideAt(head: int, s: seq<int>, head': int, s': seq<int>, i: int)
    requires RingsApart(head, s, head', s')
    ensures Outside(At(head, s, i), head', s')
  {
  }

  lemma LinkElsewhereRing(m: Mem, node: int, prev: int, next: int, head: int, s: seq<int>)
    requires Ring(m, head, s)
    requires Outside(node, head, s) && Outside(prev, head, s) && Outside(next, head, s)
    ensures Ring(Link(m, node, prev, next), head, s)
  {
    RingFrame(m, Link(m, node, prev, next), head, s);
  }

  lemma UnlinkElsewhereRing(m: Mem, prev: int, next: int, head: int, s: seq<int>)
    requires Ring(m, head, s) && Outside(prev, head, s) && Outside(next, head, s)
    ensures Ring(Unlink(m, prev, next), head, s)
  {
    RingFrame(m, Unlink(m, prev, next), head, s);
  }

  lemma OutsideRemoved(l: int, head: int, s: seq<int>, i: int)
    requires Outside(l, head, s) && 0 <= i < |s|
    ensures Outside(l, head, RemoveAt(s, i))
  {
  }

  /** Taking position i out of one ring and putting it at position j of another. */
  lemma Moved(m: Mem, head: int, s: seq<int>, i: int, dest: int, t: seq<int>, j: int)
    requires Ring(m, head, s) && 0 <= i < |s| && Ring(m, dest, t) && 0 <= j <= |t|
    requires RingsApart(head, s, dest, t)
    ensures var u := Unlink(m, At(head, s, i - 1), At(head, s, i + 1));
            && Ring(u, head, RemoveAt(s, i)) && Ring(u, dest, t) && Outside(s[i], dest, t)
            && Ring(Link(u, s[i], At(dest, t, j - 1), At(dest, t, j)), head, RemoveAt(s, i))
            && Ring(Link(u, s[i], At(dest, t, j - 1), At(dest, t, j)), dest, InsertAt(t, j, s[i]))
  {
    var u := Unlink(m, At(head, s, i - 1), At(head, s, i + 1));
    UnlinkRemoves(m, head, s, i);
    RemoveSeparate(m, m, head, s, i);
    OutsideAt(head, s, dest, t, i - 1);
    OutsideAt(head, s, dest, t, i + 1);
    RingLinks(m, head, s, i);
    RingLinks(m, head, s, i + 1);
    UnlinkElsewhereRing(m, At(head, s, i - 1), At(head, s, i + 1), dest, t);
    LinkInserts(u, dest, t, j, s[i]);
    RingLinks(u, dest, t, j);
    AtOutside(head, s, dest, t, j - 1);
    AtOutside(head, s, dest, t, j);
    OutsideRemoved(At(dest, t, j - 1), head, s, i);
    OutsideRemoved(At(dest, t, j), head, s, i);
    LinkElsewhereRing(u, s[i], At(dest, t, j - 1), At(dest, t, j), head, RemoveAt(s, i));
  }

  lemma AtOutside(head: int, s: seq<int>, head': int, s': seq<int>, i: int)
    requires RingsApart(head, s, head', s')
    ensures Outside(At(head', s', i), head, s)
  {
  }

  lemma UnlinkMapped(m: Mem, prev: int, next: int, node: int)
    requires Mapped(m, node)
    ensures Mapped(Unlink(m, prev, next), node)
  {
  }

  lemma InsertLast(s: seq<int>, node: int)
    ensures InsertAt(s, |s|, node) == s + [node]
  {
  }

  /** The memory the list operations work on. */
  class Ram {
    var w: Mem

    constructor (w: Mem)
      ensures this.w == w
    {
      this.w := w;
    }

    /** A store faults unless the word is mapped. */
    method Store(a: int, v: int)
      requires a in w
      modifies this
      ensures w == old(w)[a := v]
    {
      w := w[a := v];
    }

    /** INIT_LIST_HEAD */
    method InitListHead(l: int)
      requires Mapped(w, l)
      modifies this
      ensures w == old(w)[l := l][l + 4 := l]
      ensures Ring(w, l, [])
    {
      w := w[l := l];
      w := w[l + 4 := l];
    }

    /** __list_add */
    method ListAddBetween(node: int, prev: int, next: int)
      requires Mapped(w, node) && Mapped(w, prev) && Mapped(w, next)
      modifies this
      ensures w == Link(old(w), node, prev, next)
    {
      w := w[next + 4 := node];
      w := w[node := next];
      w := w[node + 4 := prev];
      w := w[prev := node];
    }

    /** list_add_tail: put `node` just before the list_head `at`, which is position i of a ring. */
    method ListAddTail(node: int, at: int, ghost head: int, ghost s: seq<int>, ghost i: int)
      requires Ring(w, head, s) && 0 <= i <= |s| && at == At(head, s, i)
      requires Mapped(w, node) && Outside(node, head, s)
      modifies this
      ensures Ring(w, head, InsertAt(s, i, node))
      ensures w == Link(old(w), node, At(head, s, i - 1), at)
    {
      RingLinks(w, head, s, i);
      LinkInserts(w, head, s, i, node);
      ListAddBetween(node, w[at + 4], at);
    }

    /** list_add: put `node` just after the head of a ring. */
    method ListAdd(node: int, head: int, ghost s: seq<int>)
      requires Ring(w, head, s)
      requires Mapped(w, node) && Outside(node, head, s)
      modifies this
      ensures Ring(w, head, [node] + s)
      ensures w == Link(old(w), node, head, At(head, s, 0))
    {
      RingLinks(w, head, s, 0);
      LinkInserts(w, head, s, 0, node);
      assert InsertAt(s, 0, node) == [node] + s;
      ListAddBetween(node, head, w[head]);
    }

    /** __list_del */
    method ListDel(prev: int, next: int)
      requires Mapped(w, prev) && Mapped(w, next)
      modifies this
      ensures w == Unlink(old(w), prev, next)
    {
      w := w[next + 4 := prev];
      w := w[prev := next];
    }

    /** __list_del_entry: `node` leaves its ring, its own two words stay as they were. */
    method ListDelEntry(node: int, ghost head: int, ghost s: seq<int>, ghost i: int)
      requires Ring(w, head, s) && 0 <= i < |s| && s[i] == node
      modifies this
      ensures Ring(w, head, RemoveAt(s, i))
      ensures w == Unlink(old(w), At(head, s, i - 1), At(head, s, i + 1))
      ensures Outside(node, head, RemoveAt(s, i))
      ensures w.Keys == old(w).Keys && w[node] == old(w)[node] && w[node + 4] == old(w)[node + 4]
    {
      RingLinks(w, head, s, i);
      RingLinks(w, head, s, i + 1);
      UnlinkRemoves(w, head, s, i);
      RemoveSeparate(w, w, head, s, i);
      AtWords(w, head, s, i, i + 1);
      AtWords(w, head, s, i - 1, i);
      AtDistinct(w, head, s, i, i - 1);
      AtDistinct(w, head, s, i, i + 1);
      ListDel(w[node + 4], w[node]);
    }

    /** list_move: from one ring to the front of another. */
    method ListMove(node: int, dest: int, ghost t: seq<int>, ghost head: int, ghost s: seq<int>, ghost i: int)
      requires Ring(w, head, s) && 0 <= i < |s| && s[i] == node
      requires Ring(w, dest, t) && RingsApart(head, s, dest, t)
      modifies this
      ensures Ring(w, head, RemoveAt(s, i)) && Ring(w, dest, [node] + t)
      ensures w == Link(Unlink(old(w), At(head, s, i - 1), At(head, s, i + 1)), node, dest, At(dest, t, 0))
    {
      Moved(w, head, s, i, dest, t, 0);
      RingLinks(w, head, s, i);
      RingLinks(w, head, s, i + 1);
      hide Ring, Outside, RingsApart, Unlink, RemoveAt;
      ListDel(w[node + 4], w[node]);
      UnlinkMapped(old(w), At(head, s, i - 1), At(head, s, i + 1), node);
      assert InsertAt(t, 0, node) == [node] + t;
      ListAdd(node, dest, t);
    }

    /** list_move_tail: from one ring to the back of another. */
    method ListMoveTail(node: int, dest: int, ghost t: seq<int>, ghost head: int, ghost s: seq<int>, ghost i: int)
      requires Ring(w, head, s) && 0 <= i < |s| && s[i] == node
      requires Ring(w, dest, t) && RingsApart(head, s, dest, t)
      modifies this
      ensures Ring(w, head, RemoveAt(s, i)) && Ring(w, dest, t + [node])
      ensures w == Link(Unlink(old(w), At(head, s, i - 1), At(head, s, i + 1)), node, At(dest, t, |t| - 1), dest)
    {
      hide Ring, Outside, RingsApart, Unlink, Link, RemoveAt, InsertAt;
      Moved(w, head, s, i, dest, t, |t|);
      RingLinks(w, head, s, i);
      RingLinks(w, head, s, i + 1);
      InsertLast(t, node);
      assert At(dest, t, |t|) == dest && At(head, s, i) == node;
      hide At;
      ListDel(w[node + 4], w[node]);
      UnlinkMapped(old(w), At(head, s, i - 1), At(head, s, i + 1), node);
      ListAddTail(node, dest, dest, t, |t|);
    }

    /** list_empty */
    method ListEmpty(head: int, ghost s: seq<int>) returns (empty: bool)
      requires Ring(w, head, s)
      ensures empty <==> s == []
    {
      empty := w[head] == head;
    }
  }
}
