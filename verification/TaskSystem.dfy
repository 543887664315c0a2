/**
 The run queue and the wait queues in memory: task.c and semaphore.c over the linked lists of
 llist.h, proved against the values of Tasking.
 */
module TaskSystem {
  import opened LinkedLists
  import opened RingSets
  import opened Scheduler
  import opened Tasking

  /** The wait queue of the semaphore whose list node is s lies eight bytes below that node. */
  function QueueHead(s: int): int { s - 8 }

  predicate SemDistinct(sys: System, s: int, mainQueue: int, semQueue: int, cells: set<int>) {
    && s in cells && QueueHead(s) in cells && s != mainQueue && s != semQueue
    && QueueHead(s) != mainQueue && QueueHead(s) != semQueue && s + 8 !in sys.sem
  }

  /** Heads, task nodes, semaphore nodes and wait queue heads are different list_heads. */
  ghost predicate Distinct(sys: System, mainQueue: int, semQueue: int, cells: set<int>) {
    && mainQueue != semQueue && mainQueue in cells && semQueue in cells
    && (forall x :: x in sys.tasks ==> x in cells && x != mainQueue && x != semQueue && x !in sys.sem && x + 8 !in sys.sem)
    && (forall s :: s in sys.sem ==> SemDistinct(sys, s, mainQueue, semQueue, cells))
  }

  /** Every semaphore's wait queue has its head. */
  ghost predicate Queued(lists: map<int, seq<int>>, waiters: map<int, seq<int>>) {
    forall s :: s in waiters ==> QueueHead(s) in lists && lists[QueueHead(s)] == waiters[s]
  }

  /** There are no other lists. */
  ghost predicate NoOthers(lists: map<int, seq<int>>, waiters: map<int, seq<int>>, mainQueue: int, semQueue: int) {
    forall h :: h in lists ==> h == mainQueue || h == semQueue || h + 8 in waiters
  }

  /** Which list_head heads which list. */
  ghost predicate Heads(lists: map<int, seq<int>>, sys: System, mainQueue: int, semQueue: int) {
    && mainQueue in lists && lists[mainQueue] == sys.main && semQueue in lists && lists[semQueue] == sys.order
    && Queued(lists, sys.waiters) && NoOthers(lists, sys.waiters, mainQueue, semQueue)
  }

  /** The memory holds the lists of sys. */
  ghost predicate Holds(m: Mem, lists: map<int, seq<int>>, sys: System, mainQueue: int, semQueue: int, cells: set<int>) {
    && sys.sem.Keys == sys.waiters.Keys
    && Distinct(sys, mainQueue, semQueue, cells) && Heads(lists, sys, mainQueue, semQueue) && Rings(m, lists, cells)
  }

  lemma SetMain(lists: map<int, seq<int>>, sys: System, mainQueue: int, semQueue: int, cells: set<int>, q: seq<int>)
    requires Heads(lists, sys, mainQueue, semQueue) && Distinct(sys, mainQueue, semQueue, cells) && sys.sem.Keys == sys.waiters.Keys
    ensures Heads(lists[mainQueue := q], sys.(main := q), mainQueue, semQueue)
  {
    forall s | s in sys.waiters ensures QueueHead(s) != mainQueue { assert SemDistinct(sys, s, mainQueue, semQueue, cells); }
  }

  lemma SetQueue(lists: map<int, seq<int>>, sys: System, mainQueue: int, semQueue: int, s: int, q: seq<int>)
    requires Heads(lists, sys, mainQueue, semQueue) && QueueHead(s) != mainQueue && QueueHead(s) != semQueue
    ensures Heads(lists[QueueHead(s) := q], sys.(waiters := sys.waiters[s := q]), mainQueue, semQueue)
  {
  }

  // ---------------------------------------------------------------- one wake-up

  /** The lists of a semaphore and of the run queue, as the list operations need them. */
  lemma QueueRings(m: Mem, lists: map<int, seq<int>>, sys: System, mainQueue: int, semQueue: int, cells: set<int>, s: int)
    requires Holds(m, lists, sys, mainQueue, semQueue, cells) && s in sys.sem
    ensures s in sys.waiters && QueueHead(s) in lists && lists[QueueHead(s)] == sys.waiters[s] && Ring(m, QueueHead(s), sys.waiters[s])
    ensures mainQueue in lists && lists[mainQueue] == sys.main && Ring(m, mainQueue, sys.main)
    ensures QueueHead(s) != mainQueue && QueueHead(s) != semQueue && RingsApart(QueueHead(s), sys.waiters[s], mainQueue, sys.main)
    ensures RingsApart(mainQueue, sys.main, QueueHead(s), sys.waiters[s])
  {
    hide Ring;
    assert SemDistinct(sys, s, mainQueue, semQueue, cells);
    ListsApart(m, lists, cells, QueueHead(s), mainQueue);
    ListsApart(m, lists, cells, mainQueue, QueueHead(s));
  }

  lemma MainRing(m: Mem, lists: map<int, seq<int>>, sys: System, mainQueue: int, semQueue: int, cells: set<int>)
    requires Holds(m, lists, sys, mainQueue, semQueue, cells)
    ensures mainQueue in lists && lists[mainQueue] == sys.main && Ring(m, mainQueue, sys.main) && Rings(m, lists, cells)
    ensures semQueue in lists && lists[semQueue] == sys.order && Ring(m, semQueue, sys.order)
  {
    hide Ring;
  }

  lemma WakeShift(m: Mem, lists: map<int, seq<int>>, sys: System, mainQueue: int, semQueue: int, cells: set<int>, s: int)
    requires Holds(m, lists, sys, mainQueue, semQueue, cells) && s in sys.sem && s in sys.waiters && sys.waiters[s] != []
    ensures var (q, w) := (QueueHead(s), sys.waiters[s]);
            Rings(Link(Unlink(m, q, At(q, w, 1)), w[0], At(mainQueue, sys.main, |sys.main| - 1), mainQueue),
                  lists[q := w[1..]][mainQueue := sys.main + [w[0]]], cells)
  {
    hide Rings, Ring, Distinct, Heads;
    var q, w := QueueHead(s), sys.waiters[s];
    QueueRings(m, lists, sys, mainQueue, semQueue, cells, s);
    MainRing(m, lists, sys, mainQueue, semQueue, cells);
    Shifted(m, lists, cells, q, 0, mainQueue, |sys.main|);
    assert RemoveAt(w, 0) == w[1..] && InsertAt(sys.main, |sys.main|, w[0]) == sys.main + [w[0]];
  }

  /** list_move_tail from the wait queue to the run queue is WakeOne. */
  lemma WakeStep(m: Mem, lists: map<int, seq<int>>, sys: System, mainQueue: int, semQueue: int, cells: set<int>, s: int)
    requires Holds(m, lists, sys, mainQueue, semQueue, cells) && Wakes(sys, s)
    ensures var (q, w) := (QueueHead(s), sys.waiters[s]);
            Holds(Link(Unlink(m, q, At(q, w, 1)), w[0], At(mainQueue, sys.main, |sys.main| - 1), mainQueue),
                  lists[q := w[1..]][mainQueue := sys.main + [w[0]]], WakeOne(sys, s), mainQueue, semQueue, cells)
  {
    hide Rings, Ring;
    var q, w := QueueHead(s), sys.waiters[s];
    WakeShift(m, lists, sys, mainQueue, semQueue, cells, s);
    QueueRings(m, lists, sys, mainQueue, semQueue, cells, s);
    SetQueue(lists, sys, mainQueue, semQueue, s, w[1..]);
    var mid := sys.(waiters := sys.waiters[s := w[1..]]);
    DistinctSame(sys, mid, mainQueue, semQueue, cells);
    SetMain(lists[q := w[1..]], mid, mainQueue, semQueue, cells, sys.main + [w[0]]);
    DistinctSame(sys, WakeOne(sys, s), mainQueue, semQueue, cells);
  }

  lemma DistinctSame(sys: System, r: System, mainQueue: int, semQueue: int, cells: set<int>)
    requires Distinct(sys, mainQueue, semQueue, cells) && r.tasks.Keys <= sys.tasks.Keys && r.sem.Keys == sys.sem.Keys
    ensures Distinct(r, mainQueue, semQueue, cells)
  {
    forall s | s in r.sem ensures SemDistinct(r, s, mainQueue, semQueue, cells) { assert SemDistinct(sys, s, mainQueue, semQueue, cells); }
  }

  // ---------------------------------------------------------------- the ring walk

  /** The ring seen from its k-th entry. */
  ghost predicate SeenFrom(main: seq<int>, k: int, q: seq<int>) {
    0 <= k < |main| && q == main[k..] + main[..k]
  }

  lemma SeenNext(main: seq<int>, k: int, q: seq<int>)
    requires SeenFrom(main, k, q)
    ensures q != [] && q[0] == main[k] && SeenFrom(main, if k + 1 < |main| then k + 1 else 0, Rotate(q))
  {
    var k' := if k + 1 < |main| then k + 1 else 0;
    assert Rotate(q) == main[k'..] + main[..k'];
  }

  lemma SeenCut(main: seq<int>, k: int, q: seq<int>)
    requires SeenFrom(main, k, q) && |main| > 1
    ensures SeenFrom(RemoveAt(main, k), if k + 1 < |main| then k else 0, q[1..])
  {
    var r := RemoveAt(main, k);
    var k' := if k + 1 < |main| then k else 0;
    assert q[1..] == r[k'..] + r[..k'];
  }

  /** list_pass_entry: the entry after the k-th, the head skipped. */
  lemma PassNext(m: Mem, head: int, main: seq<int>, k: int)
    requires Ring(m, head, main) && 0 <= k < |main|
    ensures Mapped(m, main[k]) && Mapped(m, head) && m[head] == main[0] && m[head + 4] == main[|main| - 1]
    ensures (m[main[k]] == head <==> k + 1 == |main|) && (k + 1 < |main| ==> m[main[k]] == main[k + 1]) && main[0] != head && main[|main| - 1] != head
  {
    RingLinks(m, head, main, k + 1);
  }

  lemma TailIn(q: seq<int>)
    requires q != []
    ensures var x := q[0]; x in q && q == [x] + q[1..]
    ensures forall x :: x in q[1..] ==> x in q
  {
  }

  lemma {:induction false} KeepSame(q: seq<int>, s: seq<int>, s': seq<int>)
    requires forall x :: x in q ==> (x in s <==> x in s')
    ensures Keep(q, s) == Keep(q, s')
  {
    if q != [] {
      TailIn(q);
      var x := q[0];
      assert x in s <==> x in s';
      KeepSame(q[1..], s, s');
    }
  }

  lemma {:induction false} KeepAll(q: seq<int>, s: seq<int>)
    requires forall x :: x in q ==> x in s
    ensures Keep(q, s) == q
  {
    if q != [] {
      TailIn(q);
      var x := q[0];
      assert x in s;
      KeepAll(q[1..], s);
      assert q == [q[0]] + q[1..];
    }
  }

  lemma RemoveFirst(x: int, rest: seq<int>)
    ensures RemoveAt([x] + rest, 0) == rest
  {
  }

  lemma RemoveLater(x: int, rest: seq<int>, k: int)
    requires 0 < k <= |rest|
    ensures RemoveAt([x] + rest, k) == [x] + RemoveAt(rest, k - 1)
  {
  }

  /** One entry less to keep is one entry less kept. */
  lemma {:induction false} KeepLess(q: seq<int>, s: seq<int>, s': seq<int>, k: int, z: int)
    requires NoDup(q) && 0 <= k < |Keep(q, s)| && Keep(q, s)[k] == z && forall x :: x in s' <==> x in s && x != z
    ensures Keep(q, s') == RemoveAt(Keep(q, s), k)
  {
    if q != [] {
      var y, rest := q[0], Keep(q[1..], s);
      KeepStep(q, s);
      KeepStep(q, s');
      NoDupTail(q);
      KeepMembers(q[1..], s);
      hide Keep, NoDup, RemoveAt;
      if y !in s {
        KeepLess(q[1..], s, s', k, z);
      } else if k == 0 {
        KeepSame(q[1..], s, s');
        RemoveFirst(y, rest);
      } else {
        assert rest[k - 1] == z;
        KeepLess(q[1..], s, s', k - 1, z);
        RemoveLater(y, rest, k);
      }
    }
  }

  lemma KeepStep(q: seq<int>, s: seq<int>)
    requires q != []
    ensures Keep(q, s) == if q[0] in s then [q[0]] + Keep(q[1..], s) else Keep(q[1..], s)
  {
  }

  lemma NoDupTail(q: seq<int>)
    requires q != [] && NoDup(q)
    ensures NoDup(q[1..]) && q[0] !in q[1..]
  {
  }

  /** What one visit does to the members of the queue that are kept. */
  lemma VisitKeep(main0: seq<int>, kernel: int, tasks: Tasks, q: seq<int>, k: int)
    requires NoDup(main0) && NoDup(q) && Known(tasks, q) && SeenFrom(Keep(main0, q), k, q)
    ensures 0 <= k < |Keep(main0, q)| && q != [] && q[0] in tasks
    ensures Keep(main0, Visit(kernel, tasks, q).1) == if Destroyed(kernel, q[0], tasks[q[0]]) then RemoveAt(Keep(main0, q), k) else Keep(main0, q)
  {
    SeenNext(Keep(main0, q), k, q);
    hide Keep, SeenFrom, RemoveAt;
    VisitMembers(kernel, tasks, q);
    if Destroyed(kernel, q[0], tasks[q[0]]) {
      KeepLess(main0, q, q[1..], k, q[0]);
    } else {
      KeepSame(main0, q, Rotate(q));
    }
  }

  /** cutTask on the k-th entry of the run queue, its record and its list_head released. */
  lemma CutMain(m: Mem, lists: map<int, seq<int>>, sys: System, mainQueue: int, semQueue: int, cells: set<int>, k: int)
    requires Holds(m, lists, sys, mainQueue, semQueue, cells) && 0 <= k < |sys.main| && sys.main[k] in sys.tasks
    ensures Ring(m, mainQueue, sys.main)
    ensures var x, r := sys.main[k], RemoveAt(sys.main, k);
            Holds(Unlink(m, At(mainQueue, sys.main, k - 1), At(mainQueue, sys.main, k + 1)), lists[mainQueue := r],
                  sys.(main := r, tasks := sys.tasks - {x}), mainQueue, semQueue, cells - {x})
  {
    hide Ring, Rings;
    var x, r := sys.main[k], RemoveAt(sys.main, k);
    MainRing(m, lists, sys, mainQueue, semQueue, cells);
    Cut(m, lists, cells, mainQueue, k);
    RingsPlaced(m, lists, cells);
    PlaceRemove(lists, cells, mainQueue, k);
    Released(Unlink(m, At(mainQueue, sys.main, k - 1), At(mainQueue, sys.main, k + 1)), lists[mainQueue := r], cells, x);
    SetMain(lists, sys, mainQueue, semQueue, cells, r);
    CutDistinct(sys, mainQueue, semQueue, cells, lists, x);
    DistinctMain(sys.(tasks := sys.tasks - {x}), mainQueue, semQueue, cells - {x}, r);
  }

  lemma DistinctMain(sys: System, mainQueue: int, semQueue: int, cells: set<int>, q: seq<int>)
    requires Distinct(sys, mainQueue, semQueue, cells)
    ensures Distinct(sys.(main := q), mainQueue, semQueue, cells)
  {
    DistinctSame(sys, sys.(main := q), mainQueue, semQueue, cells);
  }

  lemma RingsPlaced(m: Mem, lists: map<int, seq<int>>, cells: set<int>)
    requires Rings(m, lists, cells)
    ensures Placement(lists, cells)
  {
  }

  lemma CutDistinct(sys: System, mainQueue: int, semQueue: int, cells: set<int>, lists: map<int, seq<int>>, x: int)
    requires Distinct(sys, mainQueue, semQueue, cells) && Heads(lists, sys, mainQueue, semQueue) && sys.sem.Keys == sys.waiters.Keys
    requires x !in lists && x in sys.tasks
    ensures Distinct(sys.(tasks := sys.tasks - {x}), mainQueue, semQueue, cells - {x})
  {
    var r := sys.(tasks := sys.tasks - {x});
    forall s | s in r.sem ensures SemDistinct(r, s, mainQueue, semQueue, cells - {x}) {
      assert SemDistinct(sys, s, mainQueue, semQueue, cells);
      assert s in sys.waiters && QueueHead(s) in lists;
    }
  }
}
