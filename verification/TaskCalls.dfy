/** What the calls that create, run and park tasks and that open and close semaphores do to the lists in memory. */
module TaskCalls {
  import opened LinkedLists
  import opened RingSets
  import opened Scheduler
  import opened Tasking
  import opened TaskingRuns
  import opened TaskSystem

  /** The position of the first semaphore with this id in the list of semaphores. */
  function FindId(sem: map<int, Sem>, order: seq<int>, id: int): (k: nat)
    ensures k <= |order| && (k < |order| ==> order[k] in sem && sem[order[k]].id == id)
    ensures forall i :: 0 <= i < k && order[i] in sem ==> sem[order[i]].id != id
  {
    if order == [] || (order[0] in sem && sem[order[0]].id == id) then 0 else 1 + FindId(sem, order[1..], id)
  }

  datatype Command = Init(hasArgs: bool, initial: int) | Signalling | Waiting | Freeing | Unknown

  datatype Lookup = Missing | Found(node: int)

  /** semctl, lines 38-48: id 0 names no semaphore. */
  function Named(sys: System, id: int): (l: Lookup)
    ensures l.Found? ==> id != 0 && l.node in sys.sem && sys.sem[l.node].id == id
  {
    var k := FindId(sys.sem, sys.order, id);
    if id != 0 && k < |sys.order| then Found(sys.order[k]) else Missing
  }

  /** The whole of semctl: the new state and the value returned. */
  function Answer(sys: System, id: int, command: Command, node: int): (System, int)
    requires Inv(sys)
  {
    if command.Init? then
      if command.hasArgs then (InitSem(sys, node, command.initial), sys.nextSem) else (sys, -1)
    else if command.Unknown? || Named(sys, id).Missing? then (sys, -1)
    else
      var s := Named(sys, id).node;
      SemKeys(sys);
      if command.Signalling? then (Signal(sys, s), id)
      else if command.Waiting? then (Tasking.Wait(sys, s), id)
      else if Freeable(sys, s) then
        FreeInv(sys, s);
        (FreeSem(sys, s), id)
      else (sys, -1)
  }

  /** kmalloc gives a node no other list_head overlaps. */
  ghost predicate Unused(m: Mem, cells: set<int>, x: int) {
    Mapped(m, x) && forall a :: a in cells ==> Apart(a, x)
  }

  // ---------------------------------------------------------------- tasks

  lemma CreateHolds(m: Mem, lists: map<int, seq<int>>, sys: System, mainQueue: int, semQueue: int, cells: set<int>, x: int)
    requires Holds(m, lists, sys, mainQueue, semQueue, cells) && Unused(m, cells, x)
    ensures x !in sys.tasks && Holds(m, lists, Create(sys, x), mainQueue, semQueue, cells + {x})
  {
    hide Rings, Heads;
    Claimed(m, lists, cells, x);
    assert x in cells ==> Apart(x, x);
    CreateDistinct(sys, mainQueue, semQueue, cells, x);
    hide Distinct, Create;
    CreateHeads(lists, sys, mainQueue, semQueue, x);
  }

  lemma CreateHeads(lists: map<int, seq<int>>, sys: System, mainQueue: int, semQueue: int, x: int)
    requires Heads(lists, sys, mainQueue, semQueue)
    ensures Heads(lists, Create(sys, x), mainQueue, semQueue)
    ensures Create(sys, x).sem == sys.sem && Create(sys, x).waiters == sys.waiters
  {
  }

  lemma CreateDistinct(sys: System, mainQueue: int, semQueue: int, cells: set<int>, x: int)
    requires Distinct(sys, mainQueue, semQueue, cells) && x !in cells
    ensures x !in sys.tasks && Distinct(Create(sys, x), mainQueue, semQueue, cells + {x})
  {
    var r := Create(sys, x);
    forall s | s in r.sem ensures SemDistinct(r, s, mainQueue, semQueue, cells + {x}) {
      assert SemDistinct(sys, s, mainQueue, semQueue, cells);
    }
  }

  /** A task that has not been run is on no list. */
  lemma CreatedOff(sys: System, lists: map<int, seq<int>>, mainQueue: int, semQueue: int, cells: set<int>, x: int)
    requires Inv(sys) && Distinct(sys, mainQueue, semQueue, cells) && Heads(lists, sys, mainQueue, semQueue)
    requires x in sys.tasks && sys.tasks[x].status == Created
    ensures x in cells && x !in lists && forall h :: h in lists ==> x !in lists[h]
  {
    assert x !in sys.main;
    assert forall s :: s in sys.waiters ==> x !in sys.waiters[s];
    assert forall s :: s in sys.order <==> s in sys.sem;
    assert sys.sem.Keys == sys.waiters.Keys;
    forall h | h in lists ensures x !in lists[h] && x != h {
      if h != mainQueue && h != semQueue {
        assert h + 8 in sys.waiters && QueueHead(h + 8) == h;
      }
    }
  }

  lemma RunHolds(m: Mem, lists: map<int, seq<int>>, sys: System, mainQueue: int, semQueue: int, cells: set<int>, x: int)
    requires Holds(m, lists, sys, mainQueue, semQueue, cells) && Inv(sys) && x in sys.tasks && sys.tasks[x].status == Created
    ensures Mapped(m, x) && Outside(x, mainQueue, sys.main) && Ring(m, mainQueue, sys.main)
    ensures Holds(Link(m, x, At(mainQueue, sys.main, |sys.main| - 1), mainQueue), lists[mainQueue := sys.main + [x]],
                  RunTask(sys, x), mainQueue, semQueue, cells)
  {
    hide Ring, Rings, Inv, Heads, Distinct, RunTask;
    CreatedOff(sys, lists, mainQueue, semQueue, cells, x);
    MainRing(m, lists, sys, mainQueue, semQueue, cells);
    Joined(m, lists, cells, mainQueue, |sys.main|, x);
    assert InsertAt(sys.main, |sys.main|, x) == sys.main + [x];
    RunTaskIs(sys, x);
    SetMain(lists, sys, mainQueue, semQueue, cells, sys.main + [x]);
    HeadsSame(lists[mainQueue := sys.main + [x]], sys.(main := sys.main + [x]), RunTask(sys, x), mainQueue, semQueue);
    DistinctSame(sys, RunTask(sys, x), mainQueue, semQueue, cells);
  }

  lemma RunTaskIs(sys: System, x: int)
    requires x in sys.tasks && sys.tasks[x].status == Created
    ensures var r := RunTask(sys, x);
            r.main == sys.main + [x] && r.order == sys.order && r.waiters == sys.waiters && r.sem == sys.sem && r.tasks.Keys == sys.tasks.Keys
  {
  }

  lemma HeadsSame(lists: map<int, seq<int>>, sys: System, r: System, mainQueue: int, semQueue: int)
    requires Heads(lists, sys, mainQueue, semQueue) && r.main == sys.main && r.order == sys.order && r.waiters == sys.waiters
    ensures Heads(lists, r, mainQueue, semQueue)
  {
  }

  // ---------------------------------------------------------------- semaphores

  lemma InitHolds(m: Mem, lists: map<int, seq<int>>, sys: System, mainQueue: int, semQueue: int, cells: set<int>, s: int, initial: int)
    requires Holds(m, lists, sys, mainQueue, semQueue, cells)
    requires Unused(m, cells, s) && Unused(m, cells, QueueHead(s))
    ensures s !in sys.sem
    ensures var q := QueueHead(s);
            var m1 := m[q := q][q + 4 := q];
            && Mapped(m1, s) && Outside(s, semQueue, sys.order) && Ring(m1, semQueue, sys.order)
            && Holds(Link(m1, s, At(semQueue, sys.order, |sys.order| - 1), semQueue), lists[q := []][semQueue := sys.order + [s]],
                     InitSem(sys, s, initial), mainQueue, semQueue, cells + {s, q})
  {
    hide Ring, Rings, Distinct, Heads, Link, At, Outside;
    NewDistinct(sys, mainQueue, semQueue, cells, m, s, initial);
    MainRing(m, lists, sys, mainQueue, semQueue, cells);
    NewHeads(lists, sys, mainQueue, semQueue, cells, s, initial);
    NewRings(m, lists, cells, semQueue, QueueHead(s), s);
    InsertLast(sys.order, s);
  }

  lemma Pair(m: Mem, cells: set<int>, s: int)
    requires Unused(m, cells, s) && Unused(m, cells, QueueHead(s))
    ensures Unused(m, cells + {QueueHead(s)}, s)
  {
  }

  /** An empty list headed by q, and a node s more on the list of h. */
  lemma NewRings(m: Mem, lists: map<int, seq<int>>, cells: set<int>, h: int, q: int, s: int)
    requires Rings(m, lists, cells) && h in lists && h != q && q == QueueHead(s) && Unused(m, cells, s) && Unused(m, cells, q)
    ensures var m1 := m[q := q][q + 4 := q];
            && Mapped(m1, s) && Outside(s, h, lists[h]) && Ring(m1, h, lists[h])
            && Rings(Link(m1, s, At(h, lists[h], |lists[h]| - 1), h), lists[q := []][h := InsertAt(lists[h], |lists[h]|, s)], cells + {s, q})
  {
    var c1 := cells + {q};
    var c2 := c1 + {s};
    hide Ring, Rings, Link, InsertAt, Outside;
    Pair(m, cells, s);
    Claimed(m, lists, cells, q);
    Claimed(m, lists, c1, s);
    Opened(m, lists, c2, q);
    assert c2 == cells + {s, q};
    assert At(h, lists[h], |lists[h]|) == h;
    Joined(m[q := q][q + 4 := q], lists[q := []], c2, h, |lists[h]|, s);
  }

  lemma NewDistinct(sys: System, mainQueue: int, semQueue: int, cells: set<int>, m: Mem, s: int, initial: int)
    requires Distinct(sys, mainQueue, semQueue, cells) && Unused(m, cells, s) && Unused(m, cells, QueueHead(s))
    ensures s !in sys.sem && s != mainQueue && s != semQueue && QueueHead(s) != mainQueue && QueueHead(s) != semQueue
    ensures Distinct(InitSem(sys, s, initial), mainQueue, semQueue, cells + {s, QueueHead(s)})
  {
    var r := InitSem(sys, s, initial);
    assert forall a :: a in cells ==> a != s && a != QueueHead(s);
    forall z | z in r.sem ensures SemDistinct(r, z, mainQueue, semQueue, cells + {s, QueueHead(s)}) {
      if z != s {
        assert SemDistinct(sys, z, mainQueue, semQueue, cells);
      } else {
        assert s + 8 in sys.sem ==> SemDistinct(sys, s + 8, mainQueue, semQueue, cells) && QueueHead(s + 8) == s;
      }
    }
  }

  lemma NewHeads(lists: map<int, seq<int>>, sys: System, mainQueue: int, semQueue: int, cells: set<int>, s: int, initial: int)
    requires Heads(lists, sys, mainQueue, semQueue) && Distinct(sys, mainQueue, semQueue, cells) && sys.sem.Keys == sys.waiters.Keys
    requires QueueHead(s) != mainQueue && QueueHead(s) != semQueue && s !in sys.sem
    ensures Heads(lists[QueueHead(s) := []][semQueue := sys.order + [s]], InitSem(sys, s, initial), mainQueue, semQueue)
  {
    hide SemDistinct, Distinct, Queued, NoOthers;
    NewQueued(lists, sys, mainQueue, semQueue, cells, s, sys.order + [s]);
    NewOthers(lists, sys.waiters, mainQueue, semQueue, s, sys.order + [s]);
    MainsApart(sys, mainQueue, semQueue, cells);
  }

  lemma NewQueued(lists: map<int, seq<int>>, sys: System, mainQueue: int, semQueue: int, cells: set<int>, s: int, order: seq<int>)
    requires Queued(lists, sys.waiters) && Distinct(sys, mainQueue, semQueue, cells) && sys.sem.Keys == sys.waiters.Keys
    requires QueueHead(s) != semQueue && s !in sys.sem
    ensures Queued(lists[QueueHead(s) := []][semQueue := order], sys.waiters[s := []])
  {
    hide Distinct, SemDistinct;
    forall z | z in sys.waiters ensures QueueHead(z) != semQueue { QueueElsewhere(sys, mainQueue, semQueue, cells, z); }
  }

  lemma NewOthers(lists: map<int, seq<int>>, waiters: map<int, seq<int>>, mainQueue: int, semQueue: int, s: int, order: seq<int>)
    requires NoOthers(lists, waiters, mainQueue, semQueue)
    ensures NoOthers(lists[QueueHead(s) := []][semQueue := order], waiters[s := []], mainQueue, semQueue)
  {
  }

  lemma MainsApart(sys: System, mainQueue: int, semQueue: int, cells: set<int>)
    requires Distinct(sys, mainQueue, semQueue, cells)
    ensures mainQueue != semQueue
  {
  }

  /** list_move from the run queue to the front of a wait queue is Park. */
  lemma ParkHolds(m: Mem, lists: map<int, seq<int>>, sys: System, mainQueue: int, semQueue: int, cells: set<int>, s: int, x: int)
    requires Holds(m, lists, sys, mainQueue, semQueue, cells) && s in sys.sem && x in sys.main
    ensures s in sys.waiters
    ensures var i: int := Pos(sys.main, x);
            var q, w := QueueHead(s), sys.waiters[s];
            && Ring(m, mainQueue, sys.main) && Ring(m, q, w) && RingsApart(mainQueue, sys.main, q, w)
            && Holds(Link(Unlink(m, At(mainQueue, sys.main, i - 1), At(mainQueue, sys.main, i + 1)), x, q, At(q, w, 0)),
                     lists[mainQueue := RemoveAt(sys.main, i)][q := [x] + w], Park(sys, s, x), mainQueue, semQueue, cells)
  {
    hide Ring, Rings;
    QueueRings(m, lists, sys, mainQueue, semQueue, cells, s);
    MainRing(m, lists, sys, mainQueue, semQueue, cells);
    var i, q, w := Pos(sys.main, x), QueueHead(s), sys.waiters[s];
    Shifted(m, lists, cells, mainQueue, i, q, 0);
    assert InsertAt(w, 0, x) == [x] + w;
    SetMain(lists, sys, mainQueue, semQueue, cells, RemoveAt(sys.main, i));
    var mid := sys.(main := RemoveAt(sys.main, i));
    SetQueue(lists[mainQueue := RemoveAt(sys.main, i)], mid, mainQueue, semQueue, s, [x] + w);
    DistinctSame(sys, Park(sys, s, x), mainQueue, semQueue, cells);
  }

  lemma FreeFacts(m: Mem, lists: map<int, seq<int>>, sys: System, mainQueue: int, semQueue: int, cells: set<int>, s: int, k: int)
    requires Holds(m, lists, sys, mainQueue, semQueue, cells) && s in sys.sem && s in sys.waiters && 0 <= k < |sys.order| && sys.order[k] == s
    ensures Rings(m, lists, cells) && Ring(m, semQueue, sys.order) && semQueue in lists && lists[semQueue] == sys.order
    ensures QueueHead(s) in lists && QueueHead(s) != semQueue && lists[QueueHead(s)] == sys.waiters[s]
    ensures var l1 := lists[semQueue := RemoveAt(sys.order, k)]; s !in l1 && forall h :: h in l1 ==> s !in l1[h]
  {
    hide Ring, Rings, RemoveAt;
    MainRing(m, lists, sys, mainQueue, semQueue, cells);
    QueueRings(m, lists, sys, mainQueue, semQueue, cells, s);
    RingsPlaced(m, lists, cells);
    PlaceRemove(lists, cells, semQueue, k);
  }

  lemma FreeHolds(m: Mem, lists: map<int, seq<int>>, sys: System, mainQueue: int, semQueue: int, cells: set<int>, s: int)
    requires Holds(m, lists, sys, mainQueue, semQueue, cells) && s in sys.sem && s in sys.waiters && sys.waiters[s] == [] && s in sys.order
    ensures var k: int := Pos(sys.order, s);
            && Ring(m, semQueue, sys.order)
            && Holds(Unlink(m, At(semQueue, sys.order, k - 1), At(semQueue, sys.order, k + 1)),
                     lists[semQueue := RemoveAt(sys.order, k)] - {QueueHead(s)}, FreeSem(sys, s), mainQueue, semQueue, cells - {s, QueueHead(s)})
  {
    var k: int, q := Pos(sys.order, s), QueueHead(s);
    var m1 := Unlink(m, At(semQueue, sys.order, k - 1), At(semQueue, sys.order, k + 1));
    FreeHeads(lists, sys, mainQueue, semQueue, cells, s, k);
    FreeDistinct(sys, mainQueue, semQueue, cells, s);
    FreeFacts(m, lists, sys, mainQueue, semQueue, cells, s, k);
    hide Ring, Rings, Distinct, Heads, Drop, RemoveAt, Unlink, Pos, At;
    Cut(m, lists, cells, semQueue, k);
    FreeRest(m1, lists[semQueue := RemoveAt(sys.order, k)], cells, s, q);
  }

  lemma FreeRest(m: Mem, lists: map<int, seq<int>>, cells: set<int>, s: int, q: int)
    requires Rings(m, lists, cells) && q in lists && lists[q] == [] && s !in lists && forall h :: h in lists ==> s !in lists[h]
    ensures Rings(m, lists - {q}, cells - {s, q})
  {
    hide Ring;
    RingsPlaced(m, lists, cells);
    Closed(m, lists, cells, q);
    Released(m, lists - {q}, cells, s);
    Released(m, lists - {q}, cells - {s}, q);
    assert cells - {s} - {q} == cells - {s, q};
  }

  lemma QueueElsewhere(sys: System, mainQueue: int, semQueue: int, cells: set<int>, s: int)
    requires Distinct(sys, mainQueue, semQueue, cells) && s in sys.sem
    ensures QueueHead(s) != mainQueue && QueueHead(s) != semQueue && mainQueue != semQueue
  {
    assert SemDistinct(sys, s, mainQueue, semQueue, cells);
  }

  lemma DropIs(q: seq<int>, x: int)
    requires x in q
    ensures Drop(q, x) == RemoveAt(q, Pos(q, x))
  {
  }

  lemma FreeHeads(lists: map<int, seq<int>>, sys: System, mainQueue: int, semQueue: int, cells: set<int>, s: int, k: int)
    requires Heads(lists, sys, mainQueue, semQueue) && Distinct(sys, mainQueue, semQueue, cells) && sys.sem.Keys == sys.waiters.Keys
    requires s in sys.order && s in sys.sem && k == Pos(sys.order, s)
    ensures Heads(lists[semQueue := RemoveAt(sys.order, k)] - {QueueHead(s)}, FreeSem(sys, s), mainQueue, semQueue)
  {
    hide Drop, RemoveAt, Pos, SemDistinct, Distinct, Queued, NoOthers;
    DropIs(sys.order, s);
    QueueElsewhere(sys, mainQueue, semQueue, cells, s);
    FreeQueued(lists, sys, mainQueue, semQueue, cells, s, RemoveAt(sys.order, k));
    FreeOthers(lists, sys.waiters, mainQueue, semQueue, s, RemoveAt(sys.order, k));
  }

  lemma FreeQueued(lists: map<int, seq<int>>, sys: System, mainQueue: int, semQueue: int, cells: set<int>, s: int, order: seq<int>)
    requires Queued(lists, sys.waiters) && Distinct(sys, mainQueue, semQueue, cells) && sys.sem.Keys == sys.waiters.Keys
    ensures Queued(lists[semQueue := order] - {QueueHead(s)}, sys.waiters - {s})
  {
    hide Distinct, SemDistinct;
    forall z | z in sys.waiters ensures QueueHead(z) != semQueue { QueueElsewhere(sys, mainQueue, semQueue, cells, z); }
  }

  lemma FreeOthers(lists: map<int, seq<int>>, waiters: map<int, seq<int>>, mainQueue: int, semQueue: int, s: int, order: seq<int>)
    requires NoOthers(lists, waiters, mainQueue, semQueue)
    ensures NoOthers(lists[semQueue := order] - {QueueHead(s)}, waiters - {s}, mainQueue, semQueue)
  {
  }

  lemma FreeDistinct(sys: System, mainQueue: int, semQueue: int, cells: set<int>, s: int)
    requires Distinct(sys, mainQueue, semQueue, cells) && s in sys.sem && s in sys.order
    ensures Distinct(FreeSem(sys, s), mainQueue, semQueue, cells - {s, QueueHead(s)})
  {
    var r := FreeSem(sys, s);
    assert SemDistinct(sys, s, mainQueue, semQueue, cells);
    forall z | z in r.sem ensures SemDistinct(r, z, mainQueue, semQueue, cells - {s, QueueHead(s)}) {
      assert SemDistinct(sys, z, mainQueue, semQueue, cells);
    }
  }
}
