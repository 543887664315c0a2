/**
 The run queue, the semaphores and their wait queues as one system of lists
 (kernel/src/multitasking/task.c and semaphore.c) on values. A task is named by the address of its
 list node, a semaphore by the address of the node that links it to the other semaphores.
 */
module Tasking {
  import opened Machine
  import opened Scheduler

  datatype Sem = Sem(id: int, initial: int, count: int)

  datatype System = System(
    tasks: Tasks, main: seq<int>, order: seq<int>, sem: map<int, Sem>, waiters: map<int, seq<int>>,
    current: int, kernel: int, nextPID: int, nextSem: int)

  // ---------------------------------------------------------------- invariant

  /** Every task is at most once on one list. */
  ghost predicate Exclusive(main: seq<int>, waiters: map<int, seq<int>>) {
    && NoDup(main)
    && (forall s :: s in waiters ==> NoDup(waiters[s]))
    && (forall s, x :: s in waiters && x in waiters[s] ==> x !in main)
    && (forall s, s', x :: s in waiters && s' in waiters && x in waiters[s] && x in waiters[s'] ==> s == s')
  }

  predicate On(sys: System, x: int) {
    x in sys.main || exists s :: s in sys.waiters && x in sys.waiters[s]
  }

  /** The tasks on lists are exactly those that have been run and not destroyed; a parked task has not finished. */
  ghost predicate Placed(sys: System) {
    && (forall x :: x in sys.tasks && sys.tasks[x].status != Created ==> On(sys, x))
    && (forall x :: x in sys.main ==> x in sys.tasks && Queueable(sys.tasks[x].status))
    && (forall s, x :: s in sys.waiters && x in sys.waiters[s] ==> x in sys.tasks && (sys.tasks[x].status == Idle || sys.tasks[x].status == Running))
  }

  /** The kernel task is live and on the run queue, as kernel_main's endless loop has it; the current task has not finished. */
  ghost predicate Manned(sys: System) {
    && sys.kernel in sys.main && sys.kernel in sys.tasks && Sane(sys.tasks[sys.kernel]) && sys.current in sys.main && sys.current in sys.tasks
    && (Awake(sys.tasks[sys.current]) || sys.current == sys.kernel)
  }

  /** The current task runs; only the kernel task may still be waiting for its first turn. */
  predicate Steady(sys: System) {
    sys.current in sys.tasks && (sys.tasks[sys.current].status == Running || sys.current == sys.kernel)
  }

  ghost predicate SemsOk(sys: System) {
    && sys.sem.Keys == sys.waiters.Keys && NoDup(sys.order) && (forall s :: s in sys.order <==> s in sys.sem)
  }

  ghost predicate Inv(sys: System) {
    Exclusive(sys.main, sys.waiters) && Placed(sys) && Manned(sys) && SemsOk(sys)
  }

  // ---------------------------------------------------------------- semctl_process

  /** One semaphore: the task parked last moves to the end of the run queue and takes a permit. */
  function WakeOne(sys: System, s: int): System
    requires s in sys.sem && s in sys.waiters
  {
    if sys.sem[s].count > 0 && sys.waiters[s] != [] then
      sys.(sem := sys.sem[s := sys.sem[s].(count := sys.sem[s].count - 1)],
           waiters := sys.waiters[s := sys.waiters[s][1..]],
           main := sys.main + [sys.waiters[s][0]])
    else sys
  }

  function WakeAll(sys: System, order: seq<int>): System
    requires sys.sem.Keys == sys.waiters.Keys && forall i :: 0 <= i < |order| ==> order[i] in sys.sem
    decreases |order|
  {
    if order == [] then sys else WakeAll(WakeOne(sys, order[0]), order[1..])
  }

  predicate Wakes(sys: System, s: int) {
    s in sys.sem && s in sys.waiters && sys.sem[s].count > 0 && sys.waiters[s] != []
  }

  /** The tasks woken by one pass over `order`. */
  function Woken(sys: System, order: seq<int>): seq<int> {
    if order == [] then []
    else (if Wakes(sys, order[0]) then [sys.waiters[order[0]][0]] else []) + Woken(sys, order[1..])
  }

  lemma {:induction false} WokenFrame(sys: System, sys': System, order: seq<int>)
    requires forall i :: 0 <= i < |order| ==> (Wakes(sys, order[i]) <==> Wakes(sys', order[i]))
    requires forall i :: 0 <= i < |order| && Wakes(sys, order[i]) && Wakes(sys', order[i]) ==> sys.waiters[order[i]] == sys'.waiters[order[i]]
    ensures Woken(sys, order) == Woken(sys', order)
  {
    if order != [] {
      forall i | 0 <= i < |order[1..]|
        ensures Wakes(sys, order[1..][i]) <==> Wakes(sys', order[1..][i])
        ensures Wakes(sys, order[1..][i]) && Wakes(sys', order[1..][i]) ==> sys.waiters[order[1..][i]] == sys'.waiters[order[1..][i]]
      {
        assert order[1..][i] == order[i + 1];
      }
      WokenFrame(sys, sys', order[1..]);
    }
  }

  /** A semaphore on `order` with a permit and a waiter has given one permit to the waiter at the front; the others are as they were. */
  predicate WokeAt(sys: System, r: System, order: seq<int>, s: int) {
    && s in r.sem && s in r.waiters && s in sys.sem && s in sys.waiters
    && (if s in order && Wakes(sys, s)
        then r.waiters[s] == sys.waiters[s][1..] && r.sem[s] == sys.sem[s].(count := sys.sem[s].count - 1)
        else r.waiters[s] == sys.waiters[s] && r.sem[s] == sys.sem[s])
  }

  ghost predicate Woke(sys: System, r: System, order: seq<int>) {
    && r == sys.(sem := r.sem, waiters := r.waiters, main := r.main)
    && r.sem.Keys == sys.sem.Keys && r.waiters.Keys == sys.waiters.Keys
    && r.main == sys.main + Woken(sys, order)
    && (forall s :: s in sys.sem ==> WokeAt(sys, r, order, s))
  }

  lemma WakeMain(sys: System, order: seq<int>)
    requires sys.sem.Keys == sys.waiters.Keys && order != [] && NoDup(order) && order[0] in sys.sem
    ensures WakeOne(sys, order[0]).main + Woken(WakeOne(sys, order[0]), order[1..]) == sys.main + Woken(sys, order)
  {
    var mid, rest := WakeOne(sys, order[0]), order[1..];
    assert forall i :: 0 <= i < |rest| ==> rest[i] == order[i + 1] && rest[i] != order[0];
    WokenFrame(mid, sys, rest);
    var front := if Wakes(sys, order[0]) then [sys.waiters[order[0]][0]] else [];
    assert Woken(sys, order) == front + Woken(sys, rest);
    hide Woken;
    assert mid.main == sys.main + front;
    Regroup(sys.main, front, Woken(sys, rest));
  }

  lemma Regroup(a: seq<int>, b: seq<int>, c: seq<int>)
    ensures (a + b) + c == a + (b + c)
  {
  }

  lemma WakeOneThen(sys: System, r: System, order: seq<int>)
    requires sys.sem.Keys == sys.waiters.Keys && order != [] && NoDup(order) && order[0] in sys.sem
    requires Woke(WakeOne(sys, order[0]), r, order[1..])
    ensures Woke(sys, r, order)
  {
    var s0, rest := order[0], order[1..];
    var mid := WakeOne(sys, s0);
    WakeMain(sys, order);
    hide Woken;
    assert forall s :: s in order <==> s == s0 || s in rest;
    assert s0 !in rest by { assert forall i :: 0 <= i < |rest| ==> rest[i] == order[i + 1]; }
    forall s | s in sys.sem ensures WokeAt(sys, r, order, s) {
      assert WokeAt(mid, r, rest, s);
    }
  }

  /**
   No lost wake-up: one pass moves, for each semaphore with a permit and a waiter, exactly the most
   recently parked one to the end of the run queue and takes one permit; nothing else changes.
   */
  lemma {:induction false} WakeAllExact(sys: System, order: seq<int>)
    requires sys.sem.Keys == sys.waiters.Keys && NoDup(order) && forall i :: 0 <= i < |order| ==> order[i] in sys.sem
    ensures Woke(sys, WakeAll(sys, order), order)
    decreases |order|
  {
    if order != [] {
      hide Woke;
      var mid := WakeOne(sys, order[0]);
      assert forall i :: 0 <= i < |order[1..]| ==> order[1..][i] == order[i + 1];
      WakeAllExact(mid, order[1..]);
      WakeOneThen(sys, WakeAll(mid, order[1..]), order);
    } else {
      assert sys.main + [] == sys.main;
    }
  }

  lemma WakeOneKeeps(sys: System, s: int)
    requires Inv(sys) && s in sys.sem
    ensures Inv(WakeOne(sys, s)) && forall x :: On(sys, x) <==> On(WakeOne(sys, s), x)
  {
    if Wakes(sys, s) {
      WokenExclusive(sys, s);
      WokenOn(sys, s);
      WokenPlaced(sys, s);
    }
  }

  lemma WokenExclusive(sys: System, s: int)
    requires Exclusive(sys.main, sys.waiters) && s in sys.sem && Wakes(sys, s)
    ensures var r := WakeOne(sys, s); Exclusive(r.main, r.waiters)
  {
    var r, t := WakeOne(sys, s), sys.waiters[s][0];
    var w := r.waiters[s];
    assert forall i :: 0 <= i < |w| ==> w[i] == sys.waiters[s][i + 1];
    assert forall x :: x in w ==> x in sys.waiters[s];
    assert t in sys.waiters[s] && t !in sys.main && t !in w;
    forall z, x | z in r.waiters && x in r.waiters[z] ensures x !in r.main && x in sys.waiters[z] { }
  }

  lemma WokenOn(sys: System, s: int)
    requires s in sys.sem && Wakes(sys, s)
    ensures forall x :: On(sys, x) <==> On(WakeOne(sys, s), x)
  {
    var r := WakeOne(sys, s);
    var old0 := sys.waiters[s];
    assert old0 == [old0[0]] + old0[1..];
    forall x ensures On(sys, x) <==> On(r, x) {
      if On(sys, x) && x !in sys.main {
        var z :| z in sys.waiters && x in sys.waiters[z];
        assert z in r.waiters && (x in r.waiters[z] || x in r.main);
      }
      if On(r, x) && x !in r.main {
        var z :| z in r.waiters && x in r.waiters[z];
        assert z in sys.waiters && x in sys.waiters[z];
      }
      if x in r.main && x !in sys.main {
        assert x in sys.waiters[s];
      }
    }
  }

  lemma WokenPlaced(sys: System, s: int)
    requires Placed(sys) && s in sys.sem && Wakes(sys, s) && forall x :: On(sys, x) <==> On(WakeOne(sys, s), x)
    ensures Placed(WakeOne(sys, s))
  {
    var r := WakeOne(sys, s);
    assert sys.waiters[s][0] in sys.waiters[s];
    forall z, x | z in r.waiters && x in r.waiters[z] ensures x in sys.waiters[z] { }
  }

  lemma {:induction false} WakeAllKeeps(sys: System, order: seq<int>)
    requires Inv(sys) && forall i :: 0 <= i < |order| ==> order[i] in sys.sem
    ensures Inv(WakeAll(sys, order)) && (forall x :: On(sys, x) <==> On(WakeAll(sys, order), x))
    ensures var r := WakeAll(sys, order); r.tasks == sys.tasks && r.current == sys.current && r.kernel == sys.kernel && r.order == sys.order
    decreases |order|
  {
    if order != [] {
      WakeOneKeeps(sys, order[0]);
      assert forall i :: 0 <= i < |order[1..]| ==> order[1..][i] == order[i + 1];
      WakeAllKeeps(WakeOne(sys, order[0]), order[1..]);
    }
  }

  // ---------------------------------------------------------------- switchTask

  function Pos(q: seq<int>, x: int): (k: nat)
    requires x in q
    ensures k < |q| && q[k] == x
  {
    if q[0] == x then 0 else 1 + Pos(q[1..], x)
  }

  /** The ring as the walk sees it: the task after x first, x last. */
  function Turn(q: seq<int>, x: int): seq<int>
    requires x in q
  {
    q[Pos(q, x) + 1..] + q[..Pos(q, x) + 1]
  }

  lemma TurnFacts(q: seq<int>, x: int)
    requires x in q && NoDup(q)
    ensures var t := Turn(q, x); |t| == |q| && t[|t| - 1] == x && NoDup(t) && forall y :: y in t <==> y in q
  {
    var k := Pos(q, x) + 1;
    var t := Turn(q, x);
    assert q == q[..k] + q[k..];
    forall i, j | 0 <= i < j < |t| ensures t[i] != t[j] {
      assert t[i] == q[if i < |q| - k then i + k else i - (|q| - k)];
      assert t[j] == q[if j < |q| - k then j + k else j - (|q| - k)];
    }
  }

  /** The members of q that are also in s, in q's order. */
  function Keep(q: seq<int>, s: seq<int>): seq<int> {
    if q == [] then [] else (if q[0] in s then [q[0]] else []) + Keep(q[1..], s)
  }

  lemma {:induction false} KeepMembers(q: seq<int>, s: seq<int>)
    ensures forall y :: y in Keep(q, s) <==> y in q && y in s
    ensures NoDup(q) ==> NoDup(Keep(q, s))
  {
    if q != [] {
      KeepMembers(q[1..], s);
      assert q == [q[0]] + q[1..];
      if NoDup(q) {
        assert q[0] !in q[1..];
        assert NoDup(q[1..]);
      }
    }
  }

  /** Line 60: the interrupted context goes into the record of the current task. */
  function Saved(sys: System, dying: bool, eax: int): System
    requires sys.current in sys.tasks
  {
    sys.(tasks := sys.tasks[sys.current := sys.tasks[sys.current].(dying := dying, eax := eax)])
  }

  lemma SavedKeeps(sys: System, dying: bool, eax: int)
    requires Inv(sys) && (dying ==> sys.current != sys.kernel)
    ensures Inv(Saved(sys, dying, eax)) && forall x :: On(sys, x) <==> On(Saved(sys, dying, eax), x)
  {
    var r := Saved(sys, dying, eax);
    assert forall x :: On(sys, x) <==> On(r, x);
  }

  /** Lines 60-62: what the walk starts from. */
  function Ticked(sys: System, dying: bool, eax: int): System
    requires Inv(sys)
  {
    OrderKnown(sys);
    WakeAll(Saved(sys, dying, eax), sys.order)
  }

  lemma TickedKeeps(sys: System, dying: bool, eax: int)
    requires Inv(sys) && (dying ==> sys.current != sys.kernel)
    ensures var r := Ticked(sys, dying, eax);
            Inv(r) && r.tasks == Saved(sys, dying, eax).tasks && r.current == sys.current && r.kernel == sys.kernel && r.order == sys.order
    ensures forall x :: On(sys, x) <==> On(Ticked(sys, dying, eax), x)
  {
    hide Inv, WakeAll, On;
    SavedKeeps(sys, dying, eax);
    OrderKnown(sys);
    OrderKnown(Saved(sys, dying, eax));
    WakeAllKeeps(Saved(sys, dying, eax), sys.order);
  }

  lemma OrderKnown(sys: System)
    requires Inv(sys)
    ensures sys.sem.Keys == sys.waiters.Keys && NoDup(sys.order) && (forall i :: 0 <= i < |sys.order| ==> sys.order[i] in sys.sem)
    ensures sys.current in sys.tasks
  {
    forall i | 0 <= i < |sys.order| ensures sys.order[i] in sys.sem {
      var s := sys.order[i];
      assert s in sys.order;
      assert s in sys.sem;
    }
  }

  /** The walk may start: the kernel task is there to be chosen. */
  lemma WalkReady(sys: System)
    requires Inv(sys)
    ensures sys.current in sys.main && sys.kernel in sys.main
    ensures var q := Turn(sys.main, sys.current); Known(sys.tasks, q) && NoDup(q) && SomeLive(sys.tasks, q) && sys.kernel in q
  {
    TurnFacts(sys.main, sys.current);
    var q := Turn(sys.main, sys.current);
    forall i | 0 <= i < |q| ensures q[i] in sys.tasks { assert q[i] in q; }
  }

  /** Lines 64-104. */
  function Walked(sys: System): System
    requires Inv(sys)
  {
    WalkReady(sys);
    var c := Sweep(sys.kernel, sys.tasks, Turn(sys.main, sys.current));
    SweepChooses(sys.kernel, sys.tasks, Turn(sys.main, sys.current));
    sys.(tasks := c.tasks, main := Keep(sys.main, c.queue), current := Chosen(c))
  }

  /** switchTask */
  function Switch(sys: System, dying: bool, eax: int): System
    requires Inv(sys) && (dying ==> sys.current != sys.kernel)
  {
    TickedKeeps(sys, dying, eax);
    Walked(Ticked(sys, dying, eax))
  }

  lemma WalkedMembers(sys: System)
    requires Inv(sys)
    ensures var r := Walked(sys);
            && r == sys.(tasks := r.tasks, main := r.main, current := r.current)
            && NoDup(r.main) && r.current in r.main && r.current in sys.main
            && r.current in r.tasks && r.tasks[r.current].status == Running
            && (forall x :: x in r.main ==> x in sys.main && x in r.tasks && x in sys.tasks && Kept(sys.tasks[x], r.tasks[x]))
            && (forall x :: x in r.tasks ==> x in sys.tasks)
            && (forall x :: x in sys.main && x !in r.main ==> x !in r.tasks && x != sys.kernel)
            && (forall x :: x in sys.tasks && x !in sys.main ==> x in r.tasks && r.tasks[x] == sys.tasks[x])
            && (forall x :: x in sys.main && x in sys.tasks && Sane(sys.tasks[x]) ==> x in r.main)
  {
    hide Inv;
    InvParts(sys);
    WalkReady(sys);
    var q := Turn(sys.main, sys.current);
    TurnFacts(sys.main, sys.current);
    hide Turn, Sweep;
    var c := Sweep(sys.kernel, sys.tasks, q);
    SweepChooses(sys.kernel, sys.tasks, q);
    KeepMembers(sys.main, c.queue);
    hide Keep;
    assert Chosen(c) in c.queue;
    forall x | x in sys.main && x in sys.tasks
      ensures (x in c.queue ==> x in c.tasks && Kept(sys.tasks[x], c.tasks[x])) && (Sane(sys.tasks[x]) ==> x in c.queue)
    {
      SweepRecords(sys.kernel, sys.tasks, q, x);
    }
  }

  lemma InvParts(sys: System)
    requires Inv(sys)
    ensures Exclusive(sys.main, sys.waiters) && Placed(sys) && Manned(sys) && SemsOk(sys)
  {
  }

  lemma WalkedInv(sys: System)
    requires Inv(sys)
    ensures Inv(Walked(sys))
  {
    hide Walked, Exclusive, SemsOk;
    WalkedMembers(sys);
    var r := Walked(sys);
    WalkedExclusive(sys, r);
    forall x | x in r.tasks && r.tasks[x].status != Created ensures On(r, x) {
      if x !in r.main {
        assert x !in sys.main && r.tasks[x] == sys.tasks[x];
        assert On(sys, x);
      }
    }
    forall s, x | s in r.waiters && x in r.waiters[s]
      ensures x in r.tasks && (r.tasks[x].status == Idle || r.tasks[x].status == Running) && x !in r.main
    {
      ParkedApart(sys.main, sys.waiters, s, x);
    }
  }

  lemma ParkedApart(main: seq<int>, waiters: map<int, seq<int>>, s: int, x: int)
    requires Exclusive(main, waiters) && s in waiters && x in waiters[s]
    ensures x !in main
  {
  }

  /** A run queue that only gets shorter. */
  lemma WalkedExclusive(sys: System, r: System)
    requires Inv(sys) && r.waiters == sys.waiters && r.sem == sys.sem && r.order == sys.order
    requires NoDup(r.main) && forall x :: x in r.main ==> x in sys.main
    ensures Exclusive(r.main, r.waiters) && SemsOk(r)
  {
  }

  /** A task that parks: still on the run queue after the switch, not the one chosen, and able to run. */
  lemma WalkedParks(sys: System)
    requires Inv(sys) && sys.current != sys.kernel && sys.current in sys.tasks && Calm(sys.tasks[sys.current]) && sys.tasks[sys.current].status == Running
    ensures var r := Walked(sys);
            sys.current in r.main && sys.current != r.current && sys.current in r.tasks && Calm(r.tasks[sys.current])
  {
    hide Inv, Walked;
    WalkReady(sys);
    WalkedMembers(sys);
    NotRechosen(sys);
  }

  lemma NotRechosen(sys: System)
    requires Inv(sys) && sys.current != sys.kernel && sys.current in sys.tasks && sys.tasks[sys.current].status == Running
    ensures Walked(sys).current != sys.current
  {
    hide Inv, Exclusive, Placed, SemsOk, Keep, Sweep;
    InvParts(sys);
    WalkReady(sys);
    TurnIn(sys.main, sys.current);
    var q := Turn(sys.main, sys.current);
    hide Turn;
    var j :| 0 <= j < |q| && q[j] == sys.kernel;
    assert j != |q| - 1;
    ScreenedNotChosen(sys.kernel, sys.tasks, q, sys.kernel, j, sys.current, |q| - 1);
  }

  lemma TurnIn(q: seq<int>, x: int)
    requires x in q
    ensures var t := Turn(q, x); t != [] && t[|t| - 1] == x
  {
  }

  lemma SwitchInv(sys: System, dying: bool, eax: int)
    requires Inv(sys) && (dying ==> sys.current != sys.kernel)
    ensures Inv(Switch(sys, dying, eax)) && Steady(Switch(sys, dying, eax))
    ensures var t, r := Ticked(sys, dying, eax), Switch(sys, dying, eax);
            r == t.(tasks := r.tasks, main := r.main, current := r.current) && r.current in r.tasks && r.tasks[r.current].status == Running
  {
    hide Inv, Walked, Ticked;
    TickedKeeps(sys, dying, eax);
    WalkedInv(Ticked(sys, dying, eax));
    WalkedMembers(Ticked(sys, dying, eax));
  }

  // ---------------------------------------------------------------- semctl

  /** (int32_t) initial_value */
  function ToInt32(x: int): int {
    if x > INT_MAX then x - TWO32 else x
  }

  /** (uint32_t) count, as the comparisons with initial_value take it. */
  function ToUint32(x: int): int {
    if x < 0 then x + TWO32 else x
  }

  /** SEMAPHORE_INIT: a new semaphore at node s, last in the list. */
  function InitSem(sys: System, s: int, initial: int): System {
    sys.(sem := sys.sem[s := Sem(sys.nextSem, initial, ToInt32(initial))], waiters := sys.waiters[s := []],
         order := sys.order + [s], nextSem := sys.nextSem + 1)
  }

  /** SEMAPHORE_SIGNAL. Repair of line 75: the bound is the semaphore's own initial_value. */
  function Signal(sys: System, s: int): System
    requires s in sys.sem
  {
    if ToUint32(sys.sem[s].count) < sys.sem[s].initial then sys.(sem := sys.sem[s := sys.sem[s].(count := sys.sem[s].count + 1)])
    else sys
  }

  /** SEMAPHORE_WAIT: a permit if there is one, otherwise the task gives up the processor and parks at the front. */
  function Wait(sys: System, s: int): System
    requires Inv(sys) && s in sys.sem
  {
    if sys.sem[s].count > 0 then sys.(sem := sys.sem[s := sys.sem[s].(count := sys.sem[s].count - 1)])
    else Park(Switch(sys, false, 0), s, sys.current)
  }

  function Park(sys: System, s: int, x: int): System {
    sys.(main := Drop(sys.main, x), waiters := sys.waiters[s := [x] + if s in sys.waiters then sys.waiters[s] else []])
  }

  function Drop(q: seq<int>, x: int): seq<int> {
    if x in q then q[..Pos(q, x)] + q[Pos(q, x) + 1..] else q
  }

  /** SEMAPHORE_FREE fails while a permit is out or somebody waits. */
  predicate Freeable(sys: System, s: int)
    requires s in sys.sem && s in sys.waiters
  {
    ToUint32(sys.sem[s].count) == sys.sem[s].initial && sys.waiters[s] == []
  }

  function FreeSem(sys: System, s: int): System
    requires s in sys.order
  {
    sys.(sem := sys.sem - {s}, waiters := sys.waiters - {s}, order := Drop(sys.order, s))
  }

  lemma DropAt(q: seq<int>, x: int)
    requires x in q
    ensures var k, d := Pos(q, x), Drop(q, x); |d| == |q| - 1 && forall i :: 0 <= i < |d| ==> d[i] == q[if i < k then i else i + 1]
  {
    hide Pos;
    assert Drop(q, x) == q[..Pos(q, x)] + q[Pos(q, x) + 1..];
  }

  lemma DropMembers(q: seq<int>, x: int)
    requires NoDup(q)
    ensures NoDup(Drop(q, x)) && forall y :: y in Drop(q, x) <==> y in q && y != x
  {
    if x in q {
      var k, d := Pos(q, x), Drop(q, x);
      DropAt(q, x);
      hide Drop, Pos;
      forall y | y in q && y != x ensures y in d {
        var m :| 0 <= m < |q| && q[m] == y;
        assert d[if m < k then m else m - 1] == y;
      }
    }
  }

  lemma InitInv(sys: System, s: int, initial: int)
    requires Inv(sys) && s !in sys.sem
    ensures Inv(InitSem(sys, s, initial)) && forall x :: On(sys, x) <==> On(InitSem(sys, s, initial), x)
  {
    var r := InitSem(sys, s, initial);
    forall x ensures On(sys, x) <==> On(r, x) {
      if On(sys, x) && x !in sys.main {
        var z :| z in sys.waiters && x in sys.waiters[z];
        assert z in r.waiters && x in r.waiters[z];
      }
    }
    forall i, j | 0 <= i < j < |r.order| ensures r.order[i] != r.order[j] {
      assert sys.order[i] in sys.order;
    }
  }

  lemma SignalInv(sys: System, s: int)
    requires Inv(sys) && s in sys.sem
    ensures Inv(Signal(sys, s)) && forall x :: On(sys, x) <==> On(Signal(sys, s), x)
  {
    assert forall x :: On(sys, x) <==> On(Signal(sys, s), x);
  }

  lemma FreeInv(sys: System, s: int)
    requires Inv(sys) && s in sys.sem && s in sys.waiters && Freeable(sys, s)
    ensures s in sys.order && Inv(FreeSem(sys, s)) && forall x :: On(sys, x) <==> On(FreeSem(sys, s), x)
  {
    var r := FreeSem(sys, s);
    DropMembers(sys.order, s);
    forall x ensures On(sys, x) <==> On(r, x) {
      if On(sys, x) && x !in sys.main {
        var z :| z in sys.waiters && x in sys.waiters[z];
        assert z in r.waiters && x in r.waiters[z];
      }
    }
  }

  lemma ParkInv(sys: System, s: int, x: int)
    requires Inv(sys) && s in sys.sem && x in sys.main && x != sys.current && x != sys.kernel && x in sys.tasks && Calm(sys.tasks[x])
    ensures Inv(Park(sys, s, x)) && forall y :: On(sys, y) <==> On(Park(sys, s, x), y)
  {
    hide Drop, NoDup;
    InvParts(sys);
    NoDupOf(sys);
    DropMembers(sys.main, x);
    ParkOn(sys, s, x);
    ParkExclusive(sys, s, x);
    ParkPlaced(sys, s, x);
    hide Exclusive, On, Placed;
  }

  lemma NoDupOf(sys: System)
    requires Exclusive(sys.main, sys.waiters)
    ensures NoDup(sys.main)
  {
  }

  lemma ParkPlaced(sys: System, s: int, x: int)
    requires Placed(sys) && NoDup(sys.main) && s in sys.waiters && x in sys.main && x in sys.tasks && Calm(sys.tasks[x])
    requires forall y :: On(sys, y) <==> On(Park(sys, s, x), y)
    ensures Placed(Park(sys, s, x))
  {
    hide Park, On, NoDup;
    ParkMembers(sys, s, x);
    var r := Park(sys, s, x);
    forall z, y | z in r.waiters && y in r.waiters[z] ensures y in r.tasks && (r.tasks[y].status == Idle || r.tasks[y].status == Running) {
      if y != x { assert z in sys.waiters && y in sys.waiters[z]; }
    }
    hide Calm;
  }

  lemma ParkMembers(sys: System, s: int, x: int)
    requires NoDup(sys.main) && s in sys.waiters && x in sys.main
    ensures var r := Park(sys, s, x);
            && r.tasks == sys.tasks && (forall y :: y in r.main ==> y in sys.main)
            && forall z, y :: z in r.waiters && y in r.waiters[z] ==> y == x || (z in sys.waiters && y in sys.waiters[z])
  {
    DropMembers(sys.main, x);
    hide Drop, NoDup;
  }

  lemma ParkOn(sys: System, s: int, x: int)
    requires s in sys.waiters && x in sys.main && NoDup(sys.main)
    ensures forall y :: On(sys, y) <==> On(Park(sys, s, x), y)
  {
    var r := Park(sys, s, x);
    DropMembers(sys.main, x);
    hide Drop;
    assert s in r.waiters && x in r.waiters[s];
    forall y ensures On(sys, y) <==> On(r, y) {
      if On(sys, y) && y !in sys.main {
        var z :| z in sys.waiters && y in sys.waiters[z];
        assert z in r.waiters && y in r.waiters[z];
      }
      if On(r, y) && y !in r.main && y != x {
        var z :| z in r.waiters && y in r.waiters[z];
        assert z in sys.waiters && y in sys.waiters[z];
      }
    }
  }

  lemma ParkExclusive(sys: System, s: int, x: int)
    requires Exclusive(sys.main, sys.waiters) && s in sys.waiters && x in sys.main
    ensures Exclusive(Park(sys, s, x).main, Park(sys, s, x).waiters)
  {
    var r := Park(sys, s, x);
    DropMembers(sys.main, x);
    hide Drop;
    assert forall z, y :: z in r.waiters && y in r.waiters[z] && y != x ==> y in sys.waiters[z];
    assert forall z :: z in r.waiters && z != s ==> r.waiters[z] == sys.waiters[z];
  }

  lemma WaitInv(sys: System, s: int)
    requires Inv(sys) && Steady(sys) && s in sys.sem && (sys.current == sys.kernel ==> sys.sem[s].count > 0)
    ensures Inv(Wait(sys, s)) && Steady(Wait(sys, s))
  {
    if sys.sem[s].count > 0 {
      assert forall x :: On(sys, x) <==> On(Wait(sys, s), x);
    } else {
      hide Inv, Switch, Walked, Ticked, Park;
      var t := Ticked(sys, false, 0);
      SwitchInv(sys, false, 0);
      CurrentRuns(sys);
      TickedKeeps(sys, false, 0);
      WalkedParks(t);
      SwitchIs(sys);
      TickedSems(sys, false, 0);
      ParkInv(Switch(sys, false, 0), s, sys.current);
    }
  }

  lemma CurrentRuns(sys: System)
    requires Inv(sys) && Steady(sys)
    ensures sys.current in sys.tasks && (sys.current != sys.kernel ==> sys.tasks[sys.current].status == Running)
  {
  }

  lemma SwitchIs(sys: System)
    requires Inv(sys)
    ensures Inv(Ticked(sys, false, 0)) && Switch(sys, false, 0) == Walked(Ticked(sys, false, 0))
  {
    hide Walked, Ticked, Inv;
    TickedKeeps(sys, false, 0);
  }

  lemma TickedSems(sys: System, dying: bool, eax: int)
    requires Inv(sys)
    ensures sys.current in sys.tasks && Woke(Saved(sys, dying, eax), Ticked(sys, dying, eax), sys.order)
  {
    hide Inv, WakeAll, Woke;
    OrderKnown(sys);
    WakeAllExact(Saved(sys, dying, eax), sys.order);
  }
}
