/** Bounded fairness of the whole system: what Scheduler proves of the sweep, for consecutive calls of switchTask. */
module Fairness {
  import opened LinkedLists
  import opened Scheduler
  import opened Tasking
  import opened TaskingRuns
  import opened TaskSystem

  // ---------------------------------------------------------------- the queue from one call to the next

  ghost predicate Rotated(main: seq<int>, q: seq<int>) {
    exists k :: SeenFrom(main, k, q)
  }

  /** The walk leaves the queue a rotation of the list. */
  lemma {:induction false} SweepRotates(kernel: int, tasks: Tasks, main0: seq<int>, q: seq<int>)
    requires Known(tasks, q) && NoDup(q) && SomeLive(tasks, q) && NoDup(main0) && Rotated(Keep(main0, q), q)
    ensures var c := Sweep(kernel, tasks, q); Rotated(Keep(main0, c.queue), c.queue)
    decreases Left(tasks, q)
  {
    var k :| SeenFrom(Keep(main0, q), k, q);
    VisitRotates(kernel, tasks, main0, q, k);
    hide Keep, NoDup, Known, Rotated, Visit;
    if !IsIdle(tasks, q[0]) {
      VisitProgress(kernel, tasks, q);
      var (tasks', q') := Visit(kernel, tasks, q);
      SweepRotates(kernel, tasks', main0, q');
    }
  }

  lemma VisitRotates(kernel: int, tasks: Tasks, main0: seq<int>, q: seq<int>, k: int)
    requires Known(tasks, q) && NoDup(q) && SomeLive(tasks, q) && NoDup(main0) && SeenFrom(Keep(main0, q), k, q)
    ensures q != [] && q[0] in tasks && (IsIdle(tasks, q[0]) || |q| > 1 || !Destroyed(kernel, q[0], tasks[q[0]]))
    ensures Rotated(Keep(main0, Visit(kernel, tasks, q).1), Visit(kernel, tasks, q).1)
  {
    var main := Keep(main0, q);
    hide Keep, NoDup, SeenFrom, Rotate, RemoveAt, Rotated;
    VisitKeep(main0, kernel, tasks, q, k);
    SeenNext(main, k, q);
    SeenSize(main, k, q);
    SomeOther(kernel, tasks, q);
    if Destroyed(kernel, q[0], tasks[q[0]]) {
      SeenCut(main, k, q);
      Rotates(RemoveAt(main, k), if k + 1 < |main| then k else 0, q[1..]);
    } else {
      Rotates(main, if k + 1 < |main| then k + 1 else 0, Rotate(q));
    }
  }

  lemma Rotates(main: seq<int>, k: int, q: seq<int>)
    requires SeenFrom(main, k, q)
    ensures Rotated(main, q)
  {
  }

  lemma SeenSize(main: seq<int>, k: int, q: seq<int>)
    requires SeenFrom(main, k, q)
    ensures |q| == |main| && 0 <= k < |main|
  {
  }

  /** A task that is destroyed is not the live one. */
  lemma SomeOther(kernel: int, tasks: Tasks, q: seq<int>)
    requires Known(tasks, q) && SomeLive(tasks, q)
    ensures q != [] && q[0] in tasks && (Destroyed(kernel, q[0], tasks[q[0]]) ==> |q| > 1)
  {
    var x :| x in q && Live(tasks, x);
    if Destroyed(kernel, q[0], tasks[q[0]]) { assert x != q[0]; }
  }

  /** A rotation that ends with x is the ring as the walk from x sees it. */
  lemma TurnIs(main: seq<int>, q: seq<int>)
    requires NoDup(main) && Rotated(main, q)
    ensures q != [] && q[|q| - 1] in main && Turn(main, q[|q| - 1]) == q
  {
    var k :| SeenFrom(main, k, q);
    var p := if k == 0 then |main| - 1 else k - 1;
    LastSeen(main, k, q);
    hide NoDup, Rotated, SeenFrom;
    PosOnce(main, p);
    hide Pos;
  }

  lemma PosOnce(q: seq<int>, p: nat)
    requires NoDup(q) && p < |q|
    ensures Pos(q, q[p]) == p
  {
    hide Pos;
  }

  lemma LastSeen(main: seq<int>, k: int, q: seq<int>)
    requires SeenFrom(main, k, q)
    ensures var p := if k == 0 then |main| - 1 else k - 1;
            q != [] && 0 <= p && q[|q| - 1] == main[p] && q == main[p + 1..] + main[..p + 1]
  {
    if k == 0 { assert main[|main|..] + main[..|main|] == main && main[0..] + main[..0] == main; }
  }

  /** After switchTask the next walk starts where this one ended. */
  lemma NextTurn(sys: System)
    requires Inv(sys)
    ensures sys.current in sys.main && Walked(sys).current in Walked(sys).main
    ensures var q := Turn(sys.main, sys.current);
            && Known(sys.tasks, q) && NoDup(q) && SomeLive(sys.tasks, q)
            && Turn(Walked(sys).main, Walked(sys).current) == Sweep(sys.kernel, sys.tasks, q).queue
            && Sweep(sys.kernel, sys.tasks, q).queue != [] && Chosen(Sweep(sys.kernel, sys.tasks, q)) == Walked(sys).current
            && Walked(sys).tasks == Sweep(sys.kernel, sys.tasks, q).tasks
  {
    WalkedIs(sys);
    WalkRotates(sys);
    hide Inv, Walked, Sweep, Turn, Keep, Rotated, Known, SomeLive;
    TurnIs(Walked(sys).main, Sweep(sys.kernel, sys.tasks, Turn(sys.main, sys.current)).queue);
  }

  lemma WalkedIs(sys: System)
    requires Inv(sys)
    ensures sys.current in sys.main
    ensures var q := Turn(sys.main, sys.current);
            && Known(sys.tasks, q) && NoDup(q) && SomeLive(sys.tasks, q)
            && var c := Sweep(sys.kernel, sys.tasks, q);
               c.queue != [] && Walked(sys) == sys.(tasks := c.tasks, main := Keep(sys.main, c.queue), current := Chosen(c))
  {
    hide Inv, Sweep, Turn, Keep;
    WalkReady(sys);
    SweepChooses(sys.kernel, sys.tasks, Turn(sys.main, sys.current));
  }

  lemma WalkRotates(sys: System)
    requires Inv(sys)
    ensures sys.current in sys.main && NoDup(Walked(sys).main)
    ensures var q := Turn(sys.main, sys.current);
            Known(sys.tasks, q) && NoDup(q) && SomeLive(sys.tasks, q) && Rotated(Walked(sys).main, Sweep(sys.kernel, sys.tasks, q).queue)
  {
    InvParts(sys);
    WalkedIs(sys);
    WalkedMembers(sys);
    hide Inv, Walked, Placed, SemsOk, Manned;
    var q := Turn(sys.main, sys.current);
    TurnFacts(sys.main, sys.current);
    TurnRotates(sys.main, sys.current);
    KeepAll(sys.main, q);
    hide Turn, Keep, Sweep, Rotated, NoDup, Known, SomeLive, Exclusive;
    NoDupMain(sys);
    SweepRotates(sys.kernel, sys.tasks, sys.main, q);
  }

  lemma NoDupMain(sys: System)
    requires Inv(sys)
    ensures NoDup(sys.main)
  {
  }

  lemma TurnRotates(main: seq<int>, x: int)
    requires x in main
    ensures Rotated(main, Turn(main, x))
  {
    var k := if Pos(main, x) + 1 < |main| then Pos(main, x) + 1 else 0;
    assert Turn(main, x) == main[k..] + main[..k];
    assert SeenFrom(main, k, Turn(main, x));
  }

  // ---------------------------------------------------------------- consecutive calls

  /** How switchTask is entered: by the clock or by yield, with what the current task's registers hold. */
  datatype Call = Call(yielding: bool, dying: bool, eax: int)

  function Entered(sys: System, call: Call): System
    requires sys.current in sys.tasks
  {
    if call.yielding then Yielded(sys) else sys
  }

  /** One call in which no task is woken. */
  ghost predicate Undisturbed(sys: System, call: Call) {
    && Inv(sys) && Steady(sys) && sys.current in sys.tasks && Inv(Entered(sys, call)) && (call.dying ==> sys.current != sys.kernel)
    && Woken(Saved(Entered(sys, call), call.dying, call.eax), sys.order) == []
  }

  function At(sys: System, call: Call): Moment
    requires sys.current in sys.tasks && sys.current in sys.main
  {
    Moment(Saved(Entered(sys, call), call.dying, call.eax).tasks, Turn(sys.main, sys.current))
  }

  /** x is queued and live at every call. */
  ghost predicate Stays(sys: System, call: Call, x: int) {
    sys.current in sys.tasks && sys.current in sys.main && x in sys.main && Live(At(sys, call).tasks, x)
  }

  /** Consecutive calls of switchTask, nothing joining the run queue. */
  ghost predicate SwitchRun(ss: seq<System>, calls: seq<Call>) {
    && |ss| == |calls| && (forall i :: 0 <= i < |ss| ==> Undisturbed(ss[i], calls[i]))
    && (forall i, j :: 0 <= i && j == i + 1 && j < |ss| ==> ss[j] == Switch(Entered(ss[i], calls[i]), calls[i].dying, calls[i].eax))
  }

  /** What an undisturbed call comes to: the sweep from the current moment. */
  lemma CallIs(sys: System, call: Call, x: int)
    requires Undisturbed(sys, call) && Stays(sys, call, x)
    ensures var (m, r) := (At(sys, call), Switch(Entered(sys, call), call.dying, call.eax));
            && Ready(m, x) && Known(m.tasks, m.queue) && NoDup(m.queue) && SomeLive(m.tasks, m.queue)
            && var c := Sweep(sys.kernel, m.tasks, m.queue);
               c.queue != [] && Chosen(c) == r.current && c.tasks == r.tasks && r.current in r.main && Turn(r.main, r.current) == c.queue
    ensures Switch(Entered(sys, call), call.dying, call.eax).kernel == sys.kernel
  {
    var e := Entered(sys, call);
    var t := Ticked(e, call.dying, call.eax);
    EnteredSame(sys, call);
    hide Inv, Steady, Walked, Ticked, Saved, Yielded, Entered;
    TickedKeeps(e, call.dying, call.eax);
    TickedQuiet(e, call);
    NextTurn(t);
    SwitchInv(e, call.dying, call.eax);
    TurnHas(sys.main, sys.current, x);
  }

  lemma EnteredSame(sys: System, call: Call)
    requires sys.current in sys.tasks
    ensures var e := Entered(sys, call); e.main == sys.main && e.current == sys.current && e.kernel == sys.kernel && e.order == sys.order && e.current in e.tasks
  {
  }

  lemma TurnHas(main: seq<int>, current: int, x: int)
    requires current in main && x in main
    ensures x in Turn(main, current)
  {
    var k := Pos(main, current) + 1;
    assert main == main[..k] + main[k..];
  }

  lemma TickedQuiet(e: System, call: Call)
    requires Inv(e) && e.current in e.tasks && Woken(Saved(e, call.dying, call.eax), e.order) == []
    ensures Ticked(e, call.dying, call.eax).main == e.main
  {
    hide Inv, WakeAll, Woken;
    TickedSems(e, call.dying, call.eax);
    assert e.main + [] == e.main;
  }

  /** From one call to the next. */
  lemma CallFollows(sys: System, call: Call, next: System, call': Call, x: int)
    requires Undisturbed(sys, call) && Stays(sys, call, x) && Undisturbed(next, call') && Stays(next, call', x)
    requires next == Switch(Entered(sys, call), call.dying, call.eax)
    ensures Follows(sys.kernel, At(sys, call), At(next, call'), x)
  {
    CallIs(sys, call, x);
    CallIs(next, call', x);
    NextRuns(sys, call, next);
    IdleSame(next, call', x);
    var m, m' := At(sys, call), At(next, call');
    var c := Sweep(sys.kernel, m.tasks, m.queue);
    hide Inv, Steady, Switch, Sweep, Turn, Undisturbed, Stays, Known, SomeLive, At;
    assert m'.queue == c.queue by { AtQueue(next, call'); }
    assert forall p :: Sits(c.queue, x, p) ==> Sits(m'.queue, x, p) && p <= p;
  }

  lemma AtQueue(sys: System, call: Call)
    requires sys.current in sys.tasks && sys.current in sys.main
    ensures At(sys, call).queue == Turn(sys.main, sys.current)
  {
  }

  lemma NextRuns(sys: System, call: Call, next: System)
    requires Undisturbed(sys, call) && next == Switch(Entered(sys, call), call.dying, call.eax)
    ensures next.current in next.tasks && next.tasks[next.current].status == Running
  {
    EnteredSame(sys, call);
    hide Inv, Switch, Entered;
    SwitchInv(Entered(sys, call), call.dying, call.eax);
  }

  /** Entering switchTask makes no task idle and none busy. */
  lemma IdleSame(sys: System, call: Call, x: int)
    requires sys.current in sys.tasks && sys.current in sys.main && sys.tasks[sys.current].status == Running
    ensures IsIdle(At(sys, call).tasks, x) <==> IsIdle(sys.tasks, x)
  {
  }

  /**
   Bounded fairness: if nothing joins the run queue of n tasks, every live task that stays on it gets
   the processor within 2n calls of switchTask, from the clock or from yield.
   */
  lemma SystemFair(ss: seq<System>, calls: seq<Call>, x: int)
    requires ss != [] && SwitchRun(ss, calls) && |ss| >= 2 * |ss[0].main|
    requires forall i :: 0 <= i < |ss| ==> Stays(ss[i], calls[i], x)
    ensures exists i :: 0 <= i < |ss| && Undisturbed(ss[i], calls[i]) && Switch(Entered(ss[i], calls[i]), calls[i].dying, calls[i].eax).current == x
  {
    var ms := seq(|ss|, i requires 0 <= i < |ss| => At(ss[i], calls[i]));
    var kernel := ss[0].kernel;
    hide Inv, Steady, Switch, Entered, Turn, Undisturbed, Stays, At, Ready, Follows, Picks;
    KernelSame(ss, calls, x);
    forall i | 0 <= i < |ss| ensures Ready(ms[i], x) { CallIs(ss[i], calls[i], x); }
    forall i, j | 0 <= i && j == i + 1 && j < |ss| ensures Follows(kernel, ms[i], ms[j], x) {
      CallFollows(ss[i], calls[i], ss[j], calls[j], x);
    }
    QueueSize(ss[0], calls[0], x);
    Fair(kernel, ms, x);
    var i :| 0 <= i < |ms| && Picks(kernel, ms[i], x);
    PickedIs(ss[i], calls[i], x);
  }

  lemma PickedIs(sys: System, call: Call, x: int)
    requires Undisturbed(sys, call) && Stays(sys, call, x) && Picks(sys.kernel, At(sys, call), x)
    ensures Switch(Entered(sys, call), call.dying, call.eax).current == x
  {
    hide Inv, Steady, Switch, Entered, Turn, Sweep;
    CallIs(sys, call, x);
  }

  lemma QueueSize(sys: System, call: Call, x: int)
    requires Undisturbed(sys, call) && Stays(sys, call, x)
    ensures |At(sys, call).queue| == |sys.main|
  {
    InvParts(sys);
    TurnFacts(sys.main, sys.current);
  }

  lemma {:induction false} KernelSame(ss: seq<System>, calls: seq<Call>, x: int)
    requires ss != [] && SwitchRun(ss, calls) && forall i :: 0 <= i < |ss| ==> Stays(ss[i], calls[i], x)
    ensures forall i :: 0 <= i < |ss| ==> ss[i].kernel == ss[0].kernel
  {
    hide SwitchRun, Stays;
    var i := 0;
    while i + 1 < |ss|
      invariant 0 <= i < |ss| && forall j :: 0 <= j <= i ==> ss[j].kernel == ss[0].kernel
    {
      KernelNext(ss, calls, x, i);
      i := i + 1;
    }
  }

  lemma KernelNext(ss: seq<System>, calls: seq<Call>, x: int, i: int)
    requires SwitchRun(ss, calls) && 0 <= i && i + 1 < |ss| && Stays(ss[i], calls[i], x)
    ensures ss[i + 1].kernel == ss[i].kernel
  {
    var j := i + 1;
    assert Undisturbed(ss[i], calls[i]);
    assert ss[j] == Switch(Entered(ss[i], calls[i]), calls[i].dying, calls[i].eax);
    hide Undisturbed, Stays, Switch, Entered, SwitchRun;
    CallIs(ss[i], calls[i], x);
  }
}
