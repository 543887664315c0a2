/** The end of a task: within two rounds of switchTask it is off the run queue and its record is released, the exit value kept until then. */
module Burials {
  import opened Scheduler
  import opened Tasking
  import opened TaskingRuns
  import opened Fairness
  import opened FairRuns
  import opened Fates

  /** The task has finished, or has left the marker of exit in its registers. */
  predicate Doomed(tasks: Tasks, x: int) {
    x in tasks && var t := tasks[x];
    t.status == Zombie || t.status == Finished || ((t.status == Running || t.status == Yield) && t.dying)
  }

  /** A task on its way out, with exit value v if it has called exit. */
  predicate Exits(t: Task, v: int) {
    match t.status
    case Finished => true
    case Zombie => t.exitcode == v
    case _ => (t.status == Running || t.status == Yield) && t.dying && t.eax == v
  }

  // ---------------------------------------------------------------- one walk

  /** How many more visits it takes at most to destroy x. */
  function VisitsLeft(tasks: Tasks, q: seq<int>, x: int, p: int): int {
    if x in tasks && (tasks[x].status == Zombie || tasks[x].status == Finished) then p + 1 else |q| + p + 1
  }

  /** x, at position p, is destroyed sooner than x at position p of q. */
  ghost predicate Sooner(tasks: Tasks, q: seq<int>, p: int, tasks': Tasks, q': seq<int>, p': int, x: int) {
    Sits(q', x, p') && Doomed(tasks', x) && VisitsLeft(tasks', q', x, p') < VisitsLeft(tasks, q, x, p)
  }

  lemma VisitBuries(kernel: int, tasks: Tasks, q: seq<int>, x: int, p: int)
    requires Known(tasks, q) && NoDup(q) && Sits(q, x, p) && Doomed(tasks, x) && x != kernel
    ensures var (tasks', q') := Visit(kernel, tasks, q);
            (p == 0 && x !in q' && x !in tasks') || Sooner(tasks, q, p, tasks', q', if p > 0 then p - 1 else |q'| - 1, x)
  {
    var (tasks', q') := Visit(kernel, tasks, q);
    if p > 0 {
      VisitOther(kernel, tasks, q, x, p);
    } else if x in q' {
      VisitMembers(kernel, tasks, q);
      assert q' == Rotate(q) && Sits(q', x, |q'| - 1);
    } else {
      VisitMembers(kernel, tasks, q);
    }
  }

  /** A walk destroys x or brings that closer. */
  lemma {:induction false} SweepBuries(kernel: int, tasks: Tasks, q: seq<int>, x: int, p: int)
    requires Known(tasks, q) && NoDup(q) && SomeLive(tasks, q) && Sits(q, x, p) && Doomed(tasks, x) && x != kernel
    ensures var c := Sweep(kernel, tasks, q); Gone(c, x) || exists p' :: Sooner(tasks, q, p, c.tasks, c.queue, p', x)
    decreases Left(tasks, q)
  {
    hide NoDup, Outcome;
    var (tasks', q') := Visit(kernel, tasks, q);
    var p' := if p > 0 then p - 1 else |q'| - 1;
    VisitBuries(kernel, tasks, q, x, p);
    if IsIdle(tasks, q[0]) {
      assert q[p] == x;
    } else {
      VisitProgress(kernel, tasks, q);
      hide Visit, VisitsLeft, Live, Left, SomeLive, IsIdle, Doomed;
      if x in q' {
        SweepBuries(kernel, tasks', q', x, p');
        var c := Sweep(kernel, tasks', q');
        if !Gone(c, x) {
          var k :| Sooner(tasks', q', p', c.tasks, c.queue, k, x);
          assert Sooner(tasks, q, p, c.tasks, c.queue, k, x);
        }
      } else {
        SweepChooses(kernel, tasks', q');
        NotBack(kernel, tasks', q', Sweep(kernel, tasks', q'), x);
      }
    }
  }

  /** Nobody joins during a walk. */
  lemma NotBack(kernel: int, tasks: Tasks, q: seq<int>, c: Choice, x: int)
    requires Outcome(kernel, tasks, q, c) && x !in q && x !in tasks
    ensures Gone(c, x)
  {
  }

  /** The exit value goes from the saved registers into the record and stays there. */
  lemma SweepExits(kernel: int, tasks: Tasks, q: seq<int>, x: int, p: nat, v: int)
    requires Known(tasks, q) && NoDup(q) && SomeLive(tasks, q) && Sits(q, x, p) && x in tasks && Exits(tasks[x], v)
    ensures var c := Sweep(kernel, tasks, q); x in c.tasks ==> Exits(c.tasks[x], v)
  {
    SweepFates(kernel, tasks, q, p);
  }

  /** The walk goes round the list from the entry behind the current task, wherever that sits. */
  lemma TurnOrder(main: seq<int>, x: int, k: int, i: int)
    requires NoDup(main) && Sits(main, x, k) && 0 <= i < |main|
    ensures x in main && |Turn(main, x)| == |main|
    ensures Turn(main, x)[i] == main[if k + 1 + i < |main| then k + 1 + i else k + 1 + i - |main|]
  {
    PosOnce(main, k);
    hide NoDup;
  }

  /** The fate of every task on the run queue, in the order of the ring. */
  lemma WalkedFates(sys: System, p: nat)
    requires Inv(sys) && sys.current in sys.main && p < |Turn(sys.main, sys.current)|
    ensures var (q, r) := (Turn(sys.main, sys.current), Walked(sys));
            r.current in r.main && q[p] in sys.tasks && Fate(sys.kernel, sys.tasks, q, p, Choice(r.tasks, Turn(r.main, r.current), 1))
  {
    hide Inv, Walked, Sweep, Turn, Fate;
    NextTurn(sys);
    var q := Turn(sys.main, sys.current);
    SweepFates(sys.kernel, sys.tasks, q, p);
    SameFate(sys.kernel, sys.tasks, q, p, Sweep(sys.kernel, sys.tasks, q), 1);
  }

  /** A task that yields runs afterwards exactly when it is chosen again; otherwise it is idle, or still marked as having yielded. */
  lemma YieldGivesUp(sys: System)
    requires Inv(sys) && sys.current in sys.tasks && Inv(Yielded(sys))
    ensures var (x, r) := (sys.current, Switch(Yielded(sys), false, 0));
            && x in r.main && x in r.tasks && (r.tasks[x].status == Running <==> r.current == x)
            && (r.current != x ==> r.tasks[x].status == Idle || r.tasks[x].status == Yield)
  {
    var y := Yielded(sys);
    var t := Ticked(y, false, 0);
    hide Inv, Walked, Ticked, Turn, Sweep;
    TickedKeeps(y, false, 0);
    SwitchInv(y, false, 0);
    CurrentQueued(t);
    TurnFacts(t.main, t.current);
    var p := |Turn(t.main, t.current)| - 1;
    WalkedFates(t, p);
    var r := Walked(t);
    CurrentQueued(r);
    TurnFacts(r.main, r.current);
    hide Switch;
    SwitchWalks(y);
  }

  lemma SwitchWalks(y: System)
    requires Inv(y)
    ensures Inv(Ticked(y, false, 0)) && Switch(y, false, 0) == Walked(Ticked(y, false, 0))
  {
    hide Inv, Walked, Ticked;
    TickedKeeps(y, false, 0);
  }

  // ---------------------------------------------------------------- one call of switchTask

  /** x is queued and on its way out with exit value v. */
  ghost predicate Leaving(sys: System, x: int, v: int) {
    x in sys.main && x in sys.tasks && x != sys.kernel && x != sys.current && Exits(sys.tasks[x], v)
  }

  ghost predicate Released(sys: System, x: int) {
    x !in sys.main && x !in sys.tasks
  }

  /** At most so many calls of switchTask until x is destroyed. */
  ghost function CallsLeft(sys: System, x: int): int
    requires sys.current in sys.main && x in sys.main
  {
    TurnHas(sys.main, sys.current, x);
    var q := Turn(sys.main, sys.current);
    VisitsLeft(sys.tasks, q, x, Pos(q, x))
  }

  lemma CallsBound(sys: System, x: int)
    requires Inv(sys) && sys.current in sys.main && x in sys.main
    ensures 0 < CallsLeft(sys, x) <= 2 * |sys.main|
  {
    CurrentQueued(sys);
    TurnFacts(sys.main, sys.current);
    TurnHas(sys.main, sys.current, x);
  }

  /** The kernel task is there to be chosen at every call. */
  lemma KernelStays(sys: System, call: Call)
    requires Undisturbed(sys, call)
    ensures Stays(sys, call, sys.kernel)
  {
    CurrentQueued(sys);
  }

  lemma CallBuries(sys: System, call: Call, x: int, v: int)
    requires Undisturbed(sys, call) && sys.current in sys.tasks && sys.current in sys.main && x in sys.main && x != sys.kernel
    requires x in At(sys, call).tasks && Exits(At(sys, call).tasks[x], v)
    ensures x in At(sys, call).queue
    ensures var (m, r) := (At(sys, call), Switch(Entered(sys, call), call.dying, call.eax));
            Released(r, x) || (Leaving(r, x, v) && r.current in r.main && CallsLeft(r, x) < VisitsLeft(m.tasks, m.queue, x, Pos(m.queue, x)))
    ensures Switch(Entered(sys, call), call.dying, call.eax).kernel == sys.kernel
  {
    var (m, r) := (At(sys, call), Switch(Entered(sys, call), call.dying, call.eax));
    TurnHas(sys.main, sys.current, x);
    KernelStays(sys, call);
    hide Inv, Steady, Switch, Entered, Undisturbed, Stays, At, Sweep, Turn, Pos, VisitsLeft, NoDup, Known, SomeLive;
    CallIs(sys, call, sys.kernel);
    AtQueue(sys, call);
    PosSits(m.queue, x);
    var p := Pos(m.queue, x);
    SweepBuries(sys.kernel, m.tasks, m.queue, x, p);
    SweepExits(sys.kernel, m.tasks, m.queue, x, p, v);
    SwitchKeeps(sys, call);
    var c := Sweep(sys.kernel, m.tasks, m.queue);
    TurnFacts(r.main, r.current);
    if !Gone(c, x) {
      var k :| Sooner(m.tasks, m.queue, p, c.tasks, c.queue, k, x);
      PlaceOnce(c.queue, x, k);
      NotChosen(sys.kernel, m.tasks, m.queue, x, v);
    }
  }

  /** A task on its way out is not the one chosen. */
  lemma NotChosen(kernel: int, tasks: Tasks, q: seq<int>, x: int, v: int)
    requires Known(tasks, q) && NoDup(q) && SomeLive(tasks, q) && x in tasks && Exits(tasks[x], v)
    ensures var c := Sweep(kernel, tasks, q); c.queue != [] && Chosen(c) != x
  {
    hide Sweep;
    SweepChooses(kernel, tasks, q);
  }

  /** A task that is not the current one goes into the walk as it is. */
  lemma EntersSame(sys: System, call: Call, x: int)
    requires sys.current in sys.tasks && sys.current in sys.main && x in sys.main && x in sys.tasks && x != sys.current
    ensures x in At(sys, call).queue && x in At(sys, call).tasks && At(sys, call).tasks[x] == sys.tasks[x]
    ensures VisitsLeft(At(sys, call).tasks, At(sys, call).queue, x, Pos(At(sys, call).queue, x)) == CallsLeft(sys, x)
  {
    TurnHas(sys.main, sys.current, x);
  }

  lemma SwitchBuries(sys: System, call: Call, x: int, v: int)
    requires Inv(sys) && Steady(sys) && (call.dying ==> sys.current != sys.kernel) && Woken(sys, sys.order) == []
    requires sys.current in sys.main && Leaving(sys, x, v) && Inv(Entered(sys, call))
    ensures var r := Switch(Entered(sys, call), call.dying, call.eax);
            Released(r, x) || (Leaving(r, x, v) && r.current in r.main && CallsLeft(r, x) < CallsLeft(sys, x))
  {
    CurrentQueued(sys);
    hide Inv, Steady, Switch, Entered, Woken, Undisturbed, At, Pos, VisitsLeft, CallsLeft;
    Enters(sys, call);
    EntersSame(sys, call, x);
    CallBuries(sys, call, x, v);
  }

  /** A task that leaves the queue delays nobody. */
  lemma ParkBuries(sys: System, s: int, y: int, x: int, v: int)
    requires Inv(sys) && sys.current in sys.main && y in sys.main && y != sys.current && x != y && Leaving(sys, x, v)
    ensures var r := Park(sys, s, y); Leaving(r, x, v) && r.current in r.main && CallsLeft(r, x) <= CallsLeft(sys, x)
  {
    CurrentQueued(sys);
    PlaceDrop(sys.main, sys.current, y, x);
    hide Inv, Turn, Pos, Drop, NoDup, Exits;
  }

  lemma ParkReleases(sys: System, s: int, y: int, x: int)
    requires NoDup(sys.main) && Released(sys, x)
    ensures Released(Park(sys, s, y), x)
  {
    DropMembers(sys.main, y);
  }

  lemma WaitBuries(sys: System, s: int, x: int, v: int)
    requires Inv(sys) && Steady(sys) && s in sys.sem && sys.sem[s].count <= 0 && sys.current != sys.kernel
    requires Woken(sys, sys.order) == [] && Leaving(sys, x, v) && sys.current in sys.main
    ensures var r := Tasking.Wait(sys, s);
            Released(r, x) || (Leaving(r, x, v) && r.current in r.main && CallsLeft(r, x) < CallsLeft(sys, x))
  {
    var call := Call(false, false, 0);
    hide Inv, Steady, Switch, Woken, Undisturbed, Park, CallsLeft;
    CurrentQueued(sys);
    Enters(sys, call);
    SwitchBuries(sys, call, x, v);
    Waits(sys);
    var r := Switch(sys, false, 0);
    CurrentQueued(r);
    if Released(r, x) {
      ParkReleases(r, s, sys.current, x);
    } else {
      ParkBuries(r, s, sys.current, x, v);
    }
  }

  // ---------------------------------------------------------------- steps

  lemma StepBuries(st: State, step: Step, x: int, v: int)
    requires Sound(st) && Legal(st, step) && NoneJoins(st.sys, step) && CallsSwitch(st.sys, step)
    requires st.sys.current in st.sys.main && Leaving(st.sys, x, v)
    ensures var r := After(st, step).sys;
            Released(r, x) || (Leaving(r, x, v) && r.current in r.main && CallsLeft(r, x) < CallsLeft(st.sys, x))
  {
    var sys := st.sys;
    hide Inv, Steady, Switch, Woken, Conserved, HeldAfterWake, Yielded, CallsLeft;
    CurrentQueued(sys);
    match step
    case Tick(dying, eax) => SwitchBuries(sys, Call(false, dying, eax), x, v);
    case GiveUp =>
      YieldKeeps(sys);
      SwitchBuries(sys, Call(true, false, 0), x, v);
    case SemWait(s) => WaitBuries(sys, s, x, v);
  }

  /** Every other step leaves run queue and current task alone, and x as it is. */
  lemma OtherLeaves(st: State, step: Step, x: int, v: int)
    requires Sound(st) && Legal(st, step) && NoneJoins(st.sys, step) && !CallsSwitch(st.sys, step) && st.sys.current in st.sys.main && Leaving(st.sys, x, v)
    ensures var r := After(st, step).sys; Leaving(r, x, v) && r.current in r.main && CallsLeft(r, x) == CallsLeft(st.sys, x)
  {
    hide Inv, Steady, Conserved, Turn, Pos;
    SameQueue(st, step, x);
    KernelSame(st, step);
  }

  lemma KernelSame(st: State, step: Step)
    requires Sound(st) && Legal(st, step) && !CallsSwitch(st.sys, step)
    ensures After(st, step).sys.kernel == st.sys.kernel
  {
    hide Inv, Steady, Conserved, Switch, HeldAfterWake, Drop, Freeable;
  }

  // ---------------------------------------------------------------- runs

  /** Over the run nothing joins the run queue. */
  ghost predicate Closed(st: State, steps: seq<Step>)
    requires Sound(st) && LegalRun(st, steps)
    decreases |steps|
  {
    steps == [] || (NoneJoins(st.sys, steps[0]) && (AfterSound(st, steps[0]); Closed(After(st, steps[0]), steps[1..])))
  }

  /** At some step of the run x is off the run queue and its record is released; until then it is on its way out with exit value v. */
  ghost predicate Buried(st: State, steps: seq<Step>, x: int, v: int)
    requires Sound(st) && LegalRun(st, steps)
    decreases |steps|
  {
    Released(st.sys, x) ||
    (Leaving(st.sys, x, v) && steps != [] && (AfterSound(st, steps[0]); Buried(After(st, steps[0]), steps[1..], x, v)))
  }

  lemma {:induction false} NotBuriedYet(st: State, steps: seq<Step>, x: int, v: int)
    requires Sound(st) && LegalRun(st, steps) && Closed(st, steps) && st.sys.current in st.sys.main && Leaving(st.sys, x, v)
    requires !Buried(st, steps, x, v)
    ensures SwitchCount(st, steps) < CallsLeft(st.sys, x)
    decreases |steps|
  {
    hide Sound, Legal, After, NoneJoins, Leaving, CallsLeft, CallsSwitch;
    if steps == [] {
      SoundLeft(st, x, v);
    } else {
      AfterSound(st, steps[0]);
      if CallsSwitch(st.sys, steps[0]) {
        StepBuries(st, steps[0], x, v);
      } else {
        OtherLeaves(st, steps[0], x, v);
      }
      NotBuriedYet(After(st, steps[0]), steps[1..], x, v);
    }
  }

  lemma SoundLeft(st: State, x: int, v: int)
    requires Sound(st) && Leaving(st.sys, x, v)
    ensures st.sys.current in st.sys.main && x in st.sys.main && 0 < CallsLeft(st.sys, x) <= 2 * |st.sys.main|
  {
    hide Inv, CallsLeft;
    CurrentQueued(st.sys);
    CallsBound(st.sys, x);
  }

  /**
   If nothing joins the run queue of n tasks, a task on its way out is destroyed within 2n calls of switchTask,
   its exit value in its record until then.
   */
  lemma RunBuries(st: State, steps: seq<Step>, x: int, v: int)
    requires Sound(st) && LegalRun(st, steps) && Closed(st, steps) && Leaving(st.sys, x, v)
    requires SwitchCount(st, steps) >= 2 * |st.sys.main|
    ensures Buried(st, steps, x, v)
  {
    hide Sound, LegalRun, Closed, SwitchCount, Buried, CallsLeft;
    SoundLeft(st, x, v);
    if !Buried(st, steps, x, v) {
      NotBuriedYet(st, steps, x, v);
    }
  }

  /** The current task calls exit: the clock finds the marker and the exit value in its registers. */
  lemma ExitStarts(st: State, v: int)
    requires Sound(st) && Legal(st, Tick(true, v)) && NoneJoins(st.sys, Tick(true, v))
    ensures var (x, r) := (st.sys.current, After(st, Tick(true, v)).sys); Released(r, x) || Leaving(r, x, v)
    ensures |After(st, Tick(true, v)).sys.main| <= |st.sys.main|
  {
    var sys, call := st.sys, Call(false, true, v);
    CurrentQueued(sys);
    CurrentExits(sys, v);
    hide Inv, Steady, Switch, Woken, Conserved, HeldAfterWake, Undisturbed, At, VisitsLeft, CallsLeft, Pos;
    Enters(sys, call);
    CallBuries(sys, call, sys.current, v);
    KernelStays(sys, call);
    CallIs(sys, call, sys.kernel);
    Shorter(sys, call);
  }

  lemma CurrentExits(sys: System, v: int)
    requires Steady(sys) && sys.current in sys.main && sys.current in sys.tasks && sys.current != sys.kernel
    ensures var m := At(sys, Call(false, true, v)); sys.current in m.tasks && Exits(m.tasks[sys.current], v)
  {
  }

  /** The run queue does not get longer. */
  lemma Shorter(sys: System, call: Call)
    requires Undisturbed(sys, call)
    ensures |Switch(Entered(sys, call), call.dying, call.eax).main| <= |sys.main|
  {
    var e := Entered(sys, call);
    var t := Ticked(e, call.dying, call.eax);
    EnteredSame(sys, call);
    hide Inv, Steady, Walked, Ticked, Entered, Keep, Sweep, Turn;
    TickedKeeps(e, call.dying, call.eax);
    TickedQuiet(e, call);
    WalkedIs(t);
    KeepShorter(t.main, Sweep(t.kernel, t.tasks, Turn(t.main, t.current)).queue);
  }

  lemma KeepShorter(q: seq<int>, s: seq<int>)
    ensures |Keep(q, s)| <= |q|
  {
  }

  /** A task that calls exit is off the run queue, and its record released, within 2n more calls of switchTask. */
  lemma ExitEnds(st: State, v: int, steps: seq<Step>)
    requires Sound(st) && LegalRun(st, [Tick(true, v)] + steps) && Closed(st, [Tick(true, v)] + steps)
    requires SwitchCount(st, [Tick(true, v)] + steps) > 2 * |st.sys.main|
    ensures Sound(After(st, Tick(true, v))) && LegalRun(After(st, Tick(true, v)), steps)
    ensures Buried(After(st, Tick(true, v)), steps, st.sys.current, v)
  {
    var tick := Tick(true, v);
    var run := [tick] + steps;
    assert run[0] == tick && run[1..] == steps;
    hide Sound, Legal, After, NoneJoins, Leaving, Released;
    AfterSound(st, tick);
    ExitStarts(st, v);
    if Leaving(After(st, tick).sys, st.sys.current, v) {
      RunBuries(After(st, tick), steps, st.sys.current, v);
    }
  }
}
