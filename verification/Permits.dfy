/** What holds of semaphores and task identifiers even when tasks signal what they do not hold. */
module Permits {
  import opened Machine
  import opened Scheduler
  import opened Tasking
  import opened TaskingRuns
  import opened Semaphores
  import opened TaskCalls
  import opened Mutexes

  // ---------------------------------------------------------------- one signal

  /** A count between 0 and the initial value; one that starts above INT_MAX is negative, and stays as it is. */
  predicate Bounded(m: Sem) {
    0 <= m.initial < 0x1_0000_0000 && if m.initial < 0x8000_0000 then 0 <= m.count <= m.initial else m.count == m.initial - 0x1_0000_0000
  }

  /** All permits are there. */
  predicate Full(m: Sem) {
    m.count == if m.initial < 0x8000_0000 then m.initial else m.initial - 0x1_0000_0000
  }

  /** A signal to a semaphore none of whose permits is out changes nothing; any other signal adds one permit. */
  lemma SignalStops(sys: System, s: int)
    requires s in sys.sem && Bounded(sys.sem[s])
    ensures Signal(sys, s) == sys <==> Full(sys.sem[s])
    ensures !Full(sys.sem[s]) ==> Signal(sys, s) == sys.(sem := sys.sem[s := sys.sem[s].(count := sys.sem[s].count + 1)])
  {
    var m := sys.sem[s];
    if Full(m) {
      assert sys.sem[s := m] == sys.sem;
    } else {
      assert Signal(sys, s).sem[s].count == m.count + 1;
    }
  }

  /** A new semaphore has all its permits, and nobody waits. */
  lemma InitFull(sys: System, s: int, initial: int)
    requires 0 <= initial < TWO32
    ensures var r := InitSem(sys, s, initial);
            s in r.sem && s in r.waiters && r.sem[s].initial == initial && Full(r.sem[s]) && Bounded(r.sem[s]) && r.waiters[s] == []
  {
  }

  /** FREE is granted exactly when all permits are there and nobody waits. */
  lemma FreeWhenFull(sys: System, s: int)
    requires s in sys.sem && s in sys.waiters && Bounded(sys.sem[s])
    ensures Freeable(sys, s) <==> Full(sys.sem[s]) && sys.waiters[s] == []
  {
  }

  /** The waiters of a semaphore without permits stay where they are. */
  lemma KeepsWaiters(sys: System, s: int)
    requires Inv(sys) && s in sys.sem && s in sys.waiters && sys.sem[s].count <= 0
    ensures var r := Switch(sys, false, 0); s in r.sem && s in r.waiters && r.sem[s] == sys.sem[s] && r.waiters[s] == sys.waiters[s]
  {
    hide Inv, Switch, Walked, Ticked;
    SwitchInv(sys, false, 0);
    TickedSems(sys, false, 0);
    assert WokeAt(Saved(sys, false, 0), Ticked(sys, false, 0), sys.order, s);
  }

  /**
   SEMAPHORE_WAIT: with a permit there, it is taken, and the caller goes on; without one, the caller is off the
   run queue and first among those that wait, and another task is current.
   */
  lemma WaitExactly(sys: System, s: int)
    requires Inv(sys) && Steady(sys) && s in sys.sem && s in sys.waiters && (sys.current == sys.kernel ==> sys.sem[s].count > 0)
    ensures var (r, x) := (Tasking.Wait(sys, s), sys.current);
            if sys.sem[s].count > 0 then r == sys.(sem := sys.sem[s := sys.sem[s].(count := sys.sem[s].count - 1)])
            else
              && s in r.waiters && s in r.sem && r.waiters[s] == [x] + sys.waiters[s] && r.sem[s] == sys.sem[s]
              && x in sys.main && x !in r.main && r.current != x && r.current in r.main
              && r.current in r.tasks && r.tasks[r.current].status == Running
              && x in r.tasks && (r.tasks[x].status == Idle || r.tasks[x].status == Running) && !r.tasks[x].dying
  {
    if sys.sem[s].count <= 0 {
      hide Inv, Steady, Switch, Walked, Ticked, Park;
      var x, r := sys.current, Switch(sys, false, 0);
      CurrentRuns(sys);
      TickedKeeps(sys, false, 0);
      SavedRuns(sys);
      WalkedParks(Ticked(sys, false, 0));
      WalkedMembers(Ticked(sys, false, 0));
      SwitchInv(sys, false, 0);
      SwitchIs(sys);
      KeepsWaiters(sys, s);
      ParkExactly(r, s, x);
      MainsAgree(sys);
    }
  }

  lemma SavedRuns(sys: System)
    requires sys.current in sys.tasks && sys.tasks[sys.current].status == Running
    ensures var t := Saved(sys, false, 0); t.current in t.tasks && Calm(t.tasks[t.current]) && t.tasks[t.current].status == Running
  {
  }

  lemma ParkExactly(r: System, s: int, x: int)
    requires Inv(r) && s in r.waiters && x in r.main && x != r.current
    ensures var p := Park(r, s, x);
            && p == r.(main := p.main, waiters := r.waiters[s := [x] + r.waiters[s]])
            && x !in p.main && r.current in p.main && forall y :: y in r.main && y != x ==> y in p.main
  {
    InvParts(r);
    DropMembers(r.main, x);
    hide Drop, Placed, SemsOk;
  }

  lemma MainsAgree(sys: System)
    requires Inv(sys)
    ensures sys.current in sys.main
  {
  }

  /** SEMAPHORE_INIT and SEMAPHORE_FREE leave every other semaphore as it is, and the order of the list. */
  lemma OthersStay(sys: System, s: int, initial: int, z: int)
    requires Inv(sys) && z in sys.sem && z in sys.waiters && z != s
    ensures var r := InitSem(sys, s, initial); z in r.sem && z in r.waiters && r.sem[z] == sys.sem[z] && r.waiters[z] == sys.waiters[z]
    ensures var r := InitSem(sys, s, initial); r.order == sys.order + [s] && r.main == sys.main && r.tasks == sys.tasks && r.current == sys.current
    ensures s in sys.order ==>
              var r := FreeSem(sys, s);
              && z in r.sem && z in r.waiters && r.sem[z] == sys.sem[z] && r.waiters[z] == sys.waiters[z] && s !in r.sem && s !in r.waiters
              && z in r.order && s !in r.order && r.main == sys.main && r.tasks == sys.tasks && r.current == sys.current && r.nextSem == sys.nextSem
  {
    InvParts(sys);
    if s in sys.order { DropMembers(sys.order, s); }
    hide Exclusive, Placed, Manned;
  }

  /** semctl refuses, and changes nothing, exactly for these reasons; otherwise it answers with the id of the semaphore. */
  lemma RefusedExactly(sys: System, id: int, command: Command, node: int)
    requires Inv(sys) && IdsApart(sys) && forall s :: s in sys.sem ==> Bounded(sys.sem[s])
    ensures var (after, r) := Answer(sys, id, command, node);
            && (r == -1 <==> match command
                             case Init(hasArgs, initial) => !hasArgs
                             case Unknown => true
                             case Freeing => forall s :: s in sys.sem && s in sys.waiters && sys.sem[s].id == id ==> !Full(sys.sem[s]) || sys.waiters[s] != []
                             case _ => forall s :: s in sys.sem ==> sys.sem[s].id != id)
            && (if r == -1 then after == sys else if command.Init? then r == sys.nextSem else r == id)
  {
    hide Tasking.Wait, Signal, FreeSem, InitSem, Placed, Manned, Exclusive;
    SemKeys(sys);
    if s :| s in sys.sem && sys.sem[s].id == id {
      NamedIs(sys, s);
      FreeWhenFull(sys, s);
      assert forall z :: z in sys.sem && sys.sem[z].id == id ==> z == s;
    }
  }

  // ---------------------------------------------------------------- any task may signal

  /** A step by any task: unlike Legal, Callable asks nothing about who holds what. */
  ghost function Stepped(sys: System, step: Step): System
    requires Inv(sys) && Steady(sys) && Callable(sys, step)
  {
    if step.SemSignal? && step.s in sys.sem then Signal(sys, step.s) else AfterAsWritten(sys, step, 0)
  }

  /** Where only holders signal, these are the steps of TaskingRuns. */
  lemma SteppedIs(st: State, step: Step)
    requires Sound(st) && Legal(st, step)
    ensures Callable(st.sys, step) && Stepped(st.sys, step) == After(st, step).sys
  {
    hide Inv, Steady, Conserved, Switch, HeldAfterWake, Freeable;
  }

  lemma SteppedInv(sys: System, step: Step)
    requires Inv(sys) && Steady(sys) && Callable(sys, step)
    ensures Inv(Stepped(sys, step)) && Steady(Stepped(sys, step))
  {
    hide Inv, Steady, Callable, AfterAsWritten, Signal;
    AsWrittenInv(sys, step, 0);
    if step.SemSignal? && step.s in sys.sem {
      SignalInv(sys, step.s);
      SignalSteady(sys, step.s);
    }
  }

  ghost predicate AllBounded(sys: System) {
    forall s :: s in sys.sem ==> Bounded(sys.sem[s])
  }

  lemma SwitchBounded(sys: System, dying: bool, eax: int)
    requires Inv(sys) && (dying ==> sys.current != sys.kernel) && AllBounded(sys)
    ensures AllBounded(Switch(sys, dying, eax))
  {
    hide Inv, Switch, Walked, Ticked;
    SwitchInv(sys, dying, eax);
    TickedSems(sys, dying, eax);
    forall s | s in Switch(sys, dying, eax).sem ensures Bounded(Switch(sys, dying, eax).sem[s]) {
      assert WokeAt(Saved(sys, dying, eax), Ticked(sys, dying, eax), sys.order, s);
    }
  }

  lemma StepBounded(sys: System, step: Step)
    requires Inv(sys) && Steady(sys) && Callable(sys, step) && AllBounded(sys)
    ensures AllBounded(Stepped(sys, step))
  {
    hide Inv, Steady, Switch, Freeable;
    match step
    case Tick(dying, eax) => SwitchBounded(sys, dying, eax);
    case GiveUp =>
      YieldKeeps(sys);
      YieldSems(sys);
      SwitchBounded(Yielded(sys), false, 0);
    case SemSignal(s) => if s in sys.sem { SignalStops(sys, s); }
    case SemWait(s) => if s in sys.sem && sys.sem[s].count <= 0 { SwitchBounded(sys, false, 0); }
    case SemFree(s) => if s in sys.sem { SemKeys(sys); OrderHas(sys, s); }
    case SemInit(s, initial) => InitFull(sys, s, initial);
    case New(x) => CreateIds(sys, x);
    case Start(x) => CreateIds(sys, x);
  }

  ghost predicate CallableRun(sys: System, steps: seq<Step>)
    requires Inv(sys) && Steady(sys)
    decreases |steps|
  {
    steps == [] || (Callable(sys, steps[0]) && (SteppedInv(sys, steps[0]); CallableRun(Stepped(sys, steps[0]), steps[1..])))
  }

  ghost function RunAll(sys: System, steps: seq<Step>): System
    requires Inv(sys) && Steady(sys) && CallableRun(sys, steps)
    decreases |steps|
  {
    if steps == [] then sys
    else
      SteppedInv(sys, steps[0]);
      RunAll(Stepped(sys, steps[0]), steps[1..])
  }

  lemma {:induction false} RunBounded(sys: System, steps: seq<Step>)
    requires Inv(sys) && Steady(sys) && CallableRun(sys, steps) && AllBounded(sys)
    ensures Inv(RunAll(sys, steps)) && AllBounded(RunAll(sys, steps))
    decreases |steps|
  {
    hide Inv, Steady, Callable, Stepped, AllBounded;
    if steps != [] {
      SteppedInv(sys, steps[0]);
      StepBounded(sys, steps[0]);
      RunBounded(Stepped(sys, steps[0]), steps[1..]);
    }
  }

  /** Over every run from boot in which any task may signal anything, 0 <= count <= initial_value for every semaphore. */
  lemma CountsBounded(kernel: int, steps: seq<Step>)
    requires Inv(Boot(kernel)) && Steady(Boot(kernel)) && CallableRun(Boot(kernel), steps)
    ensures var r := RunAll(Boot(kernel), steps);
            forall s :: s in r.sem && r.sem[s].initial < 0x8000_0000 ==> 0 <= r.sem[s].count <= r.sem[s].initial
  {
    RunBounded(Boot(kernel), steps);
  }

  // ---------------------------------------------------------------- process identifiers

  /** No two tasks that have been run have the same identifier; one that has not been run has none yet. */
  ghost predicate PidsApart(sys: System) {
    && 1 <= sys.nextPID
    && (forall x :: x in sys.tasks ==> 0 <= sys.tasks[x].id < sys.nextPID && (sys.tasks[x].status == Created ==> sys.tasks[x].id == 0))
    && (forall x, y :: x in sys.tasks && y in sys.tasks && sys.tasks[x].status != Created && sys.tasks[y].status != Created && sys.tasks[x].id == sys.tasks[y].id ==> x == y)
  }

  /** No task has another identifier than before, and none has been run for the first time. */
  ghost predicate SamePids(sys: System, r: System) {
    r.nextPID == sys.nextPID && forall x :: x in r.tasks ==> x in sys.tasks && r.tasks[x].id == sys.tasks[x].id && (r.tasks[x].status == Created <==> sys.tasks[x].status == Created)
  }

  lemma SwitchPids(sys: System, dying: bool, eax: int)
    requires Inv(sys) && (dying ==> sys.current != sys.kernel)
    ensures SamePids(sys, Switch(sys, dying, eax))
  {
    hide Inv, Walked, Ticked, SamePids;
    TickedKeeps(sys, dying, eax);
    TickedSems(sys, dying, eax);
    SavedPids(sys, dying, eax, Ticked(sys, dying, eax));
    WalkedPids(Ticked(sys, dying, eax));
    PidsTrans(sys, Ticked(sys, dying, eax), Switch(sys, dying, eax));
  }

  lemma SavedPids(sys: System, dying: bool, eax: int, t: System)
    requires sys.current in sys.tasks && t.tasks == Saved(sys, dying, eax).tasks && t.nextPID == sys.nextPID
    ensures SamePids(sys, t)
  {
  }

  lemma PidsTrans(sys: System, t: System, r: System)
    requires SamePids(sys, t) && SamePids(t, r)
    ensures SamePids(sys, r)
  {
  }

  lemma WalkedPids(t: System)
    requires Inv(t)
    ensures SamePids(t, Walked(t))
  {
    hide Inv, Walked, On, Exclusive, Manned, SemsOk;
    InvParts(t);
    WalkedMembers(t);
  }

  lemma StartPids(sys: System, x: int)
    requires PidsApart(sys)
    ensures PidsApart(RunTask(sys, x))
  {
  }

  /** runTask: a created task is idle, last on the run queue, and has an identifier; running it again changes nothing, and no other task is touched. */
  lemma StartQueues(sys: System, x: int)
    requires x in sys.tasks
    ensures var r := RunTask(sys, x);
            && RunTask(r, x) == r && r.tasks.Keys == sys.tasks.Keys && (forall y :: y in sys.tasks && y != x ==> r.tasks[y] == sys.tasks[y])
            && (if sys.tasks[x].status != Created then r == sys
                else r.main == sys.main + [x] && r.tasks[x].status == Idle && r.tasks[x].id == if sys.tasks[x].id == 0 then sys.nextPID else sys.tasks[x].id)
  {
  }

  lemma SamePidsApart(sys: System, r: System)
    requires PidsApart(sys) && SamePids(sys, r)
    ensures PidsApart(r)
  {
  }

  lemma StepPids(sys: System, step: Step)
    requires Inv(sys) && Steady(sys) && Callable(sys, step) && PidsApart(sys)
    ensures PidsApart(Stepped(sys, step))
  {
    hide Inv, Steady, Switch, Freeable, PidsApart, RunTask;
    var r := Stepped(sys, step);
    match step
    case Tick(dying, eax) =>
      SwitchPids(sys, dying, eax);
      SamePidsApart(sys, r);
    case GiveUp =>
      YieldKeeps(sys);
      YieldPids(sys);
      SwitchPids(Yielded(sys), false, 0);
      PidsTrans(sys, Yielded(sys), r);
      SamePidsApart(sys, r);
    case New(x) => CreatePids(sys, x);
    case Start(x) => StartPids(sys, x);
    case SemWait(s) =>
      if s in sys.sem && sys.sem[s].count <= 0 { SwitchPids(sys, false, 0); }
      SamePidsApart(sys, r);
    case SemInit(s, initial) => SamePidsApart(sys, r);
    case SemSignal(s) => SamePidsApart(sys, r);
    case SemFree(s) => SamePidsApart(sys, r);
  }

  lemma YieldPids(sys: System)
    requires Inv(sys) && sys.current in sys.tasks
    ensures SamePids(sys, Yielded(sys))
  {
  }

  lemma CreatePids(sys: System, x: int)
    requires PidsApart(sys)
    ensures PidsApart(Create(sys, x))
  {
  }

  /** Over every run process identifiers stay unique among the tasks that have been run and not destroyed. */
  lemma {:induction false} RunPids(sys: System, steps: seq<Step>)
    requires Inv(sys) && Steady(sys) && CallableRun(sys, steps) && PidsApart(sys)
    ensures PidsApart(RunAll(sys, steps))
    decreases |steps|
  {
    hide Inv, Steady, Callable, Stepped, PidsApart;
    if steps != [] {
      SteppedInv(sys, steps[0]);
      StepPids(sys, steps[0]);
      RunPids(Stepped(sys, steps[0]), steps[1..]);
    }
  }

  /** At boot the kernel task has identifier 0. */
  lemma BootPids(kernel: int)
    ensures PidsApart(Boot(kernel)) && Boot(kernel).tasks[kernel].id == 0 && Boot(kernel).tasks[kernel].status == Idle
  {
  }
}
