/** What semaphores promise over runs: waiters drain, ids are unique, a wait is undone by a signal; and line 75 as written. */
module Semaphores {
  import opened Machine
  import opened Tasking
  import opened TaskingRuns

  // ---------------------------------------------------------------- draining

  predicate Switches(step: Step) {
    step.Tick? || step.GiveUp?
  }

  /** How many of the steps call switchTask. */
  function Passes(steps: seq<Step>): nat {
    if steps == [] then 0 else (if Switches(steps[0]) then 1 else 0) + Passes(steps[1..])
  }

  predicate NoSemctl(steps: seq<Step>) {
    forall i :: 0 <= i < |steps| ==> Switches(steps[i]) || steps[i].New? || steps[i].Start?
  }

  function Min(a: int, b: int): int { if a < b then a else b }

  /** How many waiters of a semaphore with this count get a permit in k passes. */
  function Drained(count: int, waiting: nat, k: nat): (m: nat)
    ensures m <= waiting
  {
    if count <= 0 then 0 else Min(k, Min(count, waiting))
  }

  predicate DrainedBy(sys: System, r: System, s: int, k: nat) {
    && s in sys.sem && s in sys.waiters && s in r.sem && s in r.waiters
    && var m := Drained(sys.sem[s].count, |sys.waiters[s]|, k);
       r.waiters[s] == sys.waiters[s][m..] && r.sem[s] == sys.sem[s].(count := sys.sem[s].count - m)
  }

  lemma DrainTrans(sys: System, mid: System, r: System, s: int, k: nat)
    requires DrainedBy(sys, mid, s, 1) && DrainedBy(mid, r, s, k)
    ensures DrainedBy(sys, r, s, k + 1)
  {
    var m1 := Drained(sys.sem[s].count, |sys.waiters[s]|, 1);
    var m2 := Drained(mid.sem[s].count, |mid.waiters[s]|, k);
    assert Drained(sys.sem[s].count, |sys.waiters[s]|, k + 1) == m1 + m2;
    assert sys.waiters[s][m1..][m2..] == sys.waiters[s][m1 + m2..];
  }

  /** One step that is not a semctl call: a switch is one pass, the rest none. */
  lemma StepDrains(st: State, step: Step, s: int)
    requires Sound(st) && Legal(st, step) && s in st.sys.sem && (Switches(step) || step.New? || step.Start?)
    ensures DrainedBy(st.sys, After(st, step).sys, s, if Switches(step) then 1 else 0)
  {
    var sys := st.sys;
    hide Inv, Switch, Conserved, HeldAfterWake, Walked, Ticked, Drained, DrainedBy;
    if step.Tick? {
      SwitchDrains(sys, step.dying, step.eax, s);
    } else if step.GiveUp? {
      YieldKeeps(sys);
      YieldSems(sys);
      SwitchDrains(Yielded(sys), false, 0, s);
      SameDrains(sys, Yielded(sys), After(st, step).sys, s);
    } else {
      SemKeys(sys);
      NoDrain(sys, After(st, step).sys, s);
    }
  }

  lemma SameDrains(sys: System, y: System, r: System, s: int)
    requires y.sem == sys.sem && y.waiters == sys.waiters && DrainedBy(y, r, s, 1)
    ensures DrainedBy(sys, r, s, 1)
  {
  }

  lemma NoDrain(sys: System, r: System, s: int)
    requires s in sys.sem && s in sys.waiters && r.sem == sys.sem && r.waiters == sys.waiters
    ensures DrainedBy(sys, r, s, 0)
  {
  }

  lemma SwitchDrains(sys: System, dying: bool, eax: int, s: int)
    requires Inv(sys) && (dying ==> sys.current != sys.kernel) && s in sys.sem
    ensures DrainedBy(sys, Switch(sys, dying, eax), s, 1)
  {
    hide Inv, Switch, Walked, Ticked;
    SwitchInv(sys, dying, eax);
    TickedSems(sys, dying, eax);
    OrderHas(sys, s);
    assert WokeAt(Saved(sys, dying, eax), Ticked(sys, dying, eax), sys.order, s);
  }

  lemma OrderHas(sys: System, s: int)
    requires Inv(sys) && s in sys.sem
    ensures s in sys.order && s in sys.waiters
  {
  }

  /**
   min(count, waiting) waiters get their permits one per switch, the most recently parked first, for
   as long as no semctl call comes between, whatever tasks are created, run, yield or die meanwhile.
   */
  lemma {:induction false} WaitersDrain(st: State, steps: seq<Step>, s: int)
    requires Sound(st) && LegalRun(st, steps) && NoSemctl(steps) && s in st.sys.sem
    ensures DrainedBy(st.sys, Run(st, steps).sys, s, Passes(steps))
    decreases |steps|
  {
    hide Sound, Legal, After, Drained, DrainedBy;
    if steps == [] {
      SoundKeys(st);
      NoDrain(st.sys, st.sys, s);
    } else {
      var next := After(st, steps[0]);
      AfterSound(st, steps[0]);
      StepDrains(st, steps[0], s);
      DrainedIn(st.sys, next.sys, s, if Switches(steps[0]) then 1 else 0);
      assert forall i :: 0 <= i < |steps[1..]| ==> steps[1..][i] == steps[i + 1];
      WaitersDrain(next, steps[1..], s);
      if Switches(steps[0]) {
        DrainTrans(st.sys, next.sys, Run(next, steps[1..]).sys, s, Passes(steps[1..]));
      } else {
        DrainNone(st.sys, next.sys, Run(next, steps[1..]).sys, s, Passes(steps[1..]));
      }
    }
  }

  lemma SoundKeys(st: State)
    requires Sound(st)
    ensures st.sys.sem.Keys == st.sys.waiters.Keys
  {
  }

  lemma DrainedIn(sys: System, r: System, s: int, k: nat)
    requires DrainedBy(sys, r, s, k)
    ensures s in r.sem
  {
  }

  lemma DrainNone(sys: System, mid: System, r: System, s: int, k: nat)
    requires DrainedBy(sys, mid, s, 0) && DrainedBy(mid, r, s, k)
    ensures DrainedBy(sys, r, s, k)
  {
  }

  // ---------------------------------------------------------------- ids

  /** No two semaphores have the same id, and ids are below the next one. */
  ghost predicate IdsApart(sys: System) {
    && 1 <= sys.nextSem
    && (forall s :: s in sys.sem ==> 1 <= sys.sem[s].id < sys.nextSem)
    && (forall s, z :: s in sys.sem && z in sys.sem && sys.sem[s].id == sys.sem[z].id ==> s == z)
  }

  /** The same semaphores under the same ids. */
  ghost predicate SameIds(sys: System, r: System) {
    r.nextSem == sys.nextSem && r.sem.Keys == sys.sem.Keys && forall s :: s in sys.sem ==> r.sem[s].id == sys.sem[s].id
  }

  lemma SwitchIds(sys: System, dying: bool, eax: int)
    requires Inv(sys) && (dying ==> sys.current != sys.kernel)
    ensures SameIds(sys, Switch(sys, dying, eax))
  {
    hide Inv, Switch, Walked, Ticked;
    SwitchInv(sys, dying, eax);
    TickedSems(sys, dying, eax);
    forall s | s in sys.sem ensures Switch(sys, dying, eax).sem[s].id == sys.sem[s].id {
      assert WokeAt(Saved(sys, dying, eax), Ticked(sys, dying, eax), sys.order, s);
    }
  }

  lemma AfterIds(st: State, step: Step)
    requires Sound(st) && Legal(st, step) && IdsApart(st.sys)
    ensures IdsApart(After(st, step).sys)
  {
    var sys := st.sys;
    hide Inv, Switch, Conserved, HeldAfterWake, Walked, Ticked, Create, RunTask, Drop;
    match step
    case Tick(dying, eax) => SwitchIds(sys, dying, eax);
    case GiveUp =>
      YieldKeeps(sys);
      SwitchIds(Yielded(sys), false, 0);
    case New(x) => CreateIds(sys, x);
    case Start(x) => CreateIds(sys, x);
    case SemInit(s, initial) =>
    case SemSignal(s) =>
    case SemWait(s) => if s in sys.sem && sys.sem[s].count <= 0 { SwitchIds(sys, false, 0); }
    case SemFree(s) => if s in sys.sem { SemKeys(sys); OrderHas(sys, s); }
  }

  lemma CreateIds(sys: System, x: int)
    ensures SameIds(sys, Create(sys, x)) && SameIds(sys, RunTask(sys, x))
  {
  }

  /** An id answered by SEMAPHORE_INIT names the same one semaphore until it is freed. */
  lemma {:induction false} RunIds(st: State, steps: seq<Step>)
    requires Sound(st) && LegalRun(st, steps) && IdsApart(st.sys)
    ensures IdsApart(Run(st, steps).sys)
    decreases |steps|
  {
    hide Sound, Legal, After, IdsApart;
    if steps != [] {
      AfterSound(st, steps[0]);
      AfterIds(st, steps[0]);
      RunIds(After(st, steps[0]), steps[1..]);
    }
  }

  // ---------------------------------------------------------------- wait and signal

  /** A wait that got a permit is undone by a signal. */
  lemma SignalUndoesWait(sys: System, s: int)
    requires Inv(sys) && s in sys.sem && 0 < sys.sem[s].count <= sys.sem[s].initial
    ensures s in Tasking.Wait(sys, s).sem && Signal(Tasking.Wait(sys, s), s) == sys
  {
    var r := Signal(Tasking.Wait(sys, s), s);
    assert r.sem == sys.sem;
  }

  /** Line 75 as written: the bound is v, whatever the uninitialised local holds. */
  function SignalAsWritten(sys: System, s: int, v: int): System
    requires s in sys.sem
  {
    if ToUint32(sys.sem[s].count) < v then sys.(sem := sys.sem[s := sys.sem[s].(count := sys.sem[s].count + 1)])
    else sys
  }

  /** As written, a permit given back survives exactly when the stray value exceeds the count. */
  lemma SignalAsWrittenExact(sys: System, s: int, held: Held, x: int, v: int)
    requires Conserved(sys, held) && s in sys.sem && s in held && x in held[s]
    ensures Conserved(SignalAsWritten(sys, s, v), held[s := held[s] - multiset{x}]) <==> ToUint32(sys.sem[s].count) < v
    ensures SignalAsWritten(sys, s, v) == Signal(sys, s) <==> ToUint32(sys.sem[s].count) < v
  {
    SignalConserves(sys, s, held, x);
    assert Balanced(sys.sem[s], held[s]);
    assert |held[s] - multiset{x}| == |held[s]| - 1;
    var h, r := held[s := held[s] - multiset{x}], SignalAsWritten(sys, s, v);
    if ToUint32(sys.sem[s].count) >= v {
      assert !Balanced(r.sem[s], h[s]);
      assert r.sem[s].count != Signal(sys, s).sem[s].count;
    }
  }

  /** With a stray 0 a mutex locked and unlocked once stays locked, though nobody holds it. */
  lemma MutexLostAsWritten(kernel: int, s: int)
    ensures var locked := Tasking.Wait(InitSem(Boot(kernel), s, 1), s);
            && Inv(InitSem(Boot(kernel), s, 1)) && s in locked.sem && locked.sem[s].count == 0
            && SignalAsWritten(locked, s, 0) == locked && Signal(locked, s) == InitSem(Boot(kernel), s, 1)
  {
    BootSound(kernel);
    InitInv(Boot(kernel), s, 1);
    SignalUndoesWait(InitSem(Boot(kernel), s, 1), s);
  }

  // ---------------------------------------------------------------- runs with line 75 as written

  /** Legal without what tasks hold: as written, that means nothing. */
  ghost predicate Callable(sys: System, step: Step) {
    match step
    case Tick(dying, eax) => dying ==> sys.current != sys.kernel
    case New(x) => x !in sys.tasks
    case SemInit(s, initial) => s !in sys.sem && 0 <= initial < TWO32
    case SemWait(s) => s in sys.sem && sys.current == sys.kernel ==> sys.sem[s].count > 0
    case GiveUp => true
    case Start(x) => true
    case SemSignal(s) => true
    case SemFree(s) => true
  }

  /** A step, v being the stray value if it is a signal. */
  ghost function AfterAsWritten(sys: System, step: Step, v: int): System
    requires Inv(sys) && Steady(sys) && Callable(sys, step)
  {
    match step
    case Tick(dying, eax) => Switch(sys, dying, eax)
    case GiveUp =>
      YieldKeeps(sys);
      Switch(Yielded(sys), false, 0)
    case New(x) => Create(sys, x)
    case Start(x) => RunTask(sys, x)
    case SemInit(s, initial) => InitSem(sys, s, initial)
    case SemSignal(s) => if s in sys.sem then SignalAsWritten(sys, s, v) else sys
    case SemWait(s) => if s in sys.sem then Tasking.Wait(sys, s) else sys
    case SemFree(s) =>
      if s !in sys.sem || !Freeable(sys, s) then sys
      else
        FreeInv(sys, s);
        FreeSem(sys, s)
  }

  lemma AsWrittenInv(sys: System, step: Step, v: int)
    requires Inv(sys) && Steady(sys) && Callable(sys, step)
    ensures Inv(AfterAsWritten(sys, step, v)) && Steady(AfterAsWritten(sys, step, v))
  {
    hide Inv, Switch, Yielded, Create, RunTask, InitSem, Tasking.Wait, FreeSem, Freeable, SignalAsWritten, Steady;
    match step
    case Tick(dying, eax) => SwitchInv(sys, dying, eax);
    case GiveUp =>
      YieldKeeps(sys);
      SwitchInv(Yielded(sys), false, 0);
    case New(x) =>
      CreateInv(sys, x);
      SameCurrent(sys, step, v);
    case Start(x) =>
      RunInv(sys, x);
      SameCurrent(sys, step, v);
    case SemInit(s, initial) =>
      InitInv(sys, s, initial);
      SameCurrent(sys, step, v);
    case SemSignal(s) =>
      if s in sys.sem {
        StrayInv(sys, s, v);
        SameCurrent(sys, step, v);
      }
    case SemWait(s) => if s in sys.sem { WaitInv(sys, s); }
    case SemFree(s) =>
      SemKeys(sys);
      if s in sys.sem && Freeable(sys, s) {
        FreeInv(sys, s);
        SameCurrent(sys, step, v);
      }
  }

  lemma SameCurrent(sys: System, step: Step, v: int)
    requires Inv(sys) && Steady(sys) && Callable(sys, step) && !step.Tick? && !step.GiveUp? && !step.SemWait?
    ensures Steady(AfterAsWritten(sys, step, v))
  {
  }

  lemma StrayInv(sys: System, s: int, v: int)
    requires Inv(sys) && s in sys.sem
    ensures Inv(SignalAsWritten(sys, s, v))
  {
    assert forall x :: On(sys, x) <==> On(SignalAsWritten(sys, s, v), x);
  }

  /** No permit is left, and the semaphore is not one that starts without any. */
  ghost predicate Stuck(sys: System, s: int) {
    s in sys.sem && sys.sem[s].count == 0 && ToInt32(sys.sem[s].initial) != 0
  }

  lemma StuckStep(sys: System, step: Step, v: int, s: int)
    requires Inv(sys) && Steady(sys) && Callable(sys, step) && Stuck(sys, s) && (step == SemSignal(s) ==> v <= 0)
    ensures var r := AfterAsWritten(sys, step, v); Stuck(r, s) && r.sem[s] == sys.sem[s]
  {
    match step
    case Tick(dying, eax) => StuckSwitch(sys, dying, eax, s);
    case GiveUp =>
      YieldKeeps(sys);
      StuckSwitch(Yielded(sys), false, 0, s);
    case SemWait(z) => if z in sys.sem && sys.sem[z].count <= 0 { StuckSwitch(sys, false, 0, s); }
    case SemFree(z) => if z in sys.sem && Freeable(sys, z) { FreeInv(sys, z); }
    case New(x) =>
    case Start(x) =>
    case SemInit(z, initial) =>
    case SemSignal(z) =>
  }

  lemma StuckSwitch(sys: System, dying: bool, eax: int, s: int)
    requires Inv(sys) && (dying ==> sys.current != sys.kernel) && Stuck(sys, s)
    ensures var r := Switch(sys, dying, eax); Stuck(r, s) && r.sem[s] == sys.sem[s]
  {
    hide Inv, Switch, Walked, Ticked;
    SwitchInv(sys, dying, eax);
    TickedSems(sys, dying, eax);
    assert WokeAt(Saved(sys, dying, eax), Ticked(sys, dying, eax), sys.order, s);
  }

  ghost predicate CallableRunAsWritten(sys: System, steps: seq<Step>, strays: seq<int>)
    requires Inv(sys) && Steady(sys) && |strays| == |steps|
    decreases |steps|
  {
    steps == [] ||
    (Callable(sys, steps[0]) && (AsWrittenInv(sys, steps[0], strays[0]); CallableRunAsWritten(AfterAsWritten(sys, steps[0], strays[0]), steps[1..], strays[1..])))
  }

  ghost function RunAsWritten(sys: System, steps: seq<Step>, strays: seq<int>): System
    requires Inv(sys) && Steady(sys) && |strays| == |steps| && CallableRunAsWritten(sys, steps, strays)
    decreases |steps|
  {
    if steps == [] then sys
    else
      AsWrittenInv(sys, steps[0], strays[0]);
      RunAsWritten(AfterAsWritten(sys, steps[0], strays[0]), steps[1..], strays[1..])
  }

  /** Once its permits are out, a semaphore signalled with stray zeros never has one again, and is never freed, whatever else happens. */
  lemma {:induction false} StuckForever(sys: System, steps: seq<Step>, strays: seq<int>, s: int)
    requires Inv(sys) && Steady(sys) && |strays| == |steps| && CallableRunAsWritten(sys, steps, strays) && Stuck(sys, s)
    requires forall i :: 0 <= i < |steps| && steps[i] == SemSignal(s) ==> strays[i] <= 0
    ensures var r := RunAsWritten(sys, steps, strays); s in r.sem && r.sem[s] == sys.sem[s]
    decreases |steps|
  {
    hide Inv, Steady, Callable, AfterAsWritten;
    if steps != [] {
      AsWrittenInv(sys, steps[0], strays[0]);
      StuckStep(sys, steps[0], strays[0], s);
      assert forall i :: 0 <= i < |steps[1..]| ==> steps[1..][i] == steps[i + 1] && strays[1..][i] == strays[i + 1];
      StuckForever(AfterAsWritten(sys, steps[0], strays[0]), steps[1..], strays[1..], s);
    }
  }

  /** A mutex locked once from boot: no run as written with stray zeros ever opens it again, though the lock is given back. */
  lemma MutexStuck(kernel: int, s: int, steps: seq<Step>, strays: seq<int>)
    ensures var open := InitSem(Boot(kernel), s, 1);
            && Inv(open) && s in open.sem
            && var locked := Tasking.Wait(open, s);
            && Inv(locked) && Steady(locked)
            && (|strays| == |steps| && CallableRunAsWritten(locked, steps, strays)
                && (forall i :: 0 <= i < |steps| && steps[i] == SemSignal(s) ==> strays[i] <= 0) ==>
                  var r := RunAsWritten(locked, steps, strays); s in r.sem && r.sem[s].count == 0)
  {
    BootSound(kernel);
    InitInv(Boot(kernel), s, 1);
    var open := InitSem(Boot(kernel), s, 1);
    WaitInv(open, s);
    var locked := Tasking.Wait(open, s);
    assert Stuck(locked, s);
    if |strays| == |steps| && CallableRunAsWritten(locked, steps, strays) && forall i :: 0 <= i < |steps| && steps[i] == SemSignal(s) ==> strays[i] <= 0 {
      StuckForever(locked, steps, strays, s);
    }
  }
}
