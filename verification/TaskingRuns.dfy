/** Whole runs of the task system: clock ticks, yields, new tasks and semaphore calls in any order. */
module TaskingRuns {
  import opened Machine
  import opened Scheduler
  import opened Tasking

  // ---------------------------------------------------------------- tasks

  /** allocTask and the callers' TS_CREATED. */
  function Create(sys: System, x: int): System {
    sys.(tasks := sys.tasks[x := Task(0, Created, false, 0, 0)])
  }

  /** runTask: only a task that was created and never run joins the run queue. */
  function RunTask(sys: System, x: int): System {
    if x in sys.tasks && sys.tasks[x].status == Created then
      var t := sys.tasks[x];
      var pid := if t.id != 0 then t.id else sys.nextPID;
      sys.(tasks := sys.tasks[x := t.(id := pid, status := Idle)], main := sys.main + [x],
           nextPID := if t.id != 0 then sys.nextPID else sys.nextPID + 1)
    else sys
  }

  lemma CreateInv(sys: System, x: int)
    requires Inv(sys) && x !in sys.tasks
    ensures Inv(Create(sys, x)) && !On(Create(sys, x), x)
  {
    var r := Create(sys, x);
    assert forall y :: On(sys, y) <==> On(r, y);
  }

  lemma RunInv(sys: System, x: int)
    requires Inv(sys)
    ensures Inv(RunTask(sys, x))
  {
    if x in sys.tasks && sys.tasks[x].status == Created {
      var r := RunTask(sys, x);
      assert x !in sys.main;
      forall y | y != x ensures On(sys, y) <==> On(r, y) {
        if On(sys, y) && y !in sys.main {
          var s :| s in sys.waiters && y in sys.waiters[s];
          assert s in r.waiters && y in r.waiters[s];
        }
      }
      assert x in r.main;
    }
  }

  /** yield, then switchTask */
  function Yielded(sys: System): System
    requires sys.current in sys.tasks
  {
    sys.(tasks := sys.tasks[sys.current := sys.tasks[sys.current].(status := Yield)])
  }

  // ---------------------------------------------------------------- permits

  /** For each semaphore the tasks that hold one of its permits. */
  type Held = map<int, multiset<int>>

  ghost predicate Balanced(m: Sem, holders: multiset<int>) {
    && 0 <= m.initial < TWO32
    && m.count + |holders| == ToInt32(m.initial)
    && (if m.initial <= INT_MAX then m.count >= 0 else holders == multiset{})
  }

  ghost predicate Conserved(sys: System, held: Held) {
    held.Keys == sys.sem.Keys && forall s :: s in sys.sem && s in held ==> Balanced(sys.sem[s], held[s])
  }

  /** Who holds what after semctl_process: each woken task got a permit. */
  ghost function HeldAfterWake(sys: System, held: Held): Held {
    map s | s in held :: if Wakes(sys, s) then held[s] + multiset{sys.waiters[s][0]} else held[s]
  }

  lemma WakeConserves(sys: System, r: System, held: Held)
    requires Conserved(sys, held) && SemsOk(sys) && Woke(sys, r, sys.order)
    ensures Conserved(r, HeldAfterWake(sys, held))
  {
    var h := HeldAfterWake(sys, held);
    hide Balanced, Woken, Woke, WokeAt, SemsOk, HeldAfterWake;
    WokeKeys(sys, r, held);
    forall s | s in r.sem && s in h ensures Balanced(r.sem[s], h[s]) {
      WokeOne(sys, r, held, s);
    }
  }

  lemma WokeKeys(sys: System, r: System, held: Held)
    requires Woke(sys, r, sys.order)
    ensures r.sem.Keys == sys.sem.Keys && HeldAfterWake(sys, held).Keys == held.Keys
  {
  }

  lemma WokeOne(sys: System, r: System, held: Held, s: int)
    requires Woke(sys, r, sys.order) && SemsOk(sys) && s in sys.sem && s in held && Balanced(sys.sem[s], held[s])
    ensures s in r.sem && s in HeldAfterWake(sys, held) && Balanced(r.sem[s], HeldAfterWake(sys, held)[s])
  {
    hide Balanced, Woken;
    assert WokeAt(sys, r, sys.order, s) && s in sys.order;
    if Wakes(sys, s) {
      PermitMoves(sys.sem[s], held[s], sys.waiters[s][0]);
    }
  }

  /** A permit that is taken has one holder more. */
  lemma PermitMoves(m: Sem, holders: multiset<int>, x: int)
    requires Balanced(m, holders) && m.count > 0
    ensures Balanced(m.(count := m.count - 1), holders + multiset{x})
  {
  }

  // ---------------------------------------------------------------- steps

  datatype Step =
    | Tick(dying: bool, eax: int)
    | GiveUp
    | New(x: int)
    | Start(x: int)
    | SemInit(s: int, initial: int)
    | SemSignal(s: int)
    | SemWait(s: int)
    | SemFree(s: int)

  datatype State = State(sys: System, held: Held)

  /**
   What the model takes for granted: the kernel task never finishes and never parks, new nodes are
   at new addresses, initial_value is 32 bits, and a task signals only what it holds.
   */
  ghost predicate Legal(st: State, step: Step) {
    var sys := st.sys;
    match step
    case Tick(dying, eax) => dying ==> sys.current != sys.kernel
    case GiveUp => true
    case New(x) => x !in sys.tasks
    case Start(x) => true
    case SemInit(s, initial) => s !in sys.sem && 0 <= initial < TWO32
    case SemSignal(s) => s in sys.sem && s in st.held ==> sys.current in st.held[s]
    case SemWait(s) => s in sys.sem && sys.current == sys.kernel ==> sys.sem[s].count > 0
    case SemFree(s) => true
  }

  ghost predicate Sound(st: State) {
    Inv(st.sys) && Steady(st.sys) && Conserved(st.sys, st.held)
  }

  ghost function After(st: State, step: Step): State
    requires Sound(st) && Legal(st, step)
  {
    var sys, held := st.sys, st.held;
    match step
    case Tick(dying, eax) =>
      State(Switch(sys, dying, eax), HeldAfterWake(Saved(sys, dying, eax), held))
    case GiveUp =>
      YieldKeeps(sys);
      State(Switch(Yielded(sys), false, 0), HeldAfterWake(Saved(Yielded(sys), false, 0), held))
    case New(x) => State(Create(sys, x), held)
    case Start(x) => State(RunTask(sys, x), held)
    case SemInit(s, initial) => State(InitSem(sys, s, initial), held[s := multiset{}])
    case SemSignal(s) =>
      if s !in sys.sem then st else State(Signal(sys, s), held[s := held[s] - multiset{sys.current}])
    case SemWait(s) =>
      if s !in sys.sem then st
      else if sys.sem[s].count > 0 then State(Wait(sys, s), held[s := held[s] + multiset{sys.current}])
      else State(Wait(sys, s), HeldAfterWake(Saved(sys, false, 0), held))
    case SemFree(s) =>
      if s !in sys.sem || !Freeable(sys, s) then st
      else
        FreeInv(sys, s);
        State(FreeSem(sys, s), held - {s})
  }

  lemma YieldKeeps(sys: System)
    requires Inv(sys)
    ensures sys.current in sys.tasks && Inv(Yielded(sys))
  {
    assert forall x :: On(sys, x) <==> On(Yielded(sys), x);
  }

  lemma SwitchConserves(sys: System, dying: bool, eax: int, held: Held)
    requires Inv(sys) && (dying ==> sys.current != sys.kernel) && Conserved(sys, held)
    ensures sys.current in sys.tasks
    ensures Conserved(Switch(sys, dying, eax), HeldAfterWake(Saved(sys, dying, eax), held))
  {
    hide Inv, Switch, Ticked, HeldAfterWake, Woke, SemsOk, Balanced;
    CurrentKnown(sys);
    TickedSems(sys, dying, eax);
    SwitchInv(sys, dying, eax);
    SavedSems(sys, dying, eax, held);
    WakeConserves(Saved(sys, dying, eax), Ticked(sys, dying, eax), held);
  }

  lemma SavedSems(sys: System, dying: bool, eax: int, held: Held)
    requires sys.current in sys.tasks && SemsOk(sys) && Conserved(sys, held)
    ensures SemsOk(Saved(sys, dying, eax)) && Conserved(Saved(sys, dying, eax), held)
  {
  }

  lemma CurrentKnown(sys: System)
    requires Inv(sys)
    ensures sys.current in sys.tasks && SemsOk(sys)
  {
  }

  /** A permit given back was out, so the count is below its bound and does go up. */
  lemma SignalConserves(sys: System, s: int, held: Held, x: int)
    requires Conserved(sys, held) && s in sys.sem && s in held && x in held[s]
    ensures Signal(sys, s).sem == sys.sem[s := sys.sem[s].(count := sys.sem[s].count + 1)]
    ensures Conserved(Signal(sys, s), held[s := held[s] - multiset{x}])
  {
    assert Balanced(sys.sem[s], held[s]);
    assert |held[s]| >= 1 by { assert held[s] == (held[s] - multiset{x}) + multiset{x}; }
    assert |held[s] - multiset{x}| == |held[s]| - 1;
  }

  /** FREE is refused exactly while somebody holds a permit or waits. */
  lemma FreeExact(sys: System, s: int, held: Held)
    requires Conserved(sys, held) && s in sys.sem && s in sys.waiters && s in held
    ensures Freeable(sys, s) <==> held[s] == multiset{} && sys.waiters[s] == []
  {
    assert Balanced(sys.sem[s], held[s]);
  }

  lemma {:induction false} AfterSound(st: State, step: Step)
    requires Sound(st) && Legal(st, step)
    ensures Sound(After(st, step))
  {
    hide Inv, Switch, Conserved, HeldAfterWake, Yielded, Create, RunTask, Saved, Signal, InitSem, Tasking.Wait, FreeSem, Freeable, Sane;
    var sys, held := st.sys, st.held;
    match step
    case Tick(dying, eax) =>
      SwitchInv(sys, dying, eax);
      SwitchConserves(sys, dying, eax, held);
    case GiveUp =>
      YieldKeeps(sys);
      SwitchInv(Yielded(sys), false, 0);
      SameSems(sys, Yielded(sys), held) by { YieldSems(sys); }
      SwitchConserves(Yielded(sys), false, 0, held);
    case New(x) =>
      CreateInv(sys, x);
      CreateKeeps(sys, x, held);
    case Start(x) =>
      RunInv(sys, x);
      RunKeeps(sys, x, held);
    case SemInit(s, initial) =>
      InitInv(sys, s, initial);
      InitConserves(sys, s, initial, held);
    case SemSignal(s) =>
      if s in sys.sem {
        SignalInv(sys, s);
        KeysAgree(sys, held);
        SignalConserves(sys, s, held, sys.current);
        SignalSteady(sys, s);
      }
    case SemWait(s) =>
      if s in sys.sem {
        WaitInv(sys, s);
        KeysAgree(sys, held);
        if sys.sem[s].count > 0 {
          WaitConserves(sys, s, held, sys.current);
        } else {
          SwitchConserves(sys, false, 0, held);
          ParkSems(sys, s, HeldAfterWake(Saved(sys, false, 0), held));
        }
      }
    case SemFree(s) =>
      KeysAgree(sys, held);
      SemKeys(sys);
      if s in sys.sem && Freeable(sys, s) {
        FreeInv(sys, s);
        FreeConserves(sys, s, held);
      }
  }

  lemma SemKeys(sys: System)
    requires Inv(sys)
    ensures sys.sem.Keys == sys.waiters.Keys
  {
  }

  lemma KeysAgree(sys: System, held: Held)
    requires Conserved(sys, held)
    ensures held.Keys == sys.sem.Keys
  {
  }

  lemma SameSems(sys: System, r: System, held: Held)
    requires Conserved(sys, held) && r.sem == sys.sem
    ensures Conserved(r, held)
  {
  }

  lemma YieldSems(sys: System)
    requires sys.current in sys.tasks
    ensures Yielded(sys).sem == sys.sem
  {
  }

  lemma CreateKeeps(sys: System, x: int, held: Held)
    requires Conserved(sys, held) && Steady(sys) && x !in sys.tasks
    ensures Conserved(Create(sys, x), held) && Steady(Create(sys, x))
  {
  }

  lemma RunKeeps(sys: System, x: int, held: Held)
    requires Conserved(sys, held) && Steady(sys)
    ensures Conserved(RunTask(sys, x), held) && Steady(RunTask(sys, x))
  {
  }

  lemma InitConserves(sys: System, s: int, initial: int, held: Held)
    requires Conserved(sys, held) && Steady(sys) && s !in sys.sem && 0 <= initial < TWO32
    ensures Conserved(InitSem(sys, s, initial), held[s := multiset{}]) && Steady(InitSem(sys, s, initial))
  {
  }

  lemma SignalSteady(sys: System, s: int)
    requires Steady(sys) && s in sys.sem
    ensures Steady(Signal(sys, s))
  {
  }

  lemma WaitConserves(sys: System, s: int, held: Held, x: int)
    requires Inv(sys) && Conserved(sys, held) && s in sys.sem && s in held && sys.sem[s].count > 0
    ensures Conserved(Tasking.Wait(sys, s), held[s := held[s] + multiset{x}])
  {
    assert Balanced(sys.sem[s], held[s]);
  }

  lemma ParkSems(sys: System, s: int, held: Held)
    requires Inv(sys) && s in sys.sem && sys.sem[s].count <= 0 && Conserved(Switch(sys, false, 0), held)
    ensures Conserved(Tasking.Wait(sys, s), held)
  {
  }

  lemma FreeConserves(sys: System, s: int, held: Held)
    requires Conserved(sys, held) && Steady(sys) && s in sys.sem && s in sys.order
    ensures Conserved(FreeSem(sys, s), held - {s}) && Steady(FreeSem(sys, s))
  {
  }

  // ---------------------------------------------------------------- runs

  ghost predicate LegalRun(st: State, steps: seq<Step>)
    requires Sound(st)
    decreases |steps|
  {
    steps == [] ||
    (Legal(st, steps[0]) && (AfterSound(st, steps[0]); LegalRun(After(st, steps[0]), steps[1..])))
  }

  ghost function Run(st: State, steps: seq<Step>): State
    requires Sound(st) && LegalRun(st, steps)
    decreases |steps|
  {
    if steps == [] then st
    else
      AfterSound(st, steps[0]);
      Run(After(st, steps[0]), steps[1..])
  }

  lemma {:induction false} RunSound(st: State, steps: seq<Step>)
    requires Sound(st) && LegalRun(st, steps)
    ensures Sound(Run(st, steps))
    decreases |steps|
  {
    hide Sound, Legal, After;
    if steps != [] {
      AfterSound(st, steps[0]);
      RunSound(After(st, steps[0]), steps[1..]);
    }
  }

  /** initTasking: the kernel task alone, idle, already current. */
  function Boot(kernel: int): System {
    System(map[kernel := Task(0, Idle, false, 0, 0)], [kernel], [], map[], map[], kernel, kernel, 1, 1)
  }

  lemma BootSound(kernel: int)
    ensures Sound(State(Boot(kernel), map[]))
  {
  }

  /**
   Over every run from boot: a task that was run and not destroyed is on exactly one list, count and
   holders add up to initial_value for every semaphore, and so a mutex never has two holders.
   */
  lemma SystemSafety(kernel: int, steps: seq<Step>)
    requires Sound(State(Boot(kernel), map[])) && LegalRun(State(Boot(kernel), map[]), steps)
    ensures var st := Run(State(Boot(kernel), map[]), steps);
            && Inv(st.sys) && st.sys.sem.Keys == st.held.Keys && st.sys.sem.Keys == st.sys.waiters.Keys
            && (forall x :: On(st.sys, x) <==> x in st.sys.tasks && st.sys.tasks[x].status != Created)
            && Exclusive(st.sys.main, st.sys.waiters)
            && (forall s :: s in st.sys.sem ==> st.sys.sem[s].count + |st.held[s]| == ToInt32(st.sys.sem[s].initial))
            && (forall s :: s in st.sys.sem && st.sys.sem[s].initial == 1 ==> |st.held[s]| <= 1)
            && (forall s :: s in st.sys.sem ==> (Freeable(st.sys, s) <==> st.held[s] == multiset{} && st.sys.waiters[s] == []))
  {
    RunSound(State(Boot(kernel), map[]), steps);
    Promised(Run(State(Boot(kernel), map[]), steps));
  }

  lemma Promised(st: State)
    requires Sound(st)
    ensures st.sys.sem.Keys == st.held.Keys && st.sys.sem.Keys == st.sys.waiters.Keys
    ensures forall x :: On(st.sys, x) <==> x in st.sys.tasks && st.sys.tasks[x].status != Created
    ensures forall s :: s in st.sys.sem ==> Balanced(st.sys.sem[s], st.held[s])
    ensures forall s :: s in st.sys.sem ==> (Freeable(st.sys, s) <==> st.held[s] == multiset{} && st.sys.waiters[s] == [])
  {
    forall s | s in st.sys.sem ensures Freeable(st.sys, s) <==> st.held[s] == multiset{} && st.sys.waiters[s] == [] {
      FreeExact(st.sys, s, st.held);
    }
  }
}
