/** Fairness over whole runs: semaphore calls, new tasks and blocking waits between and among the calls of switchTask. */
module FairRuns {
  import opened Scheduler
  import opened Tasking
  import opened TaskingRuns
  import opened Fairness

  /** The step goes through switchTask. */
  ghost predicate CallsSwitch(sys: System, step: Step) {
    step.Tick? || step.GiveUp? || Blocks(sys, step)
  }

  ghost predicate Blocks(sys: System, step: Step) {
    step.SemWait? && step.s in sys.sem && sys.sem[step.s].count <= 0
  }

  /** Nothing joins the run queue: no waiter is woken, no created task is run. */
  ghost predicate NoneJoins(sys: System, step: Step) {
    && (CallsSwitch(sys, step) ==> Woken(sys, sys.order) == [])
    && (step.Start? ==> !(step.x in sys.tasks && sys.tasks[step.x].status == Created))
  }

  /** Task x neither ends with the step nor waits. */
  ghost predicate Spares(sys: System, step: Step, x: int) {
    sys.current == x ==> !(step.Tick? && step.dying) && !Blocks(sys, step)
  }

  ghost predicate Queued(sys: System, x: int) {
    x in sys.main && Live(sys.tasks, x)
  }

  /** At most so many calls of switchTask until x is chosen. */
  ghost function Delay(sys: System, x: int): int
    requires sys.current in sys.main && x in sys.main
  {
    TurnHas(sys.main, sys.current, x);
    var q := Turn(sys.main, sys.current);
    if x == sys.current then 2 * |q| else VisitsUntil(sys.tasks, q, x, Pos(q, x))
  }

  lemma CurrentQueued(sys: System)
    requires Inv(sys)
    ensures sys.current in sys.main && sys.current in sys.tasks && NoDup(sys.main)
  {
  }

  lemma DelayBounds(sys: System, x: int)
    requires Inv(sys) && sys.current in sys.main && x in sys.main
    ensures 0 < Delay(sys, x) <= 2 * |sys.main|
  {
    CurrentQueued(sys);
    TurnFacts(sys.main, sys.current);
    TurnHas(sys.main, sys.current, x);
  }

  // ---------------------------------------------------------------- one step

  lemma NoneWoken(sys: System, call: Call)
    requires Inv(sys) && sys.current in sys.tasks && Woken(sys, sys.order) == []
    ensures Woken(Saved(Entered(sys, call), call.dying, call.eax), sys.order) == []
  {
    hide Inv;
    var r := Saved(Entered(sys, call), call.dying, call.eax);
    assert r.sem == sys.sem && r.waiters == sys.waiters;
    WokenFrame(r, sys, sys.order);
  }

  lemma Enters(sys: System, call: Call)
    requires Inv(sys) && Steady(sys) && (call.dying ==> sys.current != sys.kernel) && Woken(sys, sys.order) == []
    ensures Undisturbed(sys, call)
  {
    hide Inv, Steady, Woken;
    CurrentQueued(sys);
    YieldKeeps(sys);
    NoneWoken(sys, call);
  }

  /** What the walk starts from: x is as idle and as live as before, unless it is the current task. */
  lemma EntryDelay(sys: System, call: Call, x: int)
    requires Inv(sys) && sys.current in sys.main && sys.current in sys.tasks && Queued(sys, x) && (x == sys.current ==> !call.dying && (call.yielding || Steady(sys)))
    ensures Stays(sys, call, x) && x in At(sys, call).queue
    ensures VisitsUntil(At(sys, call).tasks, At(sys, call).queue, x, Pos(At(sys, call).queue, x)) <= Delay(sys, x)
  {
    TurnHas(sys.main, sys.current, x);
    CurrentQueued(sys);
    TurnFacts(sys.main, sys.current);
  }

  lemma PlaceOnce(q: seq<int>, x: int, p: int)
    requires NoDup(q) && Sits(q, x, p)
    ensures x in q && Pos(q, x) == p
  {
    PosOnce(q, p);
  }

  /** switchTask chooses x or brings its turn closer. */
  lemma SwitchCloser(sys: System, call: Call, x: int)
    requires Inv(sys) && Steady(sys) && (call.dying ==> sys.current != sys.kernel) && Woken(sys, sys.order) == []
    requires sys.current in sys.tasks && sys.current in sys.main && Queued(sys, x) && (x == sys.current ==> !call.dying)
    requires Inv(Entered(sys, call))
    ensures var r := Switch(Entered(sys, call), call.dying, call.eax);
            r.current == x || (Queued(r, x) && r.current in r.main && Delay(r, x) < Delay(sys, x))
  {
    var m := At(sys, call);
    var r := Switch(Entered(sys, call), call.dying, call.eax);
    hide Inv, Steady, Switch, Entered, Woken, Undisturbed, Stays, At, Sweep, Turn, Pos, VisitsUntil, NoDup, Known, SomeLive, Live;
    Enters(sys, call);
    EntryDelay(sys, call, x);
    CallIs(sys, call, x);
    PosSits(m.queue, x);
    SweepApproaches(sys.kernel, m.tasks, m.queue, x, Pos(m.queue, x));
    var c := Sweep(sys.kernel, m.tasks, m.queue);
    if r.current != x {
      var p :| Sits(c.queue, x, p) && Live(c.tasks, x) && VisitsUntil(c.tasks, c.queue, x, p) < VisitsUntil(m.tasks, m.queue, x, Pos(m.queue, x));
      SwitchQueue(sys, call, c.queue, x, p);
    }
  }

  lemma PosSits(q: seq<int>, x: int)
    requires x in q
    ensures Sits(q, x, Pos(q, x))
  {
  }

  /** The place of x on the walk's queue is its place on the next turn. */
  lemma SwitchQueue(sys: System, call: Call, q: seq<int>, x: int, p: int)
    requires Undisturbed(sys, call) && Stays(sys, call, x)
    requires var r := Switch(Entered(sys, call), call.dying, call.eax); r.current in r.main && Turn(r.main, r.current) == q && r.current != x
    requires Sits(q, x, p)
    ensures var r := Switch(Entered(sys, call), call.dying, call.eax);
            x in r.main && Delay(r, x) == VisitsUntil(r.tasks, q, x, p)
  {
    var r := Switch(Entered(sys, call), call.dying, call.eax);
    hide Inv, Steady, Switch, Entered, Undisturbed, Stays, Turn, Pos, VisitsUntil;
    SwitchKeeps(sys, call);
    TurnFacts(r.main, r.current);
    PlaceOnce(q, x, p);
  }

  lemma SwitchKeeps(sys: System, call: Call)
    requires Undisturbed(sys, call)
    ensures var r := Switch(Entered(sys, call), call.dying, call.eax); Inv(r) && r.current in r.main && NoDup(r.main)
  {
    hide Inv, Switch, Entered;
    EnteredSame(sys, call);
    SwitchInv(Entered(sys, call), call.dying, call.eax);
    CurrentQueued(Switch(Entered(sys, call), call.dying, call.eax));
  }

  lemma WithoutAbove(main: seq<int>, i: nat, j: nat)
    requires i < j < |main|
    ensures var q, d, k := main[i + 1..] + main[..i + 1], main[..j] + main[j + 1..], j - i - 1;
            q[k] == main[j] && d[i + 1..] + d[..i + 1] == q[..k] + q[k + 1..]
  {
    var q, d, k := main[i + 1..] + main[..i + 1], main[..j] + main[j + 1..], j - i - 1;
    assert d[i + 1..] == main[i + 1..j] + main[j + 1..] && d[..i + 1] == main[..i + 1];
    assert q[..k] == main[i + 1..j] && q[k + 1..] == main[j + 1..] + main[..i + 1];
  }

  lemma WithoutBelow(main: seq<int>, i: nat, j: nat)
    requires j < i < |main|
    ensures var q, d, k := main[i + 1..] + main[..i + 1], main[..j] + main[j + 1..], |main| - i - 1 + j;
            q[k] == main[j] && d[i..] + d[..i] == q[..k] + q[k + 1..]
  {
    var q, d, k := main[i + 1..] + main[..i + 1], main[..j] + main[j + 1..], |main| - i - 1 + j;
    assert d[i..] == main[i + 1..] && d[..i] == main[..j] + main[j + 1..i + 1];
    assert q[..k] == main[i + 1..] + main[..j] && q[k + 1..] == main[j + 1..i + 1];
  }

  lemma TurnIsAt(main: seq<int>, c: int)
    requires c in main
    ensures var i := Pos(main, c); Turn(main, c) == main[i + 1..] + main[..i + 1]
  {
  }

  lemma DropIsAt(main: seq<int>, y: int)
    requires y in main
    ensures var j := Pos(main, y); Drop(main, y) == main[..j] + main[j + 1..]
  {
  }

  /** The turn without y, when y leaves the list. */
  lemma TurnDrop(main: seq<int>, c: int, y: int) returns (k: nat)
    requires NoDup(main) && c in main && y in main && c != y
    ensures c in Drop(main, y) && |Turn(main, c)| == |main| && k < |main|
    ensures Turn(main, c)[k] == y && Turn(Drop(main, y), c) == Turn(main, c)[..k] + Turn(main, c)[k + 1..]
  {
    hide Pos, NoDup, Turn, Drop;
    var i, j := Pos(main, c), Pos(main, y);
    DropPlace(main, c, y);
    TurnIsAt(main, c);
    TurnIsAt(Drop(main, y), c);
    DropIsAt(main, y);
    if j > i {
      WithoutAbove(main, i, j);
      k := j - i - 1;
    } else {
      WithoutBelow(main, i, j);
      k := |main| - i - 1 + j;
    }
  }

  lemma DropPlace(main: seq<int>, c: int, y: int)
    requires NoDup(main) && c in main && y in main && c != y
    ensures c in Drop(main, y) && Pos(Drop(main, y), c) == if Pos(main, y) > Pos(main, c) then Pos(main, c) else Pos(main, c) - 1
  {
    hide Pos;
    DropMembers(main, y);
    DropAt(main, y);
    var i := if Pos(main, y) > Pos(main, c) then Pos(main, c) else Pos(main, c) - 1;
    hide Drop;
    assert Drop(main, y)[i] == c;
    PosOnce(Drop(main, y), i);
  }

  lemma SitsWithout(q: seq<int>, k: nat, x: int, p: int)
    requires k < |q| && Sits(q, x, p) && q[k] != x
    ensures Sits(q[..k] + q[k + 1..], x, if p < k then p else p - 1)
  {
  }

  /** When y leaves the list, x is no further back in the turn. */
  lemma PlaceDrop(main: seq<int>, c: int, y: int, x: int)
    requires NoDup(main) && c in main && y in main && x in main && c != y && x != y
    ensures c in Drop(main, y) && x in Drop(main, y) && x in Turn(main, c) && x in Turn(Drop(main, y), c)
    ensures Pos(Turn(Drop(main, y), c), x) <= Pos(Turn(main, c), x) && |Turn(Drop(main, y), c)| < |Turn(main, c)|
  {
    var q := Turn(main, c);
    hide Turn, Pos, Drop, NoDup;
    DropMembers(main, y);
    var k := TurnDrop(main, c, y);
    TurnFacts(main, c);
    TurnFacts(Drop(main, y), c);
    PosSits(q, x);
    var p := Pos(q, x);
    SitsWithout(q, k, x, p);
    PlaceOnce(q[..k] + q[k + 1..], x, if p < k then p else p - 1);
    hide Sits;
  }

  /** A task that leaves the queue delays nobody. */
  lemma ParkCloser(sys: System, s: int, y: int, x: int)
    requires Inv(sys) && sys.current in sys.main && y in sys.main && y != sys.current && x != y && Queued(sys, x)
    ensures var r := Park(sys, s, y); Queued(r, x) && r.current in r.main && Delay(r, x) <= Delay(sys, x)
  {
    CurrentQueued(sys);
    PlaceDrop(sys.main, sys.current, y, x);
    hide Inv, Turn, Pos, Drop, NoDup, Live;
  }

  // ---------------------------------------------------------------- steps

  /** A blocking wait is switchTask, and then the task that called it parks. */
  lemma WaitCloser(sys: System, s: int, x: int)
    requires Inv(sys) && Steady(sys) && s in sys.sem && sys.sem[s].count <= 0 && sys.current != sys.kernel && sys.current != x
    requires Woken(sys, sys.order) == [] && Queued(sys, x) && sys.current in sys.main
    ensures var r := Tasking.Wait(sys, s);
            r.current == x || (Queued(r, x) && r.current in r.main && Delay(r, x) < Delay(sys, x))
  {
    var call := Call(false, false, 0);
    hide Inv, Steady, Switch, Woken, Undisturbed, Live, Park;
    CurrentQueued(sys);
    Enters(sys, call);
    SwitchCloser(sys, call, x);
    Waits(sys);
    SwitchKeeps(sys, call);
    var r := Switch(sys, false, 0);
    if r.current != x { ParkCloser(r, s, sys.current, x); }
    ParkCurrent(r, s, sys.current);
  }

  lemma ParkCurrent(sys: System, s: int, y: int)
    ensures Park(sys, s, y).current == sys.current
  {
  }

  /** The task about to wait is still queued after the switch, and is not the one chosen. */
  lemma Waits(sys: System)
    requires Inv(sys) && Steady(sys) && sys.current != sys.kernel
    ensures var r := Switch(sys, false, 0); Inv(r) && sys.current in r.main && sys.current != r.current
  {
    hide Inv, Switch, Walked, Ticked;
    SwitchInv(sys, false, 0);
    CurrentRuns(sys);
    TickedKeeps(sys, false, 0);
    SavedCalm(sys);
    WalkedParks(Ticked(sys, false, 0));
    SwitchIs(sys);
  }

  lemma SavedCalm(sys: System)
    requires sys.current in sys.tasks && sys.tasks[sys.current].status == Running
    ensures var t := Saved(sys, false, 0); t.current in t.tasks && Calm(t.tasks[t.current]) && t.tasks[t.current].status == Running
  {
  }

  /** Every other step leaves run queue and current task alone, and x as it is. */
  lemma OtherSame(st: State, step: Step, x: int)
    requires Sound(st) && Legal(st, step) && NoneJoins(st.sys, step) && !CallsSwitch(st.sys, step) && st.sys.current in st.sys.main && Queued(st.sys, x)
    ensures var r := After(st, step).sys;
            Queued(r, x) && r.current in r.main && Delay(r, x) == Delay(st.sys, x) && |r.main| == |st.sys.main|
  {
    hide Inv, Steady, Conserved, Turn, Pos;
    SameQueue(st, step, x);
  }

  lemma SameQueue(st: State, step: Step, x: int)
    requires Sound(st) && Legal(st, step) && NoneJoins(st.sys, step) && !CallsSwitch(st.sys, step) && x in st.sys.tasks
    ensures var r := After(st, step).sys; r.main == st.sys.main && r.current == st.sys.current && x in r.tasks && r.tasks[x] == st.sys.tasks[x]
  {
    hide Steady, Conserved, Switch, HeldAfterWake, Drop, Freeable, Exclusive, Placed, SemsOk;
  }

  /** A step through switchTask chooses x or brings its turn closer; the queue gets no longer. */
  lemma StepCloser(st: State, step: Step, x: int)
    requires Sound(st) && Legal(st, step) && NoneJoins(st.sys, step) && Spares(st.sys, step, x) && CallsSwitch(st.sys, step)
    requires st.sys.current in st.sys.main && Queued(st.sys, x)
    ensures var r := After(st, step).sys;
            r.current == x || (Queued(r, x) && r.current in r.main && Delay(r, x) < Delay(st.sys, x))
  {
    var sys := st.sys;
    hide Inv, Steady, Switch, Woken, Live, Conserved, HeldAfterWake, Yielded, Delay;
    CurrentQueued(sys);
    match step
    case Tick(dying, eax) => SwitchCloser(sys, Call(false, dying, eax), x);
    case GiveUp =>
      YieldKeeps(sys);
      SwitchCloser(sys, Call(true, false, 0), x);
    case SemWait(s) => WaitCloser(sys, s, x);
  }

  // ---------------------------------------------------------------- runs

  /** Over the run nothing joins the run queue, and x neither ends nor waits. */
  ghost predicate Calmly(st: State, steps: seq<Step>, x: int)
    requires Sound(st) && LegalRun(st, steps)
    decreases |steps|
  {
    steps == [] ||
    (NoneJoins(st.sys, steps[0]) && Spares(st.sys, steps[0], x) && (AfterSound(st, steps[0]); Calmly(After(st, steps[0]), steps[1..], x)))
  }

  /** How often the run calls switchTask. */
  ghost function SwitchCount(st: State, steps: seq<Step>): nat
    requires Sound(st) && LegalRun(st, steps)
    decreases |steps|
  {
    if steps == [] then 0
    else
      AfterSound(st, steps[0]);
      (if CallsSwitch(st.sys, steps[0]) then 1 else 0) + SwitchCount(After(st, steps[0]), steps[1..])
  }

  /** At some call of switchTask in the run x gets the processor. */
  ghost predicate GetsTurn(st: State, steps: seq<Step>, x: int)
    requires Sound(st) && LegalRun(st, steps)
    decreases |steps|
  {
    steps != [] &&
    (AfterSound(st, steps[0]);
     (CallsSwitch(st.sys, steps[0]) && After(st, steps[0]).sys.current == x) || GetsTurn(After(st, steps[0]), steps[1..], x))
  }

  lemma {:induction false} NoTurnYet(st: State, steps: seq<Step>, x: int)
    requires Sound(st) && LegalRun(st, steps) && Calmly(st, steps, x) && st.sys.current in st.sys.main && Queued(st.sys, x)
    requires !GetsTurn(st, steps, x)
    ensures SwitchCount(st, steps) < Delay(st.sys, x)
    decreases |steps|
  {
    hide Sound, Legal, After, NoneJoins, Spares, Live, Delay, CallsSwitch;
    if steps == [] {
      SoundBounds(st, x);
    } else {
      AfterSound(st, steps[0]);
      if CallsSwitch(st.sys, steps[0]) {
        StepCloser(st, steps[0], x);
      } else {
        OtherSame(st, steps[0], x);
      }
      NoTurnYet(After(st, steps[0]), steps[1..], x);
    }
  }

  lemma SoundBounds(st: State, x: int)
    requires Sound(st) && x in st.sys.main
    ensures st.sys.current in st.sys.main && 0 < Delay(st.sys, x) <= 2 * |st.sys.main|
  {
    hide Inv, Delay;
    CurrentQueued(st.sys);
    DelayBounds(st.sys, x);
  }

  /**
   Bounded fairness over whole runs: clock ticks, yields, new tasks and semaphore calls in any order. If
   nothing joins the run queue of n tasks, and the live task x neither ends nor waits, then x gets the
   processor within 2n calls of switchTask, those of blocking waits included.
   */
  lemma RunFair(st: State, steps: seq<Step>, x: int)
    requires Sound(st) && LegalRun(st, steps) && Calmly(st, steps, x) && Queued(st.sys, x)
    requires SwitchCount(st, steps) >= 2 * |st.sys.main|
    ensures GetsTurn(st, steps, x)
  {
    hide Sound, LegalRun, Calmly, SwitchCount, GetsTurn, Delay;
    SoundBounds(st, x);
    if !GetsTurn(st, steps, x) {
      NoTurnYet(st, steps, x);
    }
  }
}
