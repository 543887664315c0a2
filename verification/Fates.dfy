/** What a walk of switchTask makes of every task, said of the records before and after it alone. */
module Fates {
  import opened Scheduler

  /** None of the first n entries is idle: the walk passes them all. */
  ghost predicate NoneIdle(tasks: Tasks, q: seq<int>, n: nat)
    requires n <= |q|
  {
    forall i :: 0 <= i < n ==> q[i] in tasks && tasks[q[i]].status != Idle
  }

  /** None of the first n entries will ever be idle: each has finished, is about to, or never ran. */
  ghost predicate NoneReturns(tasks: Tasks, q: seq<int>, n: nat)
    requires n <= |q|
  {
    forall i :: 0 <= i < n ==> q[i] in tasks && tasks[q[i]].status != Idle && ((tasks[q[i]].status == Running || tasks[q[i]].status == Yield) ==> tasks[q[i]].dying)
  }

  ghost predicate Gone(c: Choice, x: int) {
    x !in c.queue && x !in c.tasks
  }

  /** x is still queued, and its record is t. */
  ghost predicate Remains(c: Choice, x: int, t: Task) {
    x in c.queue && x in c.tasks && c.tasks[x] == t
  }

  /**
   The task at position p of the queue. Behind an idle task it is not reached. An idle task that is
   reached is chosen. A finished task that is reached is destroyed, unless it is the kernel task. A
   task that has called exit is a zombie with its exit value, and is destroyed on the second round if
   there is one that reaches it. Any other running task is idle, or runs again when nobody was idle
   and it is the first that can.
   */
  ghost predicate Fate(kernel: int, tasks: Tasks, q: seq<int>, p: nat, c: Choice)
    requires p < |q| && q[p] in tasks
  {
    var x, t := q[p], tasks[q[p]];
    if !NoneIdle(tasks, q, p) then Remains(c, x, t) && c.queue != [] && Chosen(c) != x
    else match t.status
      case Idle => Remains(c, x, t.(status := Running)) && Chosen(c) == x
      case Zombie => if x == kernel then Remains(c, x, t) else Gone(c, x)
      case Finished => if x == kernel then Remains(c, x, t) else Gone(c, x)
      case Created => Remains(c, x, t)
      case Stopped => Remains(c, x, t)
      case _ =>
        var second := NoneIdle(tasks, q, |q|) && NoneReturns(tasks, q, p);
        if !t.dying then Remains(c, x, t.(status := if second then Running else Idle)) && (Chosen(c) == x <==> second)
        else if second && x != kernel then Gone(c, x)
        else Remains(c, x, t.(dying := false, status := Zombie, exitcode := t.eax))
  }

  lemma ShiftIdle(kernel: int, tasks: Tasks, q: seq<int>, n: nat)
    requires Known(tasks, q) && NoDup(q) && q != [] && !IsIdle(tasks, q[0]) && 1 <= n <= |q|
    ensures var (tasks', q') := Visit(kernel, tasks, q);
            && n - 1 <= |q'| && (NoneIdle(tasks, q, n) <==> NoneIdle(tasks', q', n - 1))
            && (!Live(tasks, q[0]) ==> (NoneReturns(tasks, q, n) <==> NoneReturns(tasks', q', n - 1)))
  {
    var (tasks', q') := Visit(kernel, tasks, q);
    assert forall i :: 0 <= i < n - 1 ==> q'[i] == q[i + 1] && q[i + 1] != q[0] && tasks'[q'[i]] == tasks[q[i + 1]];
    assert forall i :: 0 < i < n ==> q[i] == q'[i - 1];
  }

  lemma FateNow(kernel: int, tasks: Tasks, q: seq<int>, p: nat)
    requires Known(tasks, q) && NoDup(q) && SomeLive(tasks, q) && p < |q| && IsIdle(tasks, q[0])
    ensures Fate(kernel, tasks, q, p, Sweep(kernel, tasks, q))
  {
    var (tasks', q') := Visit(kernel, tasks, q);
    assert q'[|q'| - 1] == q[0];
    if p > 0 {
      assert q[0] != q[p] && q'[p - 1] == q[p];
      assert !NoneIdle(tasks, q, p);
    }
  }

  /** The whole round, without and with the task that is visited now. */
  lemma ShiftRound(kernel: int, tasks: Tasks, q: seq<int>)
    requires Known(tasks, q) && NoDup(q) && q != [] && !IsIdle(tasks, q[0])
    ensures var (tasks', q') := Visit(kernel, tasks, q);
            NoneIdle(tasks', q', |q'|) <==> NoneIdle(tasks, q, |q|) && !Live(tasks, q[0])
  {
    var (tasks', q') := Visit(kernel, tasks, q);
    ShiftIdle(kernel, tasks, q, |q|);
    hide NoDup;
    assert |q'| == |q| ==> q'[|q| - 1] == q[0];
    assert Live(tasks, q[0]) ==> IsIdle(tasks', q[0]) && |q'| == |q|;
  }

  lemma FateBehind(kernel: int, tasks: Tasks, q: seq<int>, p: nat, c: Choice)
    requires Known(tasks, q) && NoDup(q) && 0 < p < |q| && !IsIdle(tasks, q[0])
    requires var (tasks', q') := Visit(kernel, tasks, q);
             p - 1 < |q'| && q'[p - 1] in tasks' && Fate(kernel, tasks', q', p - 1, c)
    ensures Fate(kernel, tasks, q, p, c)
  {
    var (tasks', q') := Visit(kernel, tasks, q);
    VisitOther(kernel, tasks, q, q[p], p);
    ShiftIdle(kernel, tasks, q, p);
    ShiftRound(kernel, tasks, q);
    hide Visit, NoDup, NoneIdle, Known;
    assert Live(tasks, q[0]) ==> !NoneReturns(tasks, q, p);
  }

  lemma FateTurned(kernel: int, tasks: Tasks, q: seq<int>, c: Choice)
    requires Known(tasks, q) && NoDup(q) && q != [] && !IsIdle(tasks, q[0]) && !Destroyed(kernel, q[0], tasks[q[0]])
    requires var (tasks', q') := Visit(kernel, tasks, q);
             q' != [] && q'[|q'| - 1] in tasks' && Fate(kernel, tasks', q', |q'| - 1, c)
    ensures Fate(kernel, tasks, q, 0, c)
  {
    var (tasks', q') := Visit(kernel, tasks, q);
    ShiftIdle(kernel, tasks, q, |q|);
    assert q' == Rotate(q) && q'[|q'| - 1] == q[0] && tasks'[q[0]] == Touched(kernel, q[0], tasks[q[0]]);
    ShiftRound(kernel, tasks, q);
    hide Visit, NoDup, Known, Rotate;
    OwnRound(tasks, q);
  }

  lemma OwnRound(tasks: Tasks, q: seq<int>)
    requires q != []
    ensures NoneIdle(tasks, q, 0) && NoneReturns(tasks, q, 0)
  {
  }

  lemma FateDead(kernel: int, tasks: Tasks, q: seq<int>, c: Choice)
    requires Known(tasks, q) && NoDup(q) && q != [] && Destroyed(kernel, q[0], tasks[q[0]])
    requires var (tasks', q') := Visit(kernel, tasks, q); Outcome(kernel, tasks', q', c)
    ensures Fate(kernel, tasks, q, 0, c)
  {
    VisitMembers(kernel, tasks, q);
  }

  /** The fate of every queued task, for every queue and every walk: who is destroyed, who is a zombie, who is idle, who runs. */
  lemma {:induction false} SweepFates(kernel: int, tasks: Tasks, q: seq<int>, p: nat)
    requires Known(tasks, q) && NoDup(q) && SomeLive(tasks, q) && p < |q| && q[p] in tasks
    ensures Fate(kernel, tasks, q, p, Sweep(kernel, tasks, q))
    decreases Left(tasks, q)
  {
    hide NoDup, Fate, Outcome;
    var (tasks', q') := Visit(kernel, tasks, q);
    if IsIdle(tasks, q[0]) {
      FateNow(kernel, tasks, q, p);
    } else {
      VisitProgress(kernel, tasks, q);
      var c := Sweep(kernel, tasks', q');
      if p > 0 {
        SweepFates(kernel, tasks', q', p - 1);
        FateBehind(kernel, tasks, q, p, c);
        SameFate(kernel, tasks, q, p, c, c.visits + 1);
      } else if Destroyed(kernel, q[0], tasks[q[0]]) {
        SweepChooses(kernel, tasks', q');
        FateDead(kernel, tasks, q, c);
        SameFate(kernel, tasks, q, p, c, c.visits + 1);
      } else {
        SweepFates(kernel, tasks', q', |q'| - 1);
        FateTurned(kernel, tasks, q, c);
        SameFate(kernel, tasks, q, p, c, c.visits + 1);
      }
    }
  }

  lemma SameFate(kernel: int, tasks: Tasks, q: seq<int>, p: nat, c: Choice, visits: nat)
    requires p < |q| && q[p] in tasks && Fate(kernel, tasks, q, p, c)
    ensures Fate(kernel, tasks, q, p, c.(visits := visits))
  {
  }
}
