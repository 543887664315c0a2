/**
 The clock sweep of switchTask (kernel/src/multitasking/task.c) on values. The run queue is written
 from the entry the ring walk reaches first: the current task comes last.
 */
module Scheduler {

  datatype Status = Created | Idle | Running | Finished | Yield | Stopped | Zombie

  /** `dying` is the 0xFE11DEAD marker in the saved ecx, `eax` the saved exit value. */
  datatype Task = Task(id: int, status: Status, dying: bool, eax: int, exitcode: int)

  type Tasks = map<int, Task>

  predicate Awake(t: Task) {
    t.status == Running || t.status == Yield
  }

  /** A task the sweep will choose sooner or later. */
  predicate Live(tasks: Tasks, x: int) {
    x in tasks && (tasks[x].status == Idle || (Awake(tasks[x]) && !tasks[x].dying))
  }

  predicate IsIdle(tasks: Tasks, x: int) {
    x in tasks && tasks[x].status == Idle
  }

  predicate Dead(tasks: Tasks, x: int) {
    x in tasks && (tasks[x].status == Zombie || tasks[x].status == Finished)
  }

  ghost predicate Known(tasks: Tasks, q: seq<int>) {
    forall i :: 0 <= i < |q| ==> q[i] in tasks
  }

  ghost predicate NoDup(q: seq<int>) {
    forall i, j :: 0 <= i < j < |q| ==> q[i] != q[j]
  }

  function Rotate(q: seq<int>): seq<int>
    requires q != []
  {
    q[1..] + [q[0]]
  }

  /** The switch statement of lines 68-98 for the task at hand; a destroyed task keeps its last state. */
  function Touched(kernel: int, x: int, t: Task): Task {
    match t.status
    case Yield => if t.dying then t.(dying := false, status := Zombie, exitcode := t.eax) else t.(status := Idle)
    case Running => if t.dying then t.(dying := false, status := Zombie, exitcode := t.eax) else t.(status := Idle)
    case Idle => t.(status := Running)
    case _ => t
  }

  /** Lines 85-97: a finished task other than the kernel task is destroyed. */
  predicate Destroyed(kernel: int, x: int, t: Task) {
    (t.status == Zombie || t.status == Finished) && x != kernel
  }

  /** One ring visit: the records and the queue after it, the visited task at the back unless it was destroyed. */
  function Visit(kernel: int, tasks: Tasks, q: seq<int>): (Tasks, seq<int>)
    requires q != [] && q[0] in tasks
  {
    var x := q[0];
    if Destroyed(kernel, x, tasks[x]) then (tasks - {x}, q[1..])
    else (tasks[x := Touched(kernel, x, tasks[x])], Rotate(q))
  }

  function FirstIdle(tasks: Tasks, q: seq<int>): (k: nat)
    ensures k <= |q| && (k < |q| ==> IsIdle(tasks, q[k])) && forall i :: 0 <= i < k ==> !IsIdle(tasks, q[i])
  {
    if q == [] || IsIdle(tasks, q[0]) then 0 else 1 + FirstIdle(tasks, q[1..])
  }

  function FirstLive(tasks: Tasks, q: seq<int>): (k: nat)
    ensures k <= |q| && (k < |q| ==> Live(tasks, q[k])) && forall i :: 0 <= i < k ==> !Live(tasks, q[i])
  {
    if q == [] || Live(tasks, q[0]) then 0 else 1 + FirstLive(tasks, q[1..])
  }

  /** How many more visits the sweep can take. */
  function Left(tasks: Tasks, q: seq<int>): nat {
    var i := FirstIdle(tasks, q);
    if i < |q| then i + 1 else |q| + FirstLive(tasks, q) + 1
  }

  ghost predicate SomeLive(tasks: Tasks, q: seq<int>) {
    exists x :: x in q && Live(tasks, x)
  }

  lemma LeftAtMostTwoRounds(tasks: Tasks, q: seq<int>)
    requires SomeLive(tasks, q)
    ensures Left(tasks, q) <= 2 * |q|
  {
    var x :| x in q && Live(tasks, x);
    var j :| 0 <= j < |q| && q[j] == x;
    assert FirstLive(tasks, q) <= j;
  }

  /** x is at position p of the queue and nowhere else. */
  predicate Sits(q: seq<int>, x: int, p: int) {
    0 <= p < |q| && q[p] == x
  }

  /** Position and record of x after a visit to some other task. */
  lemma VisitOther(kernel: int, tasks: Tasks, q: seq<int>, x: int, p: int)
    requires Known(tasks, q) && NoDup(q) && Sits(q, x, p) && p > 0
    ensures var (tasks', q') := Visit(kernel, tasks, q);
            Sits(q', x, p - 1) && x in tasks' && tasks'[x] == tasks[x] && |q| - 1 <= |q'| <= |q|
  {
    assert q[0] != q[p];
  }

  lemma VisitKeeps(kernel: int, tasks: Tasks, q: seq<int>)
    requires Known(tasks, q) && NoDup(q) && q != []
    ensures var (tasks', q') := Visit(kernel, tasks, q); Known(tasks', q') && NoDup(q')
  {
    var (tasks', q') := Visit(kernel, tasks, q);
    forall i | 0 <= i < |q'| ensures q'[i] in tasks' {
      assert q'[i] == if i + 1 < |q| then q[i + 1] else q[0];
    }
  }

  /** Every visit that does not choose brings the choice closer. */
  lemma VisitProgress(kernel: int, tasks: Tasks, q: seq<int>)
    requires Known(tasks, q) && NoDup(q) && SomeLive(tasks, q) && q != [] && !IsIdle(tasks, q[0])
    ensures var (tasks', q') := Visit(kernel, tasks, q);
            Known(tasks', q') && NoDup(q') && SomeLive(tasks', q') && Left(tasks', q') < Left(tasks, q)
  {
    var (tasks', q') := Visit(kernel, tasks, q);
    VisitKeeps(kernel, tasks, q);
    var i := FirstIdle(tasks, q);
    if i < |q| {
      VisitOther(kernel, tasks, q, q[i], i);
      assert Live(tasks', q'[i - 1]) && IsIdle(tasks', q'[i - 1]);
    } else {
      var x :| x in q && Live(tasks, x);
      var j := FirstLive(tasks, q);
      assert j < |q|;
      if j == 0 {
        assert q'[|q| - 1] == q[0] && IsIdle(tasks', q[0]) && Live(tasks', q[0]);
      } else {
        VisitOther(kernel, tasks, q, q[j], j);
        assert Live(tasks', q'[j - 1]);
      }
    }
  }

  datatype Choice = Choice(tasks: Tasks, queue: seq<int>, visits: nat)

  /** The walk of lines 65-104. The chosen task ends up last, which is where the next walk expects the current task. */
  function Sweep(kernel: int, tasks: Tasks, q: seq<int>): (c: Choice)
    requires Known(tasks, q) && NoDup(q) && SomeLive(tasks, q)
    ensures c.visits <= Left(tasks, q)
    decreases Left(tasks, q)
  {
    var (tasks', q') := Visit(kernel, tasks, q);
    if IsIdle(tasks, q[0]) then Choice(tasks', q', 1)
    else
      VisitProgress(kernel, tasks, q);
      var c := Sweep(kernel, tasks', q');
      c.(visits := c.visits + 1)
  }

  // ---------------------------------------------------------------- what the choice is

  /** The task a choice ends with. */
  function Chosen(c: Choice): int
    requires c.queue != []
  {
    c.queue[|c.queue| - 1]
  }

  /** The chosen task is running, is last in the queue, and was live; nobody joins, and whoever leaves was finished and is destroyed. */
  ghost predicate Outcome(kernel: int, tasks: Tasks, q: seq<int>, c: Choice) {
    && 1 <= c.visits && Known(c.tasks, c.queue) && NoDup(c.queue) && c.queue != []
    && Live(tasks, Chosen(c)) && c.tasks[Chosen(c)].status == Running
    && (forall x :: x in c.queue ==> x in q) && (forall x :: x in c.tasks ==> x in tasks)
    && (forall x :: x in q && x !in c.queue ==> x !in c.tasks && x != kernel && x in tasks && !Live(tasks, x))
    && (forall x :: x in tasks && x !in q ==> x in c.tasks && c.tasks[x] == tasks[x])
    && (forall x :: x in q && Live(tasks, x) ==> x in c.queue && (x != Chosen(c) ==> Live(c.tasks, x)))
  }

  lemma OutcomeNow(kernel: int, tasks: Tasks, q: seq<int>)
    requires Known(tasks, q) && NoDup(q) && q != [] && IsIdle(tasks, q[0])
    ensures var (tasks', q') := Visit(kernel, tasks, q); Outcome(kernel, tasks, q, Choice(tasks', q', 1))
  {
    var (tasks', q') := Visit(kernel, tasks, q);
    VisitKeeps(kernel, tasks, q);
    VisitMembers(kernel, tasks, q);
    assert q'[|q'| - 1] == q[0];
  }

  lemma OutcomeLater(kernel: int, tasks: Tasks, q: seq<int>, c: Choice)
    requires Known(tasks, q) && NoDup(q) && q != [] && !IsIdle(tasks, q[0])
    requires var (tasks', q') := Visit(kernel, tasks, q); Outcome(kernel, tasks', q', c)
    ensures Outcome(kernel, tasks, q, c.(visits := c.visits + 1))
  {
    hide Visit, NoDup;
    var (tasks', q') := Visit(kernel, tasks, q);
    VisitMembers(kernel, tasks, q);
    assert q[0] in q;
  }

  lemma {:induction false} SweepChooses(kernel: int, tasks: Tasks, q: seq<int>)
    requires Known(tasks, q) && NoDup(q) && SomeLive(tasks, q)
    ensures Outcome(kernel, tasks, q, Sweep(kernel, tasks, q))
    decreases Left(tasks, q)
  {
    hide Outcome, Visit;
    var (tasks', q') := Visit(kernel, tasks, q);
    if IsIdle(tasks, q[0]) {
      OutcomeNow(kernel, tasks, q);
    } else {
      VisitProgress(kernel, tasks, q);
      SweepChooses(kernel, tasks', q');
      OutcomeLater(kernel, tasks, q, Sweep(kernel, tasks', q'));
    }
  }

  lemma VisitMembers(kernel: int, tasks: Tasks, q: seq<int>)
    requires Known(tasks, q) && NoDup(q) && q != []
    ensures var (tasks', q') := Visit(kernel, tasks, q);
            && (forall x :: x in q' <==> x in q && (x != q[0] || !Destroyed(kernel, x, tasks[x])))
            && (forall x :: x in tasks && x != q[0] ==> x in tasks' && tasks'[x] == tasks[x])
            && (forall x :: x in tasks' ==> x in tasks)
            && (q[0] in tasks' <==> !Destroyed(kernel, q[0], tasks[q[0]]))
            && (!IsIdle(tasks, q[0]) && q[0] in tasks' ==> (Live(tasks', q[0]) <==> Live(tasks, q[0])))
  {
    assert q == [q[0]] + q[1..];
  }

  // ---------------------------------------------------------------- when there is nothing to choose

  /** The first k visits, stopping at a choice. */
  function Walk(kernel: int, tasks: Tasks, q: seq<int>, k: nat): (Tasks, seq<int>)
    requires Known(tasks, q) && NoDup(q)
    decreases k
  {
    if k == 0 || q == [] || IsIdle(tasks, q[0]) then (tasks, q)
    else
      VisitKeeps(kernel, tasks, q);
      var (tasks', q') := Visit(kernel, tasks, q);
      Walk(kernel, tasks', q', k - 1)
  }

  /** Without a live task no visit ever chooses: the walk of line 65 empties the ring or goes round for ever. */
  lemma {:induction false} NothingToChoose(kernel: int, tasks: Tasks, q: seq<int>, k: nat)
    requires Known(tasks, q) && NoDup(q) && !SomeLive(tasks, q)
    ensures var (tasks', q') := Walk(kernel, tasks, q, k);
            (q' != [] ==> q'[0] in tasks' && !IsIdle(tasks', q'[0])) && (kernel in q ==> kernel in q')
    decreases k
  {
    if q != [] { assert q[0] in q; }
    if k != 0 && q != [] {
      assert !IsIdle(tasks, q[0]);
      VisitKeeps(kernel, tasks, q);
      VisitMembers(kernel, tasks, q);
      var (tasks', q') := Visit(kernel, tasks, q);
      forall x | x in q' ensures !Live(tasks', x) { assert x in q; }
      NothingToChoose(kernel, tasks', q', k - 1);
    }
  }

  // ---------------------------------------------------------------- the task that was current

  /** x will be chosen before the walk reaches task c while it is finished. */
  predicate Shields(tasks: Tasks, q: seq<int>, x: int, j: int, c: int, p: int) {
    && x != c && Sits(q, x, j) && Sits(q, c, p)
    && if IsIdle(tasks, x) then j < p || !Dead(tasks, c) else Live(tasks, x) && j < p && !Dead(tasks, c)
  }

  /** A task that has not finished yet is not destroyed as long as some other live task shields it. */
  lemma {:induction false} ShieldedSurvives(kernel: int, tasks: Tasks, q: seq<int>, x: int, j: int, c: int, p: int)
    requires Known(tasks, q) && NoDup(q) && SomeLive(tasks, q) && Shields(tasks, q, x, j, c, p)
    ensures c in Sweep(kernel, tasks, q).queue
    decreases Left(tasks, q)
  {
    hide NoDup;
    var (tasks', q') := Visit(kernel, tasks, q);
    if IsIdle(tasks, q[0]) {
      VisitMembers(kernel, tasks, q);
    } else {
      VisitProgress(kernel, tasks, q);
      if p > 0 { VisitOther(kernel, tasks, q, c, p); }
      if j > 0 { VisitOther(kernel, tasks, q, x, j); }
      assert p == 0 ==> Sits(q', c, |q'| - 1);
      assert j == 0 ==> Sits(q', x, |q'| - 1);
      ShieldedSurvives(kernel, tasks', q', x, if j == 0 then |q'| - 1 else j - 1, c, if p == 0 then |q'| - 1 else p - 1);
    }
  }

  /** switchTask never destroys the task that was current while another live task is queued. */
  lemma CurrentSurvives(kernel: int, tasks: Tasks, q: seq<int>, x: int)
    requires Known(tasks, q) && NoDup(q) && q != [] && !Dead(tasks, q[|q| - 1])
    requires x in q && x != q[|q| - 1] && Live(tasks, x)
    ensures SomeLive(tasks, q) && q[|q| - 1] in Sweep(kernel, tasks, q).queue
  {
    var j :| 0 <= j < |q| && q[j] == x;
    ShieldedSurvives(kernel, tasks, q, x, j, q[|q| - 1], |q| - 1);
  }

  // ---------------------------------------------------------------- fairness

  /** How many more visits it takes at most to choose x. */
  function VisitsUntil(tasks: Tasks, q: seq<int>, x: int, p: int): int {
    if IsIdle(tasks, x) then p + 1 else |q| + p + 1
  }

  /** x is chosen by the walk, or the walk has brought its turn closer. */
  lemma {:induction false} SweepApproaches(kernel: int, tasks: Tasks, q: seq<int>, x: int, p: int)
    requires Known(tasks, q) && NoDup(q) && Sits(q, x, p) && Live(tasks, x) && SomeLive(tasks, q)
    ensures var c := Sweep(kernel, tasks, q);
            c.queue != [] && (Chosen(c) == x || exists p' :: Sits(c.queue, x, p') && Live(c.tasks, x) && VisitsUntil(c.tasks, c.queue, x, p') < VisitsUntil(tasks, q, x, p))
    decreases Left(tasks, q)
  {
    hide NoDup;
    var (tasks', q') := Visit(kernel, tasks, q);
    var p' := if p > 0 then p - 1 else |q'| - 1;
    VisitApproaches(kernel, tasks, q, x, p);
    if !IsIdle(tasks, q[0]) {
      VisitProgress(kernel, tasks, q);
      hide Visit, VisitsUntil, Live, Left, SomeLive, IsIdle;
      SweepApproaches(kernel, tasks', q', x, p');
    }
  }

  /** One visit: x is idle and first, or its turn comes closer. */
  lemma VisitApproaches(kernel: int, tasks: Tasks, q: seq<int>, x: int, p: int)
    requires Known(tasks, q) && NoDup(q) && Sits(q, x, p) && Live(tasks, x) && SomeLive(tasks, q)
    ensures var (tasks', q') := Visit(kernel, tasks, q);
            var p' := if p > 0 then p - 1 else |q'| - 1;
            && (p == 0 ==> q[0] == x && q' != [] && q'[|q'| - 1] == x)
            && ((p == 0 && IsIdle(tasks, x)) || (Sits(q', x, p') && Live(tasks', x) && VisitsUntil(tasks', q', x, p') < VisitsUntil(tasks, q, x, p)))
  {
    hide NoDup;
    var (tasks', q') := Visit(kernel, tasks, q);
    if p > 0 {
      VisitOther(kernel, tasks, q, x, p);
    } else {
      assert q' == Rotate(q) && Sits(q', x, |q'| - 1);
    }
  }

  /** What may happen between two calls of switchTask: tasks leave the queue, records change, x stays, live and as idle as it was. */
  ghost predicate Between(tasks: Tasks, q: seq<int>, tasks': Tasks, q': seq<int>, x: int) {
    && Known(tasks', q') && NoDup(q') && Live(tasks', x) && (IsIdle(tasks', x) <==> IsIdle(tasks, x))
    && |q'| <= |q| && (forall p :: Sits(q, x, p) ==> exists p' :: Sits(q', x, p') && p' <= p)
  }

  datatype Moment = Moment(tasks: Tasks, queue: seq<int>)

  ghost predicate Ready(m: Moment, x: int) {
    Known(m.tasks, m.queue) && NoDup(m.queue) && x in m.queue && Live(m.tasks, x)
  }

  /** The moments just before calls of switchTask, x on the queue and live at each. */
  ghost predicate Calls(kernel: int, ms: seq<Moment>, x: int) {
    && (forall i :: 0 <= i < |ms| ==> Ready(ms[i], x))
    && (forall i, j :: 0 <= i && j == i + 1 && j < |ms| ==> Follows(kernel, ms[i], ms[j], x))
  }

  ghost predicate Follows(kernel: int, m: Moment, m': Moment, x: int) {
    Known(m.tasks, m.queue) && NoDup(m.queue) && SomeLive(m.tasks, m.queue) &&
    var c := Sweep(kernel, m.tasks, m.queue); Between(c.tasks, c.queue, m'.tasks, m'.queue, x)
  }

  ghost predicate Picks(kernel: int, m: Moment, x: int) {
    Known(m.tasks, m.queue) && NoDup(m.queue) && SomeLive(m.tasks, m.queue) &&
    var c := Sweep(kernel, m.tasks, m.queue); c.queue != [] && Chosen(c) == x
  }

  lemma {:induction false} NotPickedYet(kernel: int, ms: seq<Moment>, x: int, p: int)
    requires Calls(kernel, ms, x) && ms != [] && Sits(ms[0].queue, x, p)
    requires forall i :: 0 <= i < |ms| ==> !Picks(kernel, ms[i], x)
    ensures |ms| < VisitsUntil(ms[0].tasks, ms[0].queue, x, p)
    decreases |ms|
  {
    var m := ms[0];
    assert Ready(m, x) && !Picks(kernel, m, x);
    SweepApproaches(kernel, m.tasks, m.queue, x, p);
    var c := Sweep(kernel, m.tasks, m.queue);
    var p1 :| Sits(c.queue, x, p1) && Live(c.tasks, x) && VisitsUntil(c.tasks, c.queue, x, p1) < VisitsUntil(m.tasks, m.queue, x, p);
    if |ms| > 1 {
      var n := ms[1];
      assert Follows(kernel, m, n, x);
      var p2 :| Sits(n.queue, x, p2) && p2 <= p1;
      forall i | 0 <= i < |ms[1..]| ensures Ready(ms[1..][i], x) && !Picks(kernel, ms[1..][i], x) { assert ms[1..][i] == ms[i + 1]; }
      NotPickedYet(kernel, ms[1..], x, p2);
    }
  }

  /** Bounded fairness: among 2n calls one chooses x, when n tasks are queued at the first and none joins. */
  lemma Fair(kernel: int, ms: seq<Moment>, x: int)
    requires Calls(kernel, ms, x) && ms != [] && |ms| >= 2 * |ms[0].queue|
    ensures exists i :: 0 <= i < |ms| && Picks(kernel, ms[i], x)
  {
    assert Ready(ms[0], x);
    var p :| 0 <= p < |ms[0].queue| && ms[0].queue[p] == x;
    assert Sits(ms[0].queue, x, p);
    if forall i :: 0 <= i < |ms| ==> !Picks(kernel, ms[i], x) {
      NotPickedYet(kernel, ms, x, p);
    }
  }

  // ---------------------------------------------------------------- records

  /** Not finished and not about to. */
  predicate Sane(t: Task) {
    !t.dying && (t.status == Idle || t.status == Running || t.status == Yield)
  }

  predicate Calm(t: Task) {
    !t.dying && (t.status == Idle || t.status == Running)
  }

  predicate Queueable(st: Status) {
    st != Created && st != Stopped
  }

  /** What the walk does to a record never finishes a task that was not about to, and keeps a status that belongs on a queue. */
  predicate Kept(t: Task, t': Task) {
    && (Sane(t) ==> Sane(t')) && (Calm(t) ==> Calm(t')) && (Queueable(t.status) ==> Queueable(t'.status)) && t'.id == t.id
  }

  lemma VisitRecord(kernel: int, tasks: Tasks, q: seq<int>, x: int)
    requires Known(tasks, q) && NoDup(q) && q != [] && x in q && x in tasks
    ensures var (tasks', q') := Visit(kernel, tasks, q);
            (x in q' ==> x in tasks' && Kept(tasks[x], tasks'[x])) && (Sane(tasks[x]) ==> x in q')
  {
    VisitMembers(kernel, tasks, q);
  }

  /** A task that has not finished stays on the queue. */
  lemma {:induction false} SweepRecords(kernel: int, tasks: Tasks, q: seq<int>, x: int)
    requires Known(tasks, q) && NoDup(q) && SomeLive(tasks, q) && x in q && x in tasks
    ensures var c := Sweep(kernel, tasks, q);
            (x in c.queue ==> x in c.tasks && Kept(tasks[x], c.tasks[x])) && (Sane(tasks[x]) ==> x in c.queue)
    decreases Left(tasks, q)
  {
    hide Visit, NoDup, Outcome;
    var (tasks', q') := Visit(kernel, tasks, q);
    VisitRecord(kernel, tasks, q, x);
    if !IsIdle(tasks, q[0]) {
      VisitProgress(kernel, tasks, q);
      if x in q' {
        SweepRecords(kernel, tasks', q', x);
      } else {
        SweepChooses(kernel, tasks', q');
        Members(kernel, tasks', q', Sweep(kernel, tasks', q'));
      }
    }
  }

  lemma Members(kernel: int, tasks: Tasks, q: seq<int>, c: Choice)
    requires Outcome(kernel, tasks, q, c)
    ensures forall x :: x in c.queue ==> x in q
  {
  }

  /** c, not idle at the start, is not the choice of a walk that another live task shields. */
  predicate Screens(tasks: Tasks, q: seq<int>, x: int, j: int, c: int, p: int) {
    && x != c && Sits(q, x, j) && Sits(q, c, p)
    && if IsIdle(tasks, x) then j < p || !IsIdle(tasks, c) else Live(tasks, x) && j < p && !IsIdle(tasks, c)
  }

  lemma SitsOnce(q: seq<int>, x: int, p: int)
    requires NoDup(q) && Sits(q, x, p)
    ensures q[0] == x <==> p == 0
  {
  }

  lemma {:induction false} ScreenedNotChosen(kernel: int, tasks: Tasks, q: seq<int>, x: int, j: int, c: int, p: int)
    requires Known(tasks, q) && NoDup(q) && SomeLive(tasks, q) && Screens(tasks, q, x, j, c, p)
    ensures Sweep(kernel, tasks, q).queue != [] && Chosen(Sweep(kernel, tasks, q)) != c
    decreases Left(tasks, q)
  {
    hide NoDup;
    var (tasks', q') := Visit(kernel, tasks, q);
    if IsIdle(tasks, q[0]) {
      assert q'[|q'| - 1] == q[0];
      SitsOnce(q, c, p);
    } else {
      VisitProgress(kernel, tasks, q);
      if p == 0 && Destroyed(kernel, c, tasks[c]) {
        VisitMembers(kernel, tasks, q);
        SweepChooses(kernel, tasks', q');
        assert Chosen(Sweep(kernel, tasks', q')) in Sweep(kernel, tasks', q').queue;
      } else {
        if p > 0 { VisitOther(kernel, tasks, q, c, p); }
        if j > 0 { VisitOther(kernel, tasks, q, x, j); }
        assert p == 0 ==> Sits(q', c, |q'| - 1);
        assert j == 0 ==> Sits(q', x, |q'| - 1);
        ScreenedNotChosen(kernel, tasks', q', x, if j == 0 then |q'| - 1 else j - 1, c, if p == 0 then |q'| - 1 else p - 1);
      }
    }
  }
}
