/** The scheduler and the semaphores of the kernel, proved against Tasking and TaskingRuns. */
module KernelTasks {
  import opened LinkedLists
  import opened RingSets
  import opened Scheduler
  import opened Tasking
  import opened TaskCalls
  import opened TaskingRuns
  import opened TaskSystem

  class Kernel {
    const ram: Ram
    const mainQueue: int
    const semQueue: int
    var tasks: Tasks
    var sems: map<int, Sem>
    var currentTask: int
    var kernelTask: int
    var nextPID: int
    var nextSemaphoreID: int
    ghost var sys: System
    ghost var lists: map<int, seq<int>>
    ghost var cells: set<int>

    /** The fields are those of the abstract state. */
    ghost predicate Mirrors()
      reads this
    {
      && sys.tasks == tasks && sys.sem == sems && sys.current == currentTask && sys.kernel == kernelTask
      && sys.nextPID == nextPID && sys.nextSem == nextSemaphoreID
    }

    /** Everything but the status of the task that is just giving up the processor. */
    ghost predicate Consistent()
      reads this, ram
    {
      Mirrors() && Inv(sys) && Holds(ram.w, lists, sys, mainQueue, semQueue, cells)
    }

    ghost predicate Valid()
      reads this, ram
    {
      Consistent() && Steady(sys)
    }

    /** initTasking, with the run of runTask on the kernel task. */
    constructor InitTasking(ram: Ram, mainQueue: int, semQueue: int, kernel: int)
      requires mainQueue != semQueue && kernel != mainQueue && kernel != semQueue && Layout(ram.w, {mainQueue, semQueue, kernel})
      modifies ram
      ensures Valid() && sys == Boot(kernel) && this.ram == ram && this.mainQueue == mainQueue && this.semQueue == semQueue
    {
      this.ram := ram;
      this.mainQueue := mainQueue;
      this.semQueue := semQueue;
      tasks := map[kernel := Task(0, Idle, false, 0, 0)];
      sems := map[];
      currentTask := kernel;
      kernelTask := kernel;
      nextPID := 1;
      nextSemaphoreID := 1;
      sys := Boot(kernel);
      cells := {mainQueue, semQueue, kernel};
      lists := map[mainQueue := [kernel], semQueue := []];
      new;
      hide Inv, Steady, Holds, Boot, Layout;
      BootIs(kernel);
      InitQueues(ram, mainQueue, semQueue, kernel);
      BootSound(kernel);
      SoundParts(kernel);
    }

    /** The list_heads of initTasking, and insertTask of the kernel task. */
    static method InitQueues(ram: Ram, mainQueue: int, semQueue: int, kernel: int)
      requires mainQueue != semQueue && kernel != mainQueue && kernel != semQueue && Layout(ram.w, {mainQueue, semQueue, kernel})
      modifies ram
      ensures Holds(ram.w, map[mainQueue := [kernel], semQueue := []], Boot(kernel), mainQueue, semQueue, {mainQueue, semQueue, kernel})
    {
      hide Ring, Rings, Holds, Link, Outside, InsertAt, Boot, Layout;
      BootLists(ram.w, mainQueue, semQueue, kernel);
      ram.InitListHead(mainQueue);
      ram.InitListHead(semQueue);
      ram.ListAddTail(kernel, mainQueue, mainQueue, [], 0);
    }

    /** semctl_process, lines 21-28, for one semaphore. */
    method ProcessSemaphore(s: int)
      requires Consistent() && s in sys.sem
      modifies this, ram
      ensures Consistent() && cells == old(cells) && kernelTask == old(kernelTask)
      ensures s in old(sys).waiters && sys == WakeOne(old(sys), s)
    {
      hide Inv, Holds, Ring, RingsApart, WakeOne, Link, Unlink, RemoveAt, InsertAt, QueueHead;
      ghost var before := sys;
      QueueRings(ram.w, lists, before, mainQueue, semQueue, cells, s);
      WakeOneKeeps(before, s);
      var empty := ram.ListEmpty(QueueHead(s), before.waiters[s]);
      if sems[s].count > 0 && !empty {
        WakeStep(ram.w, lists, before, mainQueue, semQueue, cells, s);
        QueueFront(ram.w, QueueHead(s), before.waiters[s]);
        var task := ram.w[QueueHead(s)];
        sems := sems[s := sems[s].(count := sems[s].count - 1)];
        ram.ListMoveTail(task, mainQueue, before.main, QueueHead(s), before.waiters[s], 0);
        lists := lists[QueueHead(s) := before.waiters[s][1..]][mainQueue := before.main + [before.waiters[s][0]]];
        WakeIs(before, s);
        sys := WakeOne(before, s);
      } else {
        WakeIsNot(before, s);
      }
    }

    /** semctl_process: walks the list of semaphores once. */
    method SemctlProcess()
      requires Consistent()
      modifies this, ram
      ensures Consistent() && cells == old(cells) && kernelTask == old(kernelTask)
      ensures OrderOk(old(sys)) && sys == WakeAll(old(sys), old(sys).order)
    {
      hide Inv, Holds, Ring, WakeAll, WakeOne;
      OrderIsOk(sys);
      ghost var sys0, order, i := sys, sys.order, 0;
      SemRing(ram.w, lists, sys, mainQueue, semQueue, cells, 0);
      var iter := ram.w[semQueue];
      assert order[0..] == order;
      while iter != semQueue
        invariant Consistent() && cells == old(cells) && kernelTask == old(kernelTask) && sys.order == order
        invariant 0 <= i <= |order| && iter == At(semQueue, order, i) && (iter == semQueue <==> i == |order|)
        invariant OrderOk(sys) && OrderOk(sys0) && Upcoming(sys, order, i) && WakeAll(sys, order[i..]) == WakeAll(sys0, order)
        decreases |order| - i
      {
        AtIs(semQueue, order, i);
        WakeRest(sys, order, i);
        ProcessSemaphore(iter);
        OrderIsOk(sys);
        UpcomingAll(sys, order, i + 1);
        SemRing(ram.w, lists, sys, mainQueue, semQueue, cells, i + 1);
        iter := ram.w[iter];
        i := i + 1;
      }
      WakeNone(sys);
      assert order[i..] == [];
    }

    /** The state in the middle of the ring walk: the lists hold `mid`, whose records are the current ones. */
    ghost predicate Walking(mid: System)
      reads this, ram
    {
      && mid.tasks == tasks && sems == mid.sem && kernelTask == mid.kernel && nextPID == mid.nextPID && nextSemaphoreID == mid.nextSem
      && Holds(ram.w, lists, mid, mainQueue, semQueue, cells)
    }

    /** destroyTask with stopTask, cutTask and freeTask; the assignment in line 230 is a comparison and has no effect. */
    method DestroyTask(x: int, ghost mid: System, ghost k: int)
      requires Walking(mid) && 0 <= k < |mid.main| && x == mid.main[k] && x in tasks
      modifies this`tasks, this`lists, this`cells, ram
      ensures Walking(mid.(main := RemoveAt(mid.main, k), tasks := mid.tasks - {x}))
      ensures tasks == old(tasks) - {x} && x in ram.w && ram.w[x] == old(ram.w)[x]
    {
      hide Holds, Ring, RemoveAt;
      CutMain(ram.w, lists, mid, mainQueue, semQueue, cells, k);
      PassNext(ram.w, mainQueue, mid.main, k);
      ram.ListDelEntry(x, mainQueue, mid.main, k);
      lists := lists[mainQueue := RemoveAt(mid.main, k)];
      cells := cells - {x};
      tasks := tasks - {x};
    }

    /** list_pass_entry: the entry after the k-th one of the run queue. */
    method PassEntry(l: int, ghost main: seq<int>, ghost k: int) returns (next: int)
      requires Ring(ram.w, mainQueue, main) && 0 <= k < |main| && l == main[k]
      ensures next == main[if k + 1 < |main| then k + 1 else 0]
    {
      PassNext(ram.w, mainQueue, main, k);
      next := if ram.w[l] == mainQueue then ram.w[mainQueue] else ram.w[l];
    }

    /** switchTask, lines 68-98, for an entry that stays on the queue: its new status decides whether the walk ends. */
    method TouchTask(x: int, ghost main: seq<int>) returns (status: Status)
      requires x in tasks && !Destroyed(kernelTask, x, tasks[x]) && Ring(ram.w, mainQueue, main) && main != []
      modifies this`tasks
      ensures tasks == old(tasks)[x := Touched(kernelTask, x, old(tasks)[x])] && (status == Running <==> IsIdle(old(tasks), x))
    {
      hide Ring;
      var t := tasks[x];
      status := t.status;
      match t.status {
        case Yield | Running =>
          if t.dying {
            tasks := tasks[x := t.(dying := false, status := Zombie, exitcode := t.eax)];
            status := Zombie;
          } else {
            tasks := tasks[x := t.(status := Idle)];
            status := Idle;
          }
        case Idle =>
          tasks := tasks[x := t.(status := Running)];
          status := Running;
        case Zombie | Finished =>
          // the kernel task: the run queue is not empty, since it is on it
          var empty := ram.ListEmpty(mainQueue, main);
          assert !empty;
        case Created | Stopped =>
      }
      SameRecord(old(tasks), x);
    }

    /** switchTask, lines 66-103, for the k-th entry of the run queue, and the step to the next entry. */
    method VisitTask(x: int, ghost mid: System, ghost k: int, ghost q: seq<int>)
      returns (status: Status, next: int, ghost mid': System, ghost k': int)
      requires Walking(mid) && SeenFrom(mid.main, k, q) && Known(tasks, q) && NoDup(q) && q[0] == x
      requires Destroyed(kernelTask, x, tasks[x]) ==> |mid.main| > 1
      modifies this`tasks, this`lists, this`cells, ram
      ensures x in old(tasks)
      ensures var (tasks', q') := Visit(kernelTask, old(tasks), q);
              && tasks == tasks' && SeenFrom(mid'.main, k', q') && Walking(mid') && next == mid'.main[k']
      ensures mid' == mid.(tasks := tasks, main := if Destroyed(kernelTask, x, old(tasks)[x]) then RemoveAt(mid.main, k) else mid.main)
      ensures status == Running <==> IsIdle(old(tasks), x)
    {
      hide Holds, Ring, RemoveAt, NoDup, SeenFrom, Touched;
      SeenHere(mid.main, k, q);
      SeenNext(mid.main, k, q);
      MainRing(ram.w, lists, mid, mainQueue, semQueue, cells);
      if (tasks[x].status == Zombie || tasks[x].status == Finished) && x != kernelTask {
        status := tasks[x].status;
        next, mid', k' := PassDead(x, mid, k, q);
      } else {
        k' := if k + 1 < |mid.main| then k + 1 else 0;
        status := TouchTask(x, mid.main);
        mid' := mid.(tasks := tasks);
        TasksSame(ram.w, lists, mid, tasks, mainQueue, semQueue, cells);
        next := PassEntry(x, mid.main, k);
      }
    }

    /** An entry that is destroyed: its record's links are read once more. */
    method PassDead(x: int, ghost mid: System, ghost k: int, ghost q: seq<int>) returns (next: int, ghost mid': System, ghost k': int)
      requires Walking(mid) && SeenFrom(mid.main, k, q) && q[0] == x && x in tasks && |mid.main| > 1
      requires Destroyed(kernelTask, x, tasks[x])
      modifies this`tasks, this`lists, this`cells, ram
      ensures tasks == old(tasks) - {x} && SeenFrom(mid'.main, k', q[1..]) && Walking(mid') && next == mid'.main[k']
      ensures mid' == mid.(tasks := tasks, main := RemoveAt(mid.main, k))
    {
      hide Holds, Ring, RemoveAt, SeenFrom;
      SeenHere(mid.main, k, q);
      MainRing(ram.w, lists, mid, mainQueue, semQueue, cells);
      PassNext(ram.w, mainQueue, mid.main, k);
      var follower := ram.w[x];
      SeenCut(mid.main, k, q);
      mid' := mid.(tasks := tasks - {x}, main := RemoveAt(mid.main, k));
      k' := if k + 1 < |mid.main| then k else 0;
      SeenHere(mid'.main, k', q[1..]);
      DestroyTask(x, mid, k);
      MainRing(ram.w, lists, mid', mainQueue, semQueue, cells);
      AfterCut(ram.w, mainQueue, mid.main, k, follower);
      next := if ram.w[x] == mainQueue then ram.w[mainQueue] else ram.w[x];
    }

    /** switchTask, lines 64-104: list_for_each_forever from the entry behind the current task. */
    method WalkRing()
      requires Consistent()
      modifies this, ram
      ensures Inv(old(sys)) && sys == Walked(old(sys)) && Valid() && kernelTask == old(kernelTask)
    {
      hide Inv, Holds, Ring, Walked, Visit, WalkState, Steady, Destroyed, IsIdle;
      ghost var sys0 := sys;
      WalkStarts(sys0);
      ghost var q, k, mid := Turn(sys0.main, sys0.current), TurnStart(sys0.main, sys0.current), sys0;
      MainRing(ram.w, lists, sys0, mainQueue, semQueue, cells);
      var iter := PassEntry(currentTask, sys0.main, Pos(sys0.main, sys0.current));
      ghost var chosen := false;
      RingBusy(ram.w, mainQueue, mid.main);
      while ram.w[mainQueue] != mainQueue && ram.w[mainQueue + 4] != mainQueue
        invariant Walking(mid) && kernelTask == sys0.kernel && WalkState(sys0, mid, k, q)
        invariant 0 <= k < |mid.main| && iter == mid.main[k] && !chosen
        invariant Mapped(ram.w, mainQueue) && ram.w[mainQueue] != mainQueue && ram.w[mainQueue + 4] != mainQueue
        decreases Left(mid.tasks, q)
      {
        WalkOn(sys0, mid, k, q);
        var status, next;
        ghost var mid', k';
        status, next, mid', k' := VisitTask(iter, mid, k, q);
        if status == Running {
          WalkEnds(sys0, mid, k, q);
          WalkedSettles(sys0);
          currentTask := iter;
          sys := Walked(sys0);
          OthersFree(ram.w, lists, mid', sys, mainQueue, semQueue, cells);
          chosen := true;
          break;
        }
        WalkGoesOn(sys0, mid, k, q, mid', k');
        q := Visit(sys0.kernel, mid.tasks, q).1;
        mid, k := mid', k';
        MainRing(ram.w, lists, mid, mainQueue, semQueue, cells);
        RingBusy(ram.w, mainQueue, mid.main);
        iter := next;
      }
      assert chosen;
    }

    /** switchTask; isTaskingInit() holds from initTasking on. */
    method SwitchTask(dying: bool, eax: int)
      requires Consistent() && (dying ==> currentTask != kernelTask)
      modifies this, ram
      ensures Inv(old(sys)) && (dying ==> old(sys).current != old(sys).kernel) && sys == Switch(old(sys), dying, eax)
      ensures Valid()
    {
      hide Inv, Holds, Walked, Steady, WakeAll;
      ghost var sys0 := sys;
      CurrentKnown(sys0);
      SavedKeeps(sys0, dying, eax);
      OrderIsOk(sys0);
      tasks := tasks[currentTask := tasks[currentTask].(dying := dying, eax := eax)];
      sys := Saved(sys0, dying, eax);
      TasksSame(ram.w, lists, sys0, tasks, mainQueue, semQueue, cells);
      SemctlProcess();
      TickedIs(sys0, dying, eax);
      WalkRing();
    }

    /** yield */
    method YieldNow()
      requires Valid()
      modifies this, ram
      ensures Inv(old(sys)) && old(sys).current in old(sys).tasks && Inv(Yielded(old(sys)))
      ensures sys == Switch(Yielded(old(sys)), false, 0) && Valid()
    {
      hide Inv, Holds, Steady, Switch;
      YieldKeeps(sys);
      ghost var sys0 := sys;
      tasks := tasks[currentTask := tasks[currentTask].(status := Yield)];
      sys := Yielded(sys0);
      TasksSame(ram.w, lists, sys0, tasks, mainQueue, semQueue, cells);
      SwitchTask(false, 0);
    }

    /** allocTask with the callers' TS_CREATED. */
    method CreateTask(x: int)
      requires Valid() && Unused(ram.w, cells, x)
      modifies this
      ensures Valid() && x !in old(sys).tasks && sys == Create(old(sys), x) && ram.w == old(ram.w)
    {
      hide Inv, Holds;
      CreateHolds(ram.w, lists, sys, mainQueue, semQueue, cells, x);
      CreateInv(sys, x);
      CreateSteady(sys, x);
      tasks := tasks[x := Task(0, Created, false, 0, 0)];
      sys := Create(sys, x);
      cells := cells + {x};
    }

    /** runTask */
    method RunTaskNow(x: int) returns (pid: int)
      requires Valid() && x in sys.tasks
      modifies this, ram
      ensures Valid() && sys == RunTask(old(sys), x) && x in sys.tasks
      ensures pid == if old(sys).tasks[x].status == Created then sys.tasks[x].id else -1
    {
      hide Inv, Holds, Ring, Outside, Link, At, Steady, RunTask, InsertAt;
      RunIs(sys, x);
      if tasks[x].status != Created {
        return -1;
      }
      AtEnd(mainQueue, sys.main);
      RunHolds(ram.w, lists, sys, mainQueue, semQueue, cells, x);
      RunInv(sys, x);
      RunSteady(sys, x);
      if tasks[x].id == 0 {
        tasks := tasks[x := tasks[x].(id := nextPID)];
        nextPID := nextPID + 1;
      }
      ram.ListAddTail(x, mainQueue, mainQueue, sys.main, |sys.main|);
      lists := lists[mainQueue := sys.main + [x]];
      tasks := tasks[x := tasks[x].(status := Idle)];
      sys := RunTask(sys, x);
      pid := tasks[x].id;
    }

    /** fork, the copied address space and registers aside. */
    method Fork(x: int) returns (pid: int)
      requires Valid() && Unused(ram.w, cells, x)
      modifies this, ram
      ensures Valid() && x !in old(sys).tasks && sys == RunTask(Create(old(sys), x), x) && pid == old(sys).nextPID
    {
      hide Inv, Holds;
      CreateTask(x);
      pid := RunTaskNow(x);
    }

    /** semctl, lines 38-48. */
    method FindSemaphore(id: int) returns (l: Lookup)
      requires Valid()
      ensures l == Named(sys, id)
    {
      hide Inv, Holds, Ring;
      l := Missing;
      if id != 0 {
        OrderIsOk(sys);
        ghost var i := 0;
        SemRing(ram.w, lists, sys, mainQueue, semQueue, cells, 0);
        var iter := ram.w[semQueue];
        assert sys.order[0..] == sys.order;
        while iter != semQueue
          invariant 0 <= i <= |sys.order| && iter == At(semQueue, sys.order, i) && (iter == semQueue <==> i == |sys.order|) && l == Missing
          invariant FindId(sys.sem, sys.order, id) == i + FindId(sys.sem, sys.order[i..], id)
          decreases |sys.order| - i
        {
          AtIs(semQueue, sys.order, i);
          if sems[iter].id == id {
            l := Found(iter);
            break;
          }
          SemRing(ram.w, lists, sys, mainQueue, semQueue, cells, i + 1);
          iter := ram.w[iter];
          i := i + 1;
        }
      }
    }

    /** SEMAPHORE_INIT */
    method SemInit(s: int, initial: int) returns (id: int)
      requires Valid() && Unused(ram.w, cells, s) && Unused(ram.w, cells, QueueHead(s))
      modifies this, ram
      ensures Valid() && s !in old(sys).sem && sys == InitSem(old(sys), s, initial) && id == old(sys).nextSem
    {
      hide Inv, Holds, Ring, Outside, Link, At, Steady, InitSem, InsertAt;
      AtEnd(semQueue, sys.order);
      InitIs(sys, s, initial);
      InitHolds(ram.w, lists, sys, mainQueue, semQueue, cells, s, initial);
      InitInv(sys, s, initial);
      InitSteady(sys, s, initial);
      id := nextSemaphoreID;
      nextSemaphoreID := nextSemaphoreID + 1;
      ram.InitListHead(QueueHead(s));
      sems := sems[s := Sem(id, initial, ToInt32(initial))];
      ram.ListAddTail(s, semQueue, semQueue, sys.order, |sys.order|);
      lists := lists[QueueHead(s) := []][semQueue := sys.order + [s]];
      cells := cells + {s, QueueHead(s)};
      sys := InitSem(sys, s, initial);
    }

    /** SEMAPHORE_SIGNAL. Repair of line 75: the bound is the semaphore's own initial_value. */
    method SemSignal(s: int)
      requires Valid() && s in sys.sem
      modifies this
      ensures Valid() && sys == Signal(old(sys), s) && ram.w == old(ram.w)
    {
      hide Inv, Holds;
      SignalInv(sys, s);
      SignalSteady(sys, s);
      SemsSame(ram.w, lists, sys, Signal(sys, s), mainQueue, semQueue, cells);
      if ToUint32(sems[s].count) < sems[s].initial {
        sems := sems[s := sems[s].(count := sems[s].count + 1)];
      }
      sys := Signal(sys, s);
    }

    /** SEMAPHORE_WAIT */
    method SemWait(s: int)
      requires Valid() && s in sys.sem && (sys.current == sys.kernel ==> sys.sem[s].count > 0)
      modifies this, ram
      ensures Inv(old(sys)) && Valid() && sys == Tasking.Wait(old(sys), s)
    {
      hide Inv, Holds, Switch, Park, Steady, Ring, RingsApart;
      ghost var sys0 := sys;
      WaitInv(sys0, s);
      if sems[s].count > 0 {
        sems := sems[s := sems[s].(count := sems[s].count - 1)];
        SemsSame(ram.w, lists, sys0, Tasking.Wait(sys0, s), mainQueue, semQueue, cells);
        sys := Tasking.Wait(sys0, s);
      } else {
        var task := currentTask;
        ParkReady(sys0, s);
        SwitchTask(false, 0);
        ParkHolds(ram.w, lists, sys, mainQueue, semQueue, cells, s, task);
        ram.ListMove(task, QueueHead(s), sys.waiters[s], mainQueue, sys.main, Pos(sys.main, task));
        lists := lists[mainQueue := RemoveAt(sys.main, Pos(sys.main, task))][QueueHead(s) := [task] + sys.waiters[s]];
        ParkSame(sys, s, task);
        sys := Park(sys, s, task);
      }
    }

    /** SEMAPHORE_FREE */
    method SemFree(s: int) returns (freed: bool)
      requires Valid() && s in sys.sem
      modifies this, ram
      ensures Valid() && s in old(sys).waiters && freed == Freeable(old(sys), s)
      ensures s in old(sys).order && sys == if freed then FreeSem(old(sys), s) else old(sys)
    {
      hide Inv, Holds, Ring, Steady, FreeSem, RemoveAt, Unlink, Outside, RingsApart;
      ghost var sys0 := sys;
      QueueRings(ram.w, lists, sys, mainQueue, semQueue, cells, s);
      SemListed(sys, s);
      var empty := ram.ListEmpty(QueueHead(s), sys.waiters[s]);
      if ToUint32(sems[s].count) != sems[s].initial || !empty {
        return false;
      }
      hide Pos, At, QueueHead;
      FreeIs(sys, s);
      FreeInv(sys, s);
      FreeSteady(sys, s);
      FreeHolds(ram.w, lists, sys, mainQueue, semQueue, cells, s);
      ram.ListDelEntry(s, semQueue, sys.order, Pos(sys.order, s));
      lists := lists[semQueue := RemoveAt(sys.order, Pos(sys.order, s))] - {QueueHead(s)};
      cells := cells - {s, QueueHead(s)};
      sems := sems - {s};
      sys := FreeSem(sys, s);
      freed := true;
    }

    /** semctl. Repair of line 113: the id is read before the semaphore is released. */
    method Semctl(id: int, command: Command, node: int) returns (r: int)
      requires Valid()
      requires command.Init? && command.hasArgs ==> Unused(ram.w, cells, node) && Unused(ram.w, cells, QueueHead(node))
      requires command.Waiting? && sys.current == sys.kernel && Named(sys, id).Found? ==> sys.sem[Named(sys, id).node].count > 0
      modifies this, ram
      ensures Inv(old(sys)) && (sys, r) == Answer(old(sys), id, command, node) && Valid()
    {
      hide Inv, Holds, Steady, Freeable, Signal, InitSem, Tasking.Wait, FreeSem;
      ghost var sys0 := sys;
      var l := Missing;
      if id != 0 && !command.Init? {
        l := FindSemaphore(id);
      }
      match command {
        case Init(hasArgs, initial) =>
          if !hasArgs {
            return -1;
          }
          r := SemInit(node, initial);
        case Signalling =>
          if l == Missing {
            return -1;
          }
          r := sems[l.node].id;
          SemSignal(l.node);
        case Waiting =>
          if l == Missing {
            return -1;
          }
          r := sems[l.node].id;
          SemWait(l.node);
        case Freeing =>
          if l == Missing {
            return -1;
          }
          r := sems[l.node].id;
          var freed := SemFree(l.node);
          r := if freed then r else -1;
        case Unknown =>
          return -1;
      }
    }
  }

  lemma TickedIs(sys: System, dying: bool, eax: int)
    requires Inv(sys) && (dying ==> sys.current != sys.kernel)
    ensures sys.current in sys.tasks && OrderOk(Saved(sys, dying, eax)) && OrderOk(sys)
    ensures Ticked(sys, dying, eax) == WakeAll(Saved(sys, dying, eax), sys.order) && Saved(sys, dying, eax).order == sys.order
    ensures Inv(Ticked(sys, dying, eax)) && Switch(sys, dying, eax) == Walked(Ticked(sys, dying, eax))
  {
    hide Inv, Walked, WakeAll;
    OrderIsOk(sys);
    CurrentKnown(sys);
    TickedKeeps(sys, dying, eax);
  }

  lemma CreateSteady(sys: System, x: int)
    requires Steady(sys) && x !in sys.tasks
    ensures Steady(Create(sys, x))
  {
  }

  lemma AtEnd(head: int, s: seq<int>)
    ensures At(head, s, |s|) == head
  {
  }

  lemma RunIs(sys: System, x: int)
    requires x in sys.tasks
    ensures var r, t := RunTask(sys, x), sys.tasks[x];
            if t.status != Created then r == sys
            else
              && r == sys.(tasks := r.tasks, main := sys.main + [x], nextPID := if t.id == 0 then sys.nextPID + 1 else sys.nextPID)
              && r.tasks == sys.tasks[x := Task(if t.id == 0 then sys.nextPID else t.id, Idle, t.dying, t.eax, t.exitcode)]
  {
  }

  lemma RunSteady(sys: System, x: int)
    requires Steady(sys)
    ensures Steady(RunTask(sys, x))
  {
  }

  lemma InitIs(sys: System, s: int, initial: int)
    ensures var r := InitSem(sys, s, initial);
            r == sys.(sem := sys.sem[s := Sem(sys.nextSem, initial, ToInt32(initial))], waiters := r.waiters, order := sys.order + [s], nextSem := sys.nextSem + 1)
  {
  }

  lemma FreeIs(sys: System, s: int)
    requires s in sys.order
    ensures var r := FreeSem(sys, s); r == sys.(sem := sys.sem - {s}, waiters := r.waiters, order := r.order)
  {
  }

  lemma InitSteady(sys: System, s: int, initial: int)
    requires Steady(sys)
    ensures Steady(InitSem(sys, s, initial))
  {
  }

  lemma FreeSteady(sys: System, s: int)
    requires Steady(sys) && s in sys.order
    ensures Steady(FreeSem(sys, s))
  {
  }

  lemma SemListed(sys: System, s: int)
    requires Inv(sys) && s in sys.sem
    ensures s in sys.waiters && s in sys.order
  {
  }

  lemma SemsSame(m: Mem, lists: map<int, seq<int>>, sys: System, r: System, mainQueue: int, semQueue: int, cells: set<int>)
    requires Holds(m, lists, sys, mainQueue, semQueue, cells) && r == sys.(sem := r.sem) && r.sem.Keys == sys.sem.Keys
    ensures Holds(m, lists, r, mainQueue, semQueue, cells)
  {
    hide Rings;
    DistinctSame(sys, r, mainQueue, semQueue, cells);
  }

  /** A task that has to wait can be parked after the switch. */
  lemma ParkReady(sys: System, s: int)
    requires Inv(sys) && Steady(sys) && s in sys.sem && sys.current != sys.kernel && sys.sem[s].count <= 0
    ensures var r := Switch(sys, false, 0); s in r.sem && s in r.waiters && sys.current in r.main
    ensures Tasking.Wait(sys, s) == Park(Switch(sys, false, 0), s, sys.current)
  {
    hide Inv, Walked, Ticked, Park, Switch;
    CurrentRuns(sys);
    TickedKeeps(sys, false, 0);
    SwitchIs(sys);
    SwitchInv(sys, false, 0);
    TickedSems(sys, false, 0);
    WalkedParks(Ticked(sys, false, 0));
  }

  lemma ParkSame(sys: System, s: int, x: int)
    ensures var r := Park(sys, s, x);
            r.tasks == sys.tasks && r.sem == sys.sem && r.current == sys.current && r.kernel == sys.kernel && r.nextPID == sys.nextPID && r.nextSem == sys.nextSem
  {
  }

  function TurnStart(main: seq<int>, x: int): int
    requires x in main
  {
    if Pos(main, x) + 1 < |main| then Pos(main, x) + 1 else 0
  }

  lemma RingBusy(m: Mem, head: int, s: seq<int>)
    requires Ring(m, head, s) && s != []
    ensures Mapped(m, head) && m[head] != head && m[head + 4] != head
  {
  }

  /** In the middle of the walk: the lists hold mid, the rest of the sweep starts from q, and it ends as the whole sweep does. */
  ghost predicate WalkState(sys0: System, mid: System, k: int, q: seq<int>) {
    && Inv(sys0) && Known(mid.tasks, q) && NoDup(q) && SomeLive(mid.tasks, q) && sys0.kernel in q && NoDup(sys0.main)
    && mid == sys0.(tasks := mid.tasks, main := mid.main) && mid.main == Keep(sys0.main, q) && SeenFrom(mid.main, k, q)
    && Leads(sys0, Sweep(sys0.kernel, mid.tasks, q))
  }

  ghost predicate Leads(sys0: System, c: Choice)
    requires Inv(sys0)
  {
    c.queue != [] && Walked(sys0) == sys0.(tasks := c.tasks, main := Keep(sys0.main, c.queue), current := Chosen(c))
  }

  lemma WalkStarts(sys0: System)
    requires Inv(sys0)
    ensures sys0.current in sys0.main && sys0.kernel in sys0.main && sys0.current in sys0.tasks
    ensures WalkState(sys0, sys0, TurnStart(sys0.main, sys0.current), Turn(sys0.main, sys0.current))
  {
    WalkReady(sys0);
    InvParts(sys0);
    hide Inv, Sweep, Placed, SemsOk, Keep;
    var q := Turn(sys0.main, sys0.current);
    TurnFacts(sys0.main, sys0.current);
    KeepAll(sys0.main, q);
    TurnSeen(sys0.main, sys0.current);
    hide Turn, TurnStart, SeenFrom, NoDup, SomeLive, Known, Exclusive, Manned;
    WalkLeads(sys0);
  }

  lemma TurnSeen(main: seq<int>, x: int)
    requires x in main
    ensures SeenFrom(main, TurnStart(main, x), Turn(main, x))
  {
    assert Turn(main, x) == main[TurnStart(main, x)..] + main[..TurnStart(main, x)];
  }

  lemma WalkLeads(sys0: System)
    requires Inv(sys0)
    ensures sys0.current in sys0.main
    ensures var q := Turn(sys0.main, sys0.current); Known(sys0.tasks, q) && NoDup(q) && SomeLive(sys0.tasks, q) && Leads(sys0, Sweep(sys0.kernel, sys0.tasks, q))
  {
    hide Inv, Sweep, Turn, NoDup, SomeLive, Known, Keep;
    WalkReady(sys0);
    SweepChooses(sys0.kernel, sys0.tasks, Turn(sys0.main, sys0.current));
  }

  /** One visit of the walk. */
  lemma WalkOn(sys0: System, mid: System, k: int, q: seq<int>)
    requires WalkState(sys0, mid, k, q)
    ensures 0 <= k < |mid.main| && q != [] && q[0] == mid.main[k] && q[0] in mid.tasks && SeenFrom(mid.main, k, q)
    ensures Known(mid.tasks, q) && NoDup(q)
    ensures Destroyed(sys0.kernel, q[0], mid.tasks[q[0]]) ==> |mid.main| > 1
  {
    hide Sweep, Keep, Leads;
    SeenNext(mid.main, k, q);
    assert |q| == |mid.main|;
    var j :| 0 <= j < |q| && q[j] == sys0.kernel;
    assert Destroyed(sys0.kernel, q[0], mid.tasks[q[0]]) ==> j != 0;
  }

  /** What the visit leaves of the run queue. */
  function MainAfter(sys0: System, mid: System, k: int): seq<int>
    requires 0 <= k < |mid.main| && mid.main[k] in mid.tasks
  {
    if Destroyed(sys0.kernel, mid.main[k], mid.tasks[mid.main[k]]) then RemoveAt(mid.main, k) else mid.main
  }

  lemma StateParts(sys0: System, mid: System, k: int, q: seq<int>)
    requires WalkState(sys0, mid, k, q)
    ensures Inv(sys0) && Known(mid.tasks, q) && NoDup(q) && SomeLive(mid.tasks, q) && sys0.kernel in q && NoDup(sys0.main)
    ensures mid == sys0.(tasks := mid.tasks, main := mid.main) && mid.main == Keep(sys0.main, q) && SeenFrom(mid.main, k, q)
    ensures Leads(sys0, Sweep(sys0.kernel, mid.tasks, q))
  {
  }

  /** The visit that chooses. */
  lemma WalkEnds(sys0: System, mid: System, k: int, q: seq<int>)
    requires WalkState(sys0, mid, k, q) && q != [] && IsIdle(mid.tasks, q[0])
    ensures 0 <= k < |mid.main| && mid.main[k] in mid.tasks
    ensures mid.(tasks := Visit(sys0.kernel, mid.tasks, q).0, main := MainAfter(sys0, mid, k), current := q[0]) == Walked(sys0)
  {
    StateParts(sys0, mid, k, q);
    WalkOn(sys0, mid, k, q);
    hide WalkState, Inv, Keep, SeenFrom, NoDup, Known, SomeLive, RemoveAt, Walked;
    VisitKeep(sys0.main, sys0.kernel, mid.tasks, q, k);
    LastChosen(sys0.kernel, mid.tasks, q);
  }

  lemma LastChosen(kernel: int, tasks: Tasks, q: seq<int>)
    requires Known(tasks, q) && NoDup(q) && SomeLive(tasks, q) && q != [] && IsIdle(tasks, q[0])
    ensures var (tasks', q') := Visit(kernel, tasks, q);
            Sweep(kernel, tasks, q) == Choice(tasks', q', 1) && q' != [] && Chosen(Sweep(kernel, tasks, q)) == q[0]
  {
  }

  lemma SweepOn(kernel: int, tasks: Tasks, q: seq<int>)
    requires Known(tasks, q) && NoDup(q) && SomeLive(tasks, q) && q != [] && !IsIdle(tasks, q[0])
    ensures var (tasks', q') := Visit(kernel, tasks, q);
            && Known(tasks', q') && NoDup(q') && SomeLive(tasks', q') && Left(tasks', q') < Left(tasks, q)
            && Sweep(kernel, tasks, q).tasks == Sweep(kernel, tasks', q').tasks && Sweep(kernel, tasks, q).queue == Sweep(kernel, tasks', q').queue
  {
    VisitProgress(kernel, tasks, q);
  }

  lemma LeadsSame(sys0: System, c: Choice, c': Choice)
    requires Inv(sys0) && Leads(sys0, c) && c'.tasks == c.tasks && c'.queue == c.queue
    ensures Leads(sys0, c')
  {
  }

  /** A visit that does not choose. */
  lemma WalkGoesOn(sys0: System, mid: System, k: int, q: seq<int>, mid': System, k': int)
    requires WalkState(sys0, mid, k, q) && q != [] && !IsIdle(mid.tasks, q[0]) && 0 <= k < |mid.main| && mid.main[k] in mid.tasks && q[0] in mid.tasks
    requires mid' == mid.(tasks := Visit(sys0.kernel, mid.tasks, q).0, main := MainAfter(sys0, mid, k))
    requires SeenFrom(mid'.main, k', Visit(sys0.kernel, mid.tasks, q).1)
    ensures Left(mid'.tasks, Visit(sys0.kernel, mid.tasks, q).1) < Left(mid.tasks, q)
    ensures WalkState(sys0, mid', k', Visit(sys0.kernel, mid.tasks, q).1)
  {
    StateParts(sys0, mid, k, q);
    WalkOn(sys0, mid, k, q);
    var (tasks', q') := Visit(sys0.kernel, mid.tasks, q);
    VisitMembers(sys0.kernel, mid.tasks, q);
    hide Inv, Keep, SeenFrom, NoDup, Known, SomeLive, RemoveAt, Walked, Visit, Sweep, Leads;
    VisitKeep(sys0.main, sys0.kernel, mid.tasks, q, k);
    SweepOn(sys0.kernel, mid.tasks, q);
    LeadsSame(sys0, Sweep(sys0.kernel, mid.tasks, q), Sweep(sys0.kernel, tasks', q'));
  }

  lemma WalkedSettles(sys0: System)
    requires Inv(sys0)
    ensures Inv(Walked(sys0)) && Steady(Walked(sys0))
  {
    hide Inv, Walked;
    WalkedInv(sys0);
    WalkedMembers(sys0);
  }

  lemma SeenHere(main: seq<int>, k: int, q: seq<int>)
    requires SeenFrom(main, k, q)
    ensures 0 <= k < |main| && q != [] && q[0] == main[k]
  {
  }

  lemma SameRecord(tasks: Tasks, x: int)
    requires x in tasks
    ensures tasks[x := tasks[x]] == tasks
  {
  }

  lemma OthersFree(m: Mem, lists: map<int, seq<int>>, mid: System, r: System, mainQueue: int, semQueue: int, cells: set<int>)
    requires Holds(m, lists, mid, mainQueue, semQueue, cells) && r == mid.(current := r.current)
    ensures Holds(m, lists, r, mainQueue, semQueue, cells)
  {
    hide Rings;
    DistinctSame(mid, r, mainQueue, semQueue, cells);
  }

  lemma TasksSame(m: Mem, lists: map<int, seq<int>>, mid: System, tasks: Tasks, mainQueue: int, semQueue: int, cells: set<int>)
    requires Holds(m, lists, mid, mainQueue, semQueue, cells) && tasks.Keys == mid.tasks.Keys
    ensures Holds(m, lists, mid.(tasks := tasks), mainQueue, semQueue, cells)
  {
    hide Rings;
    DistinctSame(mid, mid.(tasks := tasks), mainQueue, semQueue, cells);
  }

  /** The step past an entry that has just been cut out, over its own stale link. */
  lemma AfterCut(m: Mem, head: int, main: seq<int>, k: int, follower: int)
    requires 0 <= k < |main| && |main| > 1 && Ring(m, head, RemoveAt(main, k))
    requires (follower == head <==> k + 1 == |main|) && (k + 1 < |main| ==> follower == main[k + 1])
    ensures head in m
    ensures (if follower == head then m[head] else follower) == RemoveAt(main, k)[if k + 1 < |main| then k else 0]
  {
    RingLinks(m, head, RemoveAt(main, k), 0);
  }

  ghost predicate Upcoming(sys: System, order: seq<int>, i: int) {
    0 <= i <= |order| && forall j :: 0 <= j < |order[i..]| ==> order[i..][j] in sys.sem
  }

  lemma UpcomingAll(sys: System, order: seq<int>, i: int)
    requires OrderOk(sys) && sys.order == order && 0 <= i <= |order|
    ensures Upcoming(sys, order, i)
  {
  }

  lemma OrderIsOk(sys: System)
    requires Inv(sys)
    ensures OrderOk(sys) && Upcoming(sys, sys.order, 0)
  {
    OrderKnown(sys);
  }

  /** The list of semaphores at position i. */
  lemma SemRing(m: Mem, lists: map<int, seq<int>>, sys: System, mainQueue: int, semQueue: int, cells: set<int>, i: int)
    requires Holds(m, lists, sys, mainQueue, semQueue, cells) && 0 <= i <= |sys.order|
    ensures At(semQueue, sys.order, i) == semQueue <==> i == |sys.order|
    ensures At(semQueue, sys.order, i - 1) in m && m[At(semQueue, sys.order, i - 1)] == At(semQueue, sys.order, i)
  {
    hide Ring, Distinct, Heads;
    MainRing(m, lists, sys, mainQueue, semQueue, cells);
    RingLinks(m, semQueue, sys.order, i);
    RingStop(m, semQueue, sys.order, i);
  }

  /** The memory initTasking works on. */
  lemma BootLists(m: Mem, mainQueue: int, semQueue: int, kernel: int)
    requires mainQueue != semQueue && kernel != mainQueue && kernel != semQueue && Layout(m, {mainQueue, semQueue, kernel})
    ensures Mapped(m, mainQueue) && Mapped(m, semQueue) && Mapped(m, kernel)
    ensures var m1 := m[mainQueue := mainQueue][mainQueue + 4 := mainQueue][semQueue := semQueue][semQueue + 4 := semQueue];
            && Ring(m1, mainQueue, []) && At(mainQueue, [], 0) == mainQueue && Mapped(m1, kernel) && Outside(kernel, mainQueue, [])
            && Mapped(m[mainQueue := mainQueue][mainQueue + 4 := mainQueue], semQueue)
            && Holds(Link(m1, kernel, At(mainQueue, [], -1), mainQueue), map[mainQueue := [kernel], semQueue := []], Boot(kernel),
                     mainQueue, semQueue, {mainQueue, semQueue, kernel})
  {
    BootRings(m, mainQueue, semQueue, kernel);
    BootHeads(mainQueue, semQueue, kernel);
    hide Rings, Ring, Heads, Distinct;
  }

  lemma BootHeads(mainQueue: int, semQueue: int, kernel: int)
    requires mainQueue != semQueue && kernel != mainQueue && kernel != semQueue
    ensures Distinct(Boot(kernel), mainQueue, semQueue, {mainQueue, semQueue, kernel})
    ensures Heads(map[mainQueue := [kernel], semQueue := []], Boot(kernel), mainQueue, semQueue)
  {
  }

  lemma BootRings(m: Mem, mainQueue: int, semQueue: int, kernel: int)
    requires mainQueue != semQueue && kernel != mainQueue && kernel != semQueue && Layout(m, {mainQueue, semQueue, kernel})
    ensures Mapped(m, mainQueue) && Mapped(m, semQueue) && Mapped(m, kernel)
    ensures var m1 := m[mainQueue := mainQueue][mainQueue + 4 := mainQueue][semQueue := semQueue][semQueue + 4 := semQueue];
            && Ring(m1, mainQueue, []) && At(mainQueue, [], 0) == mainQueue && Mapped(m1, kernel) && Outside(kernel, mainQueue, [])
            && Mapped(m[mainQueue := mainQueue][mainQueue + 4 := mainQueue], semQueue)
            && Rings(Link(m1, kernel, At(mainQueue, [], -1), mainQueue), map[mainQueue := [kernel], semQueue := []], {mainQueue, semQueue, kernel})
  {
    var cells := {mainQueue, semQueue, kernel};
    var none: map<int, seq<int>> := map[];
    hide Ring;
    Opened(m, none, cells, mainQueue);
    var l1 := none[mainQueue := []];
    var m0 := m[mainQueue := mainQueue][mainQueue + 4 := mainQueue];
    Opened(m0, l1, cells, semQueue);
    var l2 := l1[semQueue := []];
    var m1 := m0[semQueue := semQueue][semQueue + 4 := semQueue];
    Joined(m1, l2, cells, mainQueue, 0, kernel);
    assert InsertAt([], 0, kernel) == [kernel];
    assert l2[mainQueue := [kernel]] == map[mainQueue := [kernel], semQueue := []];
  }

  lemma BootIs(kernel: int)
    ensures Boot(kernel) == System(map[kernel := Task(0, Idle, false, 0, 0)], [kernel], [], map[], map[], kernel, kernel, 1, 1)
  {
  }

  lemma SoundParts(kernel: int)
    requires Sound(State(Boot(kernel), map[]))
    ensures Inv(Boot(kernel)) && Steady(Boot(kernel))
  {
  }

  ghost predicate OrderOk(sys: System) {
    sys.sem.Keys == sys.waiters.Keys && forall i :: 0 <= i < |sys.order| ==> sys.order[i] in sys.sem
  }

  lemma RingStop(m: Mem, head: int, f: seq<int>, i: int)
    requires Ring(m, head, f) && 0 <= i <= |f|
    ensures At(head, f, i) == head <==> i == |f|
  {
  }

  lemma AtIs(head: int, f: seq<int>, i: int)
    requires 0 <= i < |f|
    ensures At(head, f, i) == f[i] && f[i] in f && f[i..][0] == f[i] && f[i..][1..] == f[i + 1..]
  {
  }

  lemma WakeRest(sys: System, order: seq<int>, i: int)
    requires OrderOk(sys) && sys.order == order && 0 <= i < |order|
    ensures order[i] in sys.sem && order[i] in sys.waiters
    ensures forall j :: 0 <= j < |order[i..]| ==> order[i..][j] in sys.sem
    ensures var mid := WakeOne(sys, order[i]);
            mid.sem.Keys == sys.sem.Keys && mid.waiters.Keys == sys.waiters.Keys && mid.order == sys.order
            && WakeAll(sys, order[i..]) == WakeAll(mid, order[i + 1..])
  {
    assert order[i..][1..] == order[i + 1..];
  }

  lemma WakeNone(sys: System)
    requires OrderOk(sys)
    ensures WakeAll(sys, []) == sys
  {
  }

  lemma QueueFront(m: Mem, head: int, q: seq<int>)
    requires Ring(m, head, q) && q != []
    ensures Mapped(m, head) && m[head] == q[0] && At(head, q, -1) == head
  {
  }

  lemma WakeIs(sys: System, s: int)
    requires Wakes(sys, s)
    ensures WakeOne(sys, s).sem == sys.sem[s := sys.sem[s].(count := sys.sem[s].count - 1)]
    ensures WakeOne(sys, s) == sys.(sem := WakeOne(sys, s).sem, waiters := WakeOne(sys, s).waiters, main := WakeOne(sys, s).main)
  {
  }

  lemma WakeIsNot(sys: System, s: int)
    requires s in sys.sem && s in sys.waiters && (sys.waiters[s] == [] || sys.sem[s].count <= 0)
    ensures WakeOne(sys, s) == sys
  {
  }
}
