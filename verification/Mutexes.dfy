/** The mutex of shared/src/multitasking/mutex.c: a semaphore that starts at 1, reached by its id. */
module Mutexes {
  import opened KernelTasks
  import opened Semaphores
  import opened TaskCalls
  import opened TaskSystem
  import opened Tasking

  /** semctl finds the semaphore at position k when no earlier one has its id. */
  lemma {:induction false} FindIdIs(sem: map<int, Sem>, order: seq<int>, id: int, k: nat)
    requires k < |order| && order[k] in sem && sem[order[k]].id == id
    requires forall i :: 0 <= i < k ==> order[i] in sem && sem[order[i]].id != id
    ensures FindId(sem, order, id) == k
  {
    if k > 0 {
      assert order[0] in sem;
      FindIdIs(sem, order[1..], id, k - 1);
    }
  }

  /** An id finds exactly the semaphore that has it. */
  lemma NamedIs(sys: System, s: int)
    requires Inv(sys) && IdsApart(sys) && s in sys.sem
    ensures Named(sys, sys.sem[s].id) == Found(s)
  {
    OrderHas(sys, s);
    OrderKnown(sys);
    var k :| 0 <= k < |sys.order| && sys.order[k] == s;
    FindIdIs(sys.sem, sys.order, sys.sem[s].id, k);
  }

  /** The new semaphore is the one its id finds. */
  lemma NewNamed(sys: System, s: int, initial: int)
    requires Inv(sys) && IdsApart(sys) && s !in sys.sem
    ensures Named(InitSem(sys, s, initial), sys.nextSem) == Found(s)
  {
    InitInv(sys, s, initial);
    NamedIs(InitSem(sys, s, initial), s);
  }

  /** Lock and unlock around nothing: an uncontended critical section leaves the system as it was. */
  lemma LockUnlock(sys: System, s: int)
    requires Inv(sys) && IdsApart(sys) && s in sys.sem && sys.sem[s].initial == 1 && sys.sem[s].count == 1
    ensures var id := sys.sem[s].id;
            var (locked, r) := Answer(sys, id, Waiting, 0);
            r == id && s in locked.sem && locked.sem[s].count == 0 && Inv(locked) && Answer(locked, id, Signalling, 0) == (sys, id)
  {
    hide Inv;
    NamedIs(sys, s);
    var locked := Answer(sys, sys.sem[s].id, Waiting, 0).0;
    TakenInv(sys, s);
    NamedIs(locked, s);
    SignalUndoesWait(sys, s);
  }

  /** Unlocking a mutex that nobody holds changes nothing, so it can be freed afterwards, and nobody else got in. */
  lemma UnlockUnheld(sys: System, s: int)
    requires Inv(sys) && IdsApart(sys) && s in sys.sem && s in sys.waiters
    requires sys.sem[s].initial == 1 && sys.sem[s].count == 1 && sys.waiters[s] == []
    ensures var id := sys.sem[s].id;
            && Answer(sys, id, Signalling, 0) == (sys, id)
            && var (freed, r) := Answer(sys, id, Freeing, 0);
               r == id && s !in freed.sem && s !in freed.waiters && s !in freed.order
    ensures s in Tasking.Wait(sys, s).sem && Tasking.Wait(sys, s).sem[s].count == 0 && Tasking.Wait(sys, s).current == sys.current
  {
    NamedIs(sys, s);
    OrderHas(sys, s);
    DropMembers(sys.order, s);
  }

  lemma TakenInv(sys: System, s: int)
    requires Inv(sys) && IdsApart(sys) && s in sys.sem && sys.sem[s].count > 0
    ensures Inv(Tasking.Wait(sys, s)) && IdsApart(Tasking.Wait(sys, s))
  {
    assert forall x :: On(sys, x) <==> On(Tasking.Wait(sys, s), x);
  }

  class Mutex {
    var semaphoreId: int

    /** mutex_init */
    method InitMutex(k: Kernel, node: int)
      requires k.Valid() && IdsApart(k.sys) && Unused(k.ram.w, k.cells, node) && Unused(k.ram.w, k.cells, QueueHead(node))
      modifies this, k, k.ram
      ensures k.Valid() && k.sys == InitSem(old(k.sys), node, 1) && semaphoreId == old(k.sys).nextSem
      ensures Named(k.sys, semaphoreId) == Found(node)
    {
      hide Inv, Holds, Steady, IdsApart, InitSem;
      ghost var sys0 := k.sys;
      NodeFree(k, node);
      semaphoreId := k.Semctl(0, Init(true, 1), node);
      NewNamed(sys0, node, 1);
    }

    /** mutex_lock */
    method Lock(k: Kernel)
      requires k.Valid() && (k.sys.current == k.sys.kernel && Named(k.sys, semaphoreId).Found? ==> k.sys.sem[Named(k.sys, semaphoreId).node].count > 0)
      modifies k, k.ram
      ensures k.Valid() && Inv(old(k.sys))
      ensures k.sys == match Named(old(k.sys), semaphoreId) case Missing => old(k.sys) case Found(s) => Tasking.Wait(old(k.sys), s)
    {
      hide Inv, Holds, Steady, Tasking.Wait;
      var r := k.Semctl(semaphoreId, Waiting, 0);
    }

    /** mutex_unlock */
    method Unlock(k: Kernel)
      requires k.Valid()
      modifies k, k.ram
      ensures k.Valid()
      ensures k.sys == match Named(old(k.sys), semaphoreId) case Missing => old(k.sys) case Found(s) => Signal(old(k.sys), s)
    {
      hide Inv, Holds, Steady, Signal;
      var r := k.Semctl(semaphoreId, Signalling, 0);
    }

    /** mutex_free: refused, without a word to the caller, while the mutex is held or waited for. */
    method Free(k: Kernel)
      requires k.Valid()
      modifies k, k.ram
      ensures k.Valid() && Inv(old(k.sys)) && k.sys == Answer(old(k.sys), semaphoreId, Freeing, 0).0
    {
      hide Inv, Holds, Steady, Answer;
      var r := k.Semctl(semaphoreId, Freeing, 0);
    }
  }

  lemma NodeFree(k: Kernel, node: int)
    requires k.Valid() && Unused(k.ram.w, k.cells, node) && Unused(k.ram.w, k.cells, QueueHead(node))
    ensures Inv(k.sys) && node !in k.sys.sem
  {
    NewDistinct(k.sys, k.mainQueue, k.semQueue, k.cells, k.ram.w, node, 1);
  }
}
