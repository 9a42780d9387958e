/** ipc.c as it runs: the fields of a mutex and the priorities of threads, updated in place. */
module MutexKernel {
  import opened Seqs
  import opened Wrappers
  import opened WaitQueue
  import opened MutexModel

  /** The threads' current priorities, as rt_thread_control changes them. */
  class Threads {
    var prio: Prio

    constructor (p: Prio)
      ensures prio == p
    {
      prio := p;
    }

    method ChangePriority(t: nat, p: nat)
      modifies this
      ensures prio == old(prio)[t := p]
    {
      prio := prio[t := p];
    }
  }

  class MutexObject {
    const threads: Threads
    const byPriority: bool     // parent.parent.flag
    var value: int
    var hold: int
    var owner: Option<nat>
    var original: nat          // original_priority
    var queue: seq<nat>        // parent.suspend_thread

    ghost function View(): Mutex
      reads this
    {
      Mutex(value, hold, owner, original, queue, byPriority)
    }

    /** rt_mutex_init */
    constructor (ts: Threads, flag: bool)
      ensures View() == Mutex(1, 0, None, NO_PRIORITY, [], flag) && threads == ts
    {
      threads, byPriority := ts, flag;
      value, hold, owner, original, queue := 1, 0, None, NO_PRIORITY, [];
    }

    /** rt_mutex_take, up to the point where the caller has the mutex, gives up or is suspended. */
    method Take(t: nat, wait: bool) returns (c: Code)
      requires Known(queue, threads.prio) && t in threads.prio
      requires owner != Some(t) && value <= 0 ==> owner.Some? && owner.value in threads.prio
      modifies this, threads
      ensures (View(), threads.prio, c) == MutexModel.Take(old(View()), old(threads.prio), t, wait)
    {
      if owner == Some(t) {
        hold := hold + 1;
        return Taken;
      }
      if value > 0 {
        value := value - 1;
        owner := Some(t);
        original := threads.prio[t];
        hold := hold + 1;
        return Taken;
      }
      if !wait { return TimedOut; }
      if threads.prio[t] < threads.prio[owner.value] { threads.ChangePriority(owner.value, threads.prio[t]); }
      queue := Suspend(queue, t, threads.prio, byPriority);
      return Blocked;
    }

    /** rt_mutex_release */
    method Release(t: nat) returns (c: Code)
      requires Known(queue, threads.prio) && t in threads.prio && (owner == Some(t) ==> hold > 0)
      modifies this, threads
      ensures (View(), threads.prio, c) == MutexModel.Release(old(View()), old(threads.prio), t)
    {
      if owner != Some(t) { return Refused; }
      hold := hold - 1;
      if hold == 0 {
        if original != threads.prio[t] { threads.ChangePriority(t, original); }
        assert threads.prio == old(threads.prio)[t := original];
        if queue != [] {
          var h := queue[0];
          owner := Some(h);
          original := threads.prio[h];
          hold := hold + 1;
          queue := queue[1..];
        } else {
          value := value + 1;
          owner := None;
          original := NO_PRIORITY;
        }
      }
      return Released;
    }

    /** rt_thread_timeout takes the waiting thread off the queue: it waits no longer, the others keep their order, and the
        mutex stays with its owner, who may keep a priority it no longer needs. */
    method TimeOut(t: nat)
      requires Distinct(queue)
      modifies this`queue
      ensures Left(old(queue), t, queue) && View() == MutexModel.TimeOut(old(View()), t)
      ensures forall base :: MutexOk(old(View()), threads.prio, base) ==> MutexOk(View(), threads.prio, base)
    {
      LeaveIsLeft(queue, t);
      forall base | MutexOk(View(), threads.prio, base)
        ensures MutexOk(MutexModel.TimeOut(View(), t), threads.prio, base)
      {
        TimeOutOk(View(), threads.prio, base, t);
      }
      queue := Purge(queue, t);
    }
  }
}
