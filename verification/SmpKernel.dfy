/** scheduler.c, cpu.c and thread.c for SMP, as they update their tables in place. */
module SmpKernel {
  // Every method is proved to take the abstract state exactly where the step function of SmpModel does; what those steps
  // keep, over all runs, is proved in SmpProof.

  import opened Seqs
  import opened Wrappers
  import opened Bits
  import opened SmpModel
  import SmpProof

  ghost function SetsOf(g: seq<Word>): (r: seq<set<nat>>)
    ensures |r| == |g|
  {
    seq(|g|, q requires 0 <= q < |g| => Members(g[q]))
  }

  lemma SetsOfUpdate(g: seq<Word>, q: nat, i: nat)
    requires q < |g| && i < 32
    ensures SetsOf(g[q := Or(g[q], OneHot(32, i))]) == SetsOf(g)[q := SetsOf(g)[q] + {i}]
    ensures SetsOf(g[q := AndNot(g[q], OneHot(32, i))]) == SetsOf(g)[q := SetsOf(g)[q] - {i}]
  {
    UpdatesAreSetUpdates(g[q], i);
  }

  /** `__rt_ffs(w) - 1` in an unsigned 32-bit variable: -1 wraps to the largest value. */
  function FirstBit(w: Word): (r: nat)
    ensures IsZero(w) ==> r == 0xFFFF_FFFF
    ensures !IsZero(w) ==> Lowest(Members(w)) == Some(r) && r < 32
  {
    FfsIsLowest(w);
    UpdatesAreSetUpdates(w, 0);
    assert !IsZero(w) ==> Ffs(w) - 1 in Members(w);
    if Ffs(w) == 0 then 0xFFFF_FFFF else Ffs(w) - 1
  }

  /** The thread `_get_highest_priority_thread` would find is a READY one that CPU c is not running. */
  ghost predicate HeadIsQueued(s: State, c: nat)
    requires Shape(s) && Pickable(s) && c < s.N()
  {
    s.group[s.N()] != {} || s.group[c] != {} ==>
      var u := s.ready[HighestSlot(s, c)][0]; s.threads[u].stat == Ready && s.cpus[c].current != Some(u)
  }

  lemma HeadsAreQueued(s: State, c: nat)
    requires Inv(s) && Pickable(s) && c < s.N()
    ensures HeadIsQueued(s, c)
  {
    if s.group[s.N()] != {} || s.group[c] != {} {
      var k := HighestSlot(s, c);
      assert s.ready[k][0] in s.ready[k];
    }
  }

  class Kernel {
    var threads: seq<Tcb>
    var numberMask: seq<Word>          // the field of that name of each thread
    var cpus: seq<Cpu>
    var table: map<Slot, seq<nat>>     // the per-CPU priority tables, and the global one last
    var group: seq<Word>               // the per-CPU priority groups, and the global one last
    var cpusLock: Option<nat>          // which CPU holds _cpus_lock
    var criticalLock: Option<nat>      // which thread holds _rt_critical_lock

    ghost function View(): State
      reads this
    {
      State(threads, cpus, table, SetsOf(group), cpusLock, criticalLock)
    }

    ghost predicate Valid()
      reads this
    {
      && Shape(View()) && |numberMask| == |threads|
      && forall t :: 0 <= t < |threads| && threads[t].stat != Init ==> numberMask[t] == OneHot(32, threads[t].prio)
    }

    /** rt_schedule_insert_thread */
    method InsertThread(t: nat)
      requires Valid() && t < |threads| && threads[t].stat != Init
      modifies this
      ensures Valid() && View() == Insert(old(View()), t) && numberMask == old(numberMask)
    {
      threads := threads[t := threads[t].(stat := Ready)];
      if threads[t].oncpu != |cpus| { return; }
      var k := Slot(threads[t].bind, threads[t].prio);
      SetsOfUpdate(group, k.q, k.p);
      group := group[k.q := Or(group[k.q], numberMask[t])];
      table := table[k := table[k] + [t]];
    }

    /** rt_schedule_remove_thread */
    method RemoveThread(t: nat)
      requires Valid() && t < |threads| && threads[t].stat != Init
      modifies this
      ensures Valid() && View() == Remove(old(View()), t)
      ensures numberMask == old(numberMask) && threads == old(threads)
    {
      var k := Slot(threads[t].bind, threads[t].prio);
      table := table[k := Without(table[k], t)];
      if table[k] == [] {
        SetsOfUpdate(group, k.q, k.p);
        group := group[k.q := AndNot(group[k.q], numberMask[t])];
      }
    }

    /** _get_highest_priority_thread: two words, two `__rt_ffs`, one unsigned comparison. */
    method HighestPriorityThread(c: nat) returns (prio: nat, t: nat)
      requires Valid() && Pickable(View()) && c < |cpus|
      requires !IsZero(group[|cpus|]) || !IsZero(group[c])
      ensures View().group[|cpus|] != {} || View().group[c] != {}
      ensures prio == HighestSlot(View(), c).p && t == table[HighestSlot(View(), c)][0] && t < |threads|
    {
      var highest, localHighest := FirstBit(group[|cpus|]), FirstBit(group[c]);
      UpdatesAreSetUpdates(group[|cpus|], 0);
      UpdatesAreSetUpdates(group[c], 0);
      assert View().group[|cpus|] == Members(group[|cpus|]) && View().group[c] == Members(group[c]);
      if highest < localHighest {
        prio := highest;
        assert Slot(|cpus|, prio) == HighestSlot(View(), c);
        t := table[Slot(|cpus|, prio)][0];
      } else {
        prio := localHighest;
        assert Slot(c, prio) == HighestSlot(View(), c);
        t := table[Slot(c, prio)][0];
      }
    }

    /** rt_cpus_lock_status_restore, called by the context switch */
    method LockStatusRestore(c: nat, t: nat)
      requires Valid() && c < |cpus| && t < |threads|
      modifies this
      ensures Valid() && View() == SwitchTo(old(View()), c, t)
    {
      cpus := cpus[c := cpus[c].(current := Some(t))];
      if threads[t].cpusNest == 0 { cpusLock := None; }
    }

    /** Detach the current thread; it stays the choice if it is READY and strictly more urgent,
        and is queued if it is READY otherwise. */
    method DetachCurrent(current: nat, prio: nat, to: nat) returns (next: nat)
      requires Valid() && current < |threads| && to < |threads| && threads[current].stat != Init
      modifies this
      ensures Valid() && numberMask == old(numberMask)
      ensures var stays := old(threads)[current].stat == Ready && old(threads)[current].prio < prio;
        && next == (if stays then current else to)
        && (stays ==> View() == SetThread(old(View()), current, old(threads)[current].(oncpu := |cpus|)))
        && (!stays ==> View() == Leave(old(View()), current))
    {
      threads := threads[current := threads[current].(oncpu := |cpus|)];
      next := to;
      if threads[current].stat == Ready {
        if threads[current].prio < prio { next := current; } else { InsertThread(current); }
      }
    }

    /** Hand CPU c over to thread `to`, leaving thread `current` behind. */
    method HandOver(c: nat, current: nat, to: nat, prio: nat, fromIrq: bool)
      requires Valid() && c < |cpus| && current < |threads| && to < |threads| && current != to
      requires threads[to].stat == Ready && threads[current].cpusNest > 0 && threads[current].schedNest > 0
      modifies this
      ensures Valid()
      ensures var s1 := Claim(old(View()), c, to, prio);
        && s1.threads[current] == old(threads)[current]
        && View() == SwitchTo(if fromIrq then DropNest(s1, current) else s1, c, to)
    {
      threads := threads[to := threads[to].(oncpu := c)];
      cpus := cpus[c := cpus[c].(curPrio := prio)];
      RemoveThread(to);
      if fromIrq {
        var r := threads[current];
        threads := threads[current := r.(cpusNest := r.cpusNest - 1, schedNest := r.schedNest - 1)];
      }
      LockStatusRestore(c, to);
    }

    /** `rt_thread_ready_priority_group != 0 || pcpu->priority_group != 0` */
    method AnyReady(c: nat) returns (b: bool)
      requires Valid() && c < |cpus|
      ensures b <==> View().group[|cpus|] != {} || View().group[c] != {}
      ensures b <==> !IsZero(group[|cpus|]) || !IsZero(group[c])
    {
      UpdatesAreSetUpdates(group[|cpus|], 0);
      UpdatesAreSetUpdates(group[c], 0);
      b := !IsZero(group[|cpus|]) || !IsZero(group[c]);
    }

    /** The choice and the switch of rt_schedule and of rt_scheduler_do_irq_switch. */
    method SwitchIfNeeded(c: nat, fromIrq: bool)
      requires Valid() && Pickable(View()) && Inside(View(), c) && HeadIsQueued(View(), c)
      requires Cur(View(), c).schedNest == 1 && Cur(View(), c).cpusNest > 0 && Cur(View(), c).stat != Init
      requires Cur(View(), c).oncpu == c
      modifies this
      ensures Valid() && View() == Reschedule(old(View()), c, fromIrq)
    {
      hide Lowest, Claim, SwitchTo, Insert;
      var current := cpus[c].current.value;
      var any := AnyReady(c);
      if !any { return; }
      var prio, to := HighestPriorityThread(c);
      var next := DetachCurrent(current, prio, to);
      if next != current {
        HandOver(c, current, to, prio, fromIrq);
      } else {
        threads := threads[current := threads[current].(oncpu := c)];
        assert threads == old(threads);
      }
    }

    /** rt_scheduler_do_irq_switch between its lock and its unlock. */
    method IrqSwitchIfNeeded(c: nat)
      requires Valid() && Pickable(View()) && Inside(View(), c) && HeadIsQueued(View(), c)
      requires Cur(View(), c).cpusNest == 1 && Cur(View(), c).stat != Init && Cur(View(), c).oncpu == c
      modifies this
      ensures Valid() && View() == IrqSwitchBody(old(View()), c)
    {
      var t := cpus[c].current.value;
      if cpus[c].irqFlag {
        if threads[t].schedNest == 1 && cpus[c].irqNest == 0 {
          cpus := cpus[c := cpus[c].(irqFlag := false)];
          SwitchIfNeeded(c, true);
        }
      }
    }

    /** The priority change itself: out of its list, new priority and mask, into the other list. */
    method Retune(t: nat, p: nat)
      requires Valid() && t < |threads| && p < PRIO_MAX
      modifies this
      ensures Valid() && View() == ChangePriorityBody(old(View()), t, p)
    {
      if threads[t].stat == Ready {
        RemoveThread(t);
        threads := threads[t := threads[t].(prio := p)];
        numberMask := numberMask[t := OneHot(32, p)];
        InsertThread(t);
      } else {
        threads := threads[t := threads[t].(prio := p)];
        numberMask := numberMask[t := OneHot(32, p)];
      }
    }

    /** The first choice on a CPU that has run nothing yet. */
    method StartOn(c: nat)
      requires Valid() && Pickable(View()) && c < |cpus| && HeadIsQueued(View(), c)
      requires View().group[|cpus|] != {} || View().group[c] != {}
      modifies this
      ensures Valid() && View() == BootBody(old(View()), c)
    {
      UpdatesAreSetUpdates(group[|cpus|], 0);
      UpdatesAreSetUpdates(group[c], 0);
      var prio, to := HighestPriorityThread(c);
      threads := threads[to := threads[to].(oncpu := c)];
      RemoveThread(to);
      LockStatusRestore(c, to);
    }

    /** rt_cpus_lock, up to the spin loop */
    method CpusLockBegin(c: nat)
      requires Valid() && Inv(View()) && Enabled(View(), LockBegin(c))
      modifies this
      ensures Valid() && Steppable(old(View())) && View() == Do(old(View()), LockBegin(c)) && Inv(View())
    {
      InvSteppable(View());
      SmpProof.StepKeeps(View(), LockBegin(c));
      var t := cpus[c].current.value;
      threads := threads[t := threads[t].(cpusNest := threads[t].cpusNest + 1)];
      if threads[t].cpusNest == 1 {
        threads := threads[t := threads[t].(schedNest := threads[t].schedNest + 1)];
        cpus := cpus[c := cpus[c].(waiting := true)];
      }
    }

    /** rt_cpus_lock, getting out of the spin loop */
    method CpusLockAcquire(c: nat)
      requires Valid() && Inv(View()) && Enabled(View(), LockAcquire(c))
      modifies this
      ensures Valid() && Steppable(old(View())) && View() == Do(old(View()), LockAcquire(c)) && Inv(View())
    {
      InvSteppable(View());
      SmpProof.StepKeeps(View(), LockAcquire(c));
      cpusLock := Some(c);
      cpus := cpus[c := cpus[c].(waiting := false)];
    }

    /** rt_cpus_unlock */
    method CpusUnlock(c: nat)
      requires Valid() && Inv(View()) && Enabled(View(), Unlock(c))
      modifies this
      ensures Valid() && Steppable(old(View())) && View() == Do(old(View()), Unlock(c)) && Inv(View())
    {
      InvSteppable(View());
      SmpProof.StepKeeps(View(), Unlock(c));
      var t := cpus[c].current.value;
      threads := threads[t := threads[t].(cpusNest := threads[t].cpusNest - 1)];
      if threads[t].cpusNest == 0 {
        threads := threads[t := threads[t].(schedNest := threads[t].schedNest - 1)];
        cpusLock := None;
      }
    }

    /** rt_enter_critical */
    method CriticalEnter(c: nat)
      requires Valid() && Inv(View()) && Enabled(View(), EnterCritical(c))
      modifies this
      ensures Valid() && Steppable(old(View())) && View() == Do(old(View()), EnterCritical(c)) && Inv(View())
    {
      InvSteppable(View());
      SmpProof.StepKeeps(View(), EnterCritical(c));
      var t := cpus[c].current.value;
      if threads[t].schedNest == B2N(threads[t].cpusNest > 0) { criticalLock := Some(t); }
      threads := threads[t := threads[t].(schedNest := threads[t].schedNest + 1, crit := threads[t].crit + 1)];
    }

    /** rt_exit_critical, without its final rt_schedule */
    method CriticalExit(c: nat)
      requires Valid() && Inv(View()) && Enabled(View(), ExitCritical(c))
      modifies this
      ensures Valid() && Steppable(old(View())) && View() == Do(old(View()), ExitCritical(c)) && Inv(View())
    {
      InvSteppable(View());
      SmpProof.StepKeeps(View(), ExitCritical(c));
      var t := cpus[c].current.value;
      threads := threads[t := threads[t].(schedNest := threads[t].schedNest - 1, crit := threads[t].crit - 1)];
      if threads[t].schedNest == B2N(threads[t].cpusNest > 0) { criticalLock := None; }
    }

    /** rt_schedule, between its lock and its unlock */
    method RtSchedule(c: nat)
      requires Valid() && Inv(View()) && Enabled(View(), Schedule(c))
      modifies this
      ensures Valid() && Steppable(old(View())) && View() == Do(old(View()), Schedule(c)) && Inv(View())
      ensures old(cpus)[c].irqNest > 0 ==> |cpus| == |old(cpus)| && cpus[c] == old(cpus)[c].(irqFlag := true)
    {
      InvSteppable(View());
      SmpProof.StepKeeps(View(), Schedule(c));
      var t := cpus[c].current.value;
      HeadsAreQueued(View(), c);
      if cpus[c].irqNest > 0 {
        cpus := cpus[c := cpus[c].(irqFlag := true)];
      } else if threads[t].schedNest == 1 {
        SwitchIfNeeded(c, false);
      }
    }

    /** rt_scheduler_do_irq_switch, between its lock and its unlock */
    method DoIrqSwitch(c: nat)
      requires Valid() && Inv(View()) && Enabled(View(), IrqSwitch(c))
      modifies this
      ensures Valid() && Steppable(old(View())) && View() == Do(old(View()), IrqSwitch(c)) && Inv(View())
    {
      InvSteppable(View());
      SmpProof.StepKeeps(View(), IrqSwitch(c));
      HeadsAreQueued(View(), c);
      IrqSwitchIfNeeded(c);
    }

    /** rt_thread_suspend on oneself */
    method ThreadSuspend(c: nat)
      requires Valid() && Inv(View()) && Enabled(View(), Suspend(c))
      modifies this
      ensures Valid() && Steppable(old(View())) && View() == Do(old(View()), Suspend(c)) && Inv(View())
    {
      InvSteppable(View());
      SmpProof.StepKeeps(View(), Suspend(c));
      var t := cpus[c].current.value;
      if threads[t].stat == Ready {
        threads := threads[t := threads[t].(stat := Suspended)];
        RemoveThread(t);
      }
    }

    /** rt_thread_resume, and rt_thread_timeout */
    method ThreadResume(c: nat, t: nat)
      requires Valid() && Inv(View()) && Enabled(View(), Resume(c, t))
      modifies this
      ensures Valid() && Steppable(old(View())) && View() == Do(old(View()), Resume(c, t)) && Inv(View())
    {
      InvSteppable(View());
      SmpProof.StepKeeps(View(), Resume(c, t));
      if threads[t].stat == Suspended { InsertThread(t); }
    }

    /** rt_thread_control(RT_THREAD_CTRL_CHANGE_PRIORITY) */
    method ThreadChangePriority(c: nat, t: nat, p: nat)
      requires Valid() && Inv(View()) && Enabled(View(), ChangePriority(c, t, p))
      modifies this
      ensures Valid() && Steppable(old(View())) && View() == Do(old(View()), ChangePriority(c, t, p)) && Inv(View())
    {
      InvSteppable(View());
      SmpProof.StepKeeps(View(), ChangePriority(c, t, p));
      Retune(t, p);
    }

    /** rt_thread_startup, without its final rt_schedule */
    method ThreadStartup(c: nat, t: nat)
      requires Valid() && Inv(View()) && Enabled(View(), Startup(c, t))
      modifies this
      ensures Valid() && Steppable(old(View())) && View() == Do(old(View()), Startup(c, t)) && Inv(View())
    {
      InvSteppable(View());
      SmpProof.StepKeeps(View(), Startup(c, t));
      var prio := threads[t].initPrio;
      threads := threads[t := threads[t].(prio := prio, stat := Suspended)];
      numberMask := numberMask[t := OneHot(32, prio)];
      InsertThread(t);
    }

    /** rt_system_scheduler_start */
    method SchedulerStart(c: nat)
      requires Valid() && Inv(View()) && Enabled(View(), Boot(c))
      modifies this
      ensures Valid() && Steppable(old(View())) && View() == Do(old(View()), Boot(c)) && Inv(View())
    {
      InvSteppable(View());
      SmpProof.StepKeeps(View(), Boot(c));
      HeadsAreQueued(View(), c);
      StartOn(c);
    }
  }
}
