/** The SMP scheduler and the CPU lock as a transition system over values. */
module SmpModel {
  // One step is one piece of kernel code that runs either with interrupts off on its own CPU (taking and releasing the
  // locks) or with `_cpus_lock` held (everything that touches the ready lists).  Steps of different CPUs interleave
  // freely.

  import opened Seqs
  import opened Wrappers

  const PRIO_MAX := 32

  datatype Stat = Init | Ready | Suspended

  /** `struct rt_thread`.  `bind` and `oncpu` use the number of CPUs for "not bound" and
      "detached", as the kernel does.  `crit` counts the critical sections the thread has open;
      the kernel keeps no such counter, only `schedNest`, which mixes it with the CPU lock. */
  datatype Tcb = Tcb(stat: Stat, bind: nat, oncpu: nat, prio: nat, initPrio: nat,
                     cpusNest: nat, schedNest: nat, crit: nat)

  /** `struct rt_cpu`.  `waiting`: this CPU spins on `_cpus_lock` inside `rt_cpus_lock`. */
  datatype Cpu = Cpu(current: Option<nat>, irqNest: nat, irqFlag: bool, curPrio: nat, waiting: bool)

  /** A ready list: those of CPU `q` when `q` is a CPU, the global ones when `q` is their number. */
  datatype Slot = Slot(q: nat, p: nat)

  datatype State = State(threads: seq<Tcb>, cpus: seq<Cpu>,
                         ready: map<Slot, seq<nat>>, group: seq<set<nat>>,
                         holder: Option<nat>, critOwner: Option<nat>)
  {
    function N(): nat { |cpus| }
  }

  // ---------------------------------------------------------------- well-formedness

  predicate Shape(s: State) {
    && |s.group| == s.N() + 1
    && (forall q, p :: 0 <= q <= s.N() && 0 <= p < PRIO_MAX ==> Slot(q, p) in s.ready)
    && (forall t :: 0 <= t < |s.threads| ==>
          && s.threads[t].bind <= s.N() && s.threads[t].oncpu <= s.N()
          && s.threads[t].prio < PRIO_MAX && s.threads[t].initPrio < PRIO_MAX)
    && (forall c :: 0 <= c < s.N() && s.cpus[c].current.Some? ==> s.cpus[c].current.value < |s.threads|)
  }

  // ---------------------------------------------------------------- the invariant

  /** A thread is current on a CPU exactly when its `oncpu` names that CPU. */
  ghost predicate OnCpuAgrees(s: State)
    requires Shape(s)
  {
    && (forall c :: 0 <= c < s.N() && s.cpus[c].current.Some? ==> s.threads[s.cpus[c].current.value].oncpu == c)
    && (forall t :: 0 <= t < |s.threads| && s.threads[t].oncpu < s.N() ==>
          s.cpus[s.threads[t].oncpu].current == Some(t) && s.threads[t].stat != Init)
  }

  /** A ready list holds only detached READY threads that belong there, each once. */
  ghost predicate ListsSound(s: State)
    requires Shape(s)
  {
    forall k :: k in s.ready ==>
      && Distinct(s.ready[k])
      && (forall t :: t in s.ready[k] ==>
            && t < |s.threads| && s.threads[t].stat == Ready && s.threads[t].oncpu == s.N()
            && k == Slot(s.threads[t].bind, s.threads[t].prio))
  }

  /** No detached READY thread is missing from its list. */
  ghost predicate ListsComplete(s: State)
    requires Shape(s)
  {
    forall t :: 0 <= t < |s.threads| && s.threads[t].stat == Ready && s.threads[t].oncpu == s.N() ==>
      t in s.ready[Slot(s.threads[t].bind, s.threads[t].prio)]
  }

  /** A bit of a priority group is set exactly when the list of that priority is not empty. */
  ghost predicate BitmapAgrees(s: State)
    requires Shape(s)
  {
    forall q, p :: 0 <= q <= s.N() && 0 <= p < PRIO_MAX ==> (p in s.group[q] <==> s.ready[Slot(q, p)] != [])
  }

  ghost predicate BitmapBounded(s: State) {
    forall q, p :: 0 <= q < |s.group| && p in s.group[q] ==> p < PRIO_MAX
  }

  function B2N(b: bool): nat { if b then 1 else 0 }

  /** The counters: `schedNest` is the open critical sections plus one for the CPU lock. */
  ghost predicate NestsAgree(s: State) {
    && (forall t :: 0 <= t < |s.threads| ==>
          s.threads[t].schedNest == s.threads[t].crit + B2N(s.threads[t].cpusNest > 0))
    && (forall t :: 0 <= t < |s.threads| && s.threads[t].stat == Init ==>
          s.threads[t].cpusNest == 0 && s.threads[t].crit == 0)
  }

  /** `_cpus_lock` belongs to the CPU whose current thread is inside and past the spin loop. */
  ghost predicate LockAgrees(s: State)
    requires Shape(s)
  {
    && (s.holder.Some? ==> s.holder.value < s.N())
    && (forall c :: 0 <= c < s.N() ==> CpuLockAgrees(s, c))
  }

  ghost predicate CpuLockAgrees(s: State, c: nat)
    requires Shape(s) && c < s.N()
  {
    match s.cpus[c].current
    case None => !s.cpus[c].waiting
    case Some(t) =>
      && (s.holder == Some(c) <==> s.threads[t].cpusNest > 0 && !s.cpus[c].waiting)
      && (s.cpus[c].waiting ==> s.threads[t].cpusNest == 1)
  }

  /** `_rt_critical_lock` belongs to the one thread with open critical sections, which is running. */
  ghost predicate CriticalAgrees(s: State)
    requires Shape(s)
  {
    && (forall t :: 0 <= t < |s.threads| ==> (s.critOwner == Some(t) <==> s.threads[t].crit > 0))
    && (s.critOwner.Some? ==> s.critOwner.value < |s.threads|)
    && (forall t :: 0 <= t < |s.threads| && s.threads[t].crit > 0 ==> s.threads[t].oncpu < s.N())
  }

  /** Everybody is in exactly one place. */
  ghost predicate Places(s: State)
    requires Shape(s)
  {
    OnCpuAgrees(s) && ListsSound(s) && ListsComplete(s) && BitmapAgrees(s) && BitmapBounded(s)
  }

  /** The counters and the two spin locks agree. */
  ghost predicate Locks(s: State)
    requires Shape(s)
  {
    NestsAgree(s) && LockAgrees(s) && CriticalAgrees(s)
  }

  ghost predicate Inv(s: State) { Shape(s) && Places(s) && Locks(s) }

  // ---------------------------------------------------------------- kernel code as functions

  function SetThread(s: State, t: nat, r: Tcb): State
    requires t < |s.threads|
  {
    s.(threads := s.threads[t := r])
  }

  function SetCpu(s: State, c: nat, r: Cpu): State
    requires c < s.N()
  {
    s.(cpus := s.cpus[c := r])
  }

  /** `rt_schedule_insert_thread`: mark READY and, unless some CPU runs it, append to its list. */
  function Insert(s: State, t: nat): (r: State)
    requires Shape(s) && t < |s.threads|
    ensures Shape(r) && r.cpus == s.cpus && r.holder == s.holder && r.critOwner == s.critOwner
    ensures r.threads == s.threads[t := s.threads[t].(stat := Ready)]
  {
    var r := s.threads[t].(stat := Ready);
    var s1 := SetThread(s, t, r);
    if r.oncpu != s.N() then s1
    else
      var k := Slot(r.bind, r.prio);
      s1.(ready := s.ready[k := s.ready[k] + [t]], group := s.group[k.q := s.group[k.q] + {k.p}])
  }

  /** `rt_schedule_remove_thread`: unlink, and clear the bit when the list has become empty. */
  function Remove(s: State, t: nat): (r: State)
    requires Shape(s) && t < |s.threads|
    ensures Shape(r) && r.cpus == s.cpus && r.threads == s.threads
    ensures r.holder == s.holder && r.critOwner == s.critOwner
  {
    var k := Slot(s.threads[t].bind, s.threads[t].prio);
    var l := Without(s.ready[k], t);
    s.(ready := s.ready[k := l],
       group := if l == [] then s.group[k.q := s.group[k.q] - {k.p}] else s.group)
  }

  /** The least member, which is what `__rt_ffs` finds, or None (the code's wrapped-around -1). */
  function Lowest(bits: set<nat>): (r: Option<nat>)
    ensures r.None? <==> bits == {}
    ensures r.Some? ==> r.value in bits && forall b :: b in bits ==> r.value <= b
  {
    if bits == {} then None
    else
      LeastExists(bits);
      var m :| m in bits && forall b :: b in bits ==> m <= b;
      Some(m)
  }

  lemma {:induction false} LeastExists(bits: set<nat>)
    requires bits != {}
    ensures exists m :: m in bits && forall b :: b in bits ==> m <= b
    decreases bits
  {
    var x :| x in bits;
    if bits - {x} != {} {
      LeastExists(bits - {x});
      var m :| m in bits - {x} && forall b :: b in bits - {x} ==> m <= b;
      var w := if x < m then x else m;
      forall b | b in bits ensures w <= b {
        assert b == x || b in bits - {x};
      }
    } else {
      assert bits == {x};
    }
  }

  /** `_get_highest_priority_thread` on CPU c: the slot whose first thread is chosen.  On equal
      priority the CPU's own list wins. */
  function HighestSlot(s: State, c: nat): (k: Slot)
    requires Shape(s) && c < s.N() && (s.group[s.N()] != {} || s.group[c] != {})
    ensures (k.q == s.N() || k.q == c) && k.p in s.group[k.q]
    ensures forall p :: p in s.group[s.N()] || p in s.group[c] ==> k.p <= p
  {
    var g, l := Lowest(s.group[s.N()]), Lowest(s.group[c]);
    if g.Some? && (l.None? || g.value < l.value) then Slot(s.N(), g.value) else Slot(c, l.value)
  }

  /** Switch CPU c to thread u, then `rt_cpus_lock_status_restore(u)`. */
  function SwitchTo(s: State, c: nat, u: nat): State
    requires c < s.N() && u < |s.threads|
  {
    var s1 := SetCpu(s, c, s.cpus[c].(current := Some(u)));
    if s.threads[u].cpusNest == 0 then s1.(holder := None) else s1
  }

  /** Every set bit has a list behind it whose first thread exists. */
  ghost predicate Pickable(s: State)
    requires Shape(s)
  {
    forall q, p :: 0 <= q <= s.N() && p in s.group[q] ==>
      p < PRIO_MAX && s.ready[Slot(q, p)] != [] && s.ready[Slot(q, p)][0] < |s.threads|
  }

  /** Take CPU c away from its thread t: detach it and, when it is still READY, queue it. */
  function Leave(s: State, t: nat): (r: State)
    requires Shape(s) && t < |s.threads|
    ensures Shape(r) && r.cpus == s.cpus && |r.threads| == |s.threads|
  {
    var s1 := SetThread(s, t, s.threads[t].(oncpu := s.N()));
    if s.threads[t].stat == Ready then Insert(s1, t) else s1
  }

  /** Give CPU c to thread u of priority prio: claim it and unlink it from its ready list. */
  function Claim(s: State, c: nat, u: nat, prio: nat): (r: State)
    requires Shape(s) && c < s.N() && u < |s.threads|
    ensures Shape(r) && |r.cpus| == |s.cpus| && |r.threads| == |s.threads|
  {
    var s1 := SetThread(s, u, s.threads[u].(oncpu := c));
    Remove(SetCpu(s1, c, s.cpus[c].(curPrio := prio)), u)
  }

  /** The interrupt exit gives back its lock count itself: the interrupted thread continues where
      it was interrupted and never reaches the unlock. */
  function DropNest(s: State, t: nat): (r: State)
    requires t < |s.threads| && s.threads[t].cpusNest > 0 && s.threads[t].schedNest > 0
  {
    var r := s.threads[t];
    SetThread(s, t, r.(cpusNest := r.cpusNest - 1, schedNest := r.schedNest - 1))
  }

  /** What `rt_schedule` and `rt_scheduler_do_irq_switch` share: who runs next on CPU c. */
  function Reschedule(s: State, c: nat, fromIrq: bool): State
    requires Shape(s) && Pickable(s) && c < s.N() && s.cpus[c].current.Some?
    requires s.threads[s.cpus[c].current.value].schedNest == 1
    requires s.threads[s.cpus[c].current.value].cpusNest > 0
  {
    var t := s.cpus[c].current.value;
    if s.group[s.N()] == {} && s.group[c] == {} then s
    else
      var k := HighestSlot(s, c);
      var first := s.ready[k][0];
      if s.threads[t].stat == Ready && s.threads[t].prio < k.p then s
      else
        Switch(s, c, t, first, k.p, fromIrq)
  }

  /** Leave thread t, claim thread u, switch. */
  function Switch(s: State, c: nat, t: nat, u: nat, prio: nat, fromIrq: bool): State
    requires Shape(s) && c < s.N() && t < |s.threads| && u < |s.threads|
    requires s.threads[t].schedNest > 0 && s.threads[t].cpusNest > 0
  {
    var s1 := Claim(Leave(s, t), c, u, prio);
    SwitchTo(if fromIrq then DropNest(s1, t) else s1, c, u)
  }

  // ---------------------------------------------------------------- steps

  datatype Step =
    | LockBegin(c: nat)                     // rt_cpus_lock up to the spin loop
    | LockAcquire(c: nat)                   // ... leaving the spin loop
    | Unlock(c: nat)                        // rt_cpus_unlock
    | EnterCritical(c: nat)                 // rt_enter_critical
    | ExitCritical(c: nat)                  // rt_exit_critical, without its final rt_schedule
    | IrqEnter(c: nat)                      // rt_interrupt_enter
    | IrqLeave(c: nat)                      // rt_interrupt_leave
    | Schedule(c: nat)                      // rt_schedule, between its lock and its unlock
    | IrqSwitch(c: nat)                     // rt_scheduler_do_irq_switch, likewise
    | Suspend(c: nat)                       // rt_thread_suspend on oneself
    | Resume(c: nat, t: nat)                // rt_thread_resume and rt_thread_timeout
    | ChangePriority(c: nat, t: nat, p: nat) // rt_thread_control
    | Startup(c: nat, t: nat)               // rt_thread_startup, without its final rt_schedule
    | BindCpu(t: nat, q: nat)               // rt_thread_control, before the start
    | BootLock(c: nat)                      // the start-up code takes _cpus_lock by hand
    | Boot(c: nat)                          // rt_system_scheduler_start

  /** CPU c runs a thread and is past `rt_cpus_lock`. */
  predicate Inside(s: State, c: nat) {
    c < s.N() && s.cpus[c].current.Some? && s.cpus[c].current.value < |s.threads|
    && s.holder == Some(c) && !s.cpus[c].waiting
  }

  /** CPU c runs a thread and is not stuck in the spin loop of `rt_cpus_lock`. */
  predicate Active(s: State, c: nat) {
    c < s.N() && s.cpus[c].current.Some? && s.cpus[c].current.value < |s.threads| && !s.cpus[c].waiting
  }

  /** No CPU has started its scheduler. */
  predicate BeforeBoot(s: State) {
    s.holder == None && forall c :: 0 <= c < s.N() ==> s.cpus[c].current == None
  }

  function Cur(s: State, c: nat): Tcb
    requires Active(s, c)
  {
    s.threads[s.cpus[c].current.value]
  }

  /** When a step can happen: who holds what, and what the callers of the code owe it. */
  predicate Enabled(s: State, e: Step)
    requires Shape(s)
  {
    match e
    case LockBegin(c) => Active(s, c)
    case LockAcquire(c) => c < s.N() && s.cpus[c].waiting && s.holder == None
    case Unlock(c) => Inside(s, c) && Cur(s, c).cpusNest > 0
    case EnterCritical(c) =>
      // the first section spins until `_rt_critical_lock` is free
      Active(s, c) && (Cur(s, c).schedNest == B2N(Cur(s, c).cpusNest > 0) ==> s.critOwner == None)
    case ExitCritical(c) => Active(s, c) && Cur(s, c).crit > 0
    case IrqEnter(c) => Inside(s, c)
    case IrqLeave(c) => Inside(s, c) && s.cpus[c].irqNest > 0
    case Schedule(c) => Inside(s, c)
    case IrqSwitch(c) => Inside(s, c) && Cur(s, c).cpusNest == 1  // interrupts were on outside
    case Suspend(c) => Inside(s, c)
    case Resume(c, t) => Inside(s, c) && t < |s.threads|
    case ChangePriority(c, t, p) => Inside(s, c) && t < |s.threads| && p < PRIO_MAX
    case Startup(c, t) => t < |s.threads| && s.threads[t].stat == Init && (Inside(s, c) || BeforeBoot(s))
    case BindCpu(t, q) => t < |s.threads|
    case BootLock(c) => c < s.N() && s.cpus[c].current == None && s.holder == None
    case Boot(c) =>
      c < s.N() && s.cpus[c].current == None && s.holder == Some(c) && !s.cpus[c].waiting
      && (s.group[s.N()] != {} || s.group[c] != {})
  }

  function ScheduleBody(s: State, c: nat): State
    requires Shape(s) && Pickable(s) && Inside(s, c)
    requires Cur(s, c).cpusNest > 0
  {
    if s.cpus[c].irqNest > 0 then SetCpu(s, c, s.cpus[c].(irqFlag := true))
    else if Cur(s, c).schedNest == 1 then Reschedule(s, c, false)
    else s
  }

  function IrqSwitchBody(s: State, c: nat): State
    requires Shape(s) && Pickable(s) && Inside(s, c)
    requires Cur(s, c).cpusNest > 0
  {
    if !s.cpus[c].irqFlag then s
    else if Cur(s, c).schedNest == 1 && s.cpus[c].irqNest == 0 then
      Reschedule(SetCpu(s, c, s.cpus[c].(irqFlag := false)), c, true)
    else s
  }

  function LockBeginBody(s: State, c: nat): State
    requires Active(s, c)
  {
    var t, r := s.cpus[c].current.value, Cur(s, c);
    if r.cpusNest == 0 then
      SetCpu(SetThread(s, t, r.(cpusNest := 1, schedNest := r.schedNest + 1)), c, s.cpus[c].(waiting := true))
    else SetThread(s, t, r.(cpusNest := r.cpusNest + 1))
  }

  function UnlockBody(s: State, c: nat): State
    requires Active(s, c) && Cur(s, c).cpusNest > 0 && (Cur(s, c).cpusNest == 1 ==> Cur(s, c).schedNest > 0)
  {
    var t, r := s.cpus[c].current.value, Cur(s, c);
    if r.cpusNest == 1 then SetThread(s, t, r.(cpusNest := 0, schedNest := r.schedNest - 1)).(holder := None)
    else SetThread(s, t, r.(cpusNest := r.cpusNest - 1))
  }

  function EnterCriticalBody(s: State, c: nat): State
    requires Active(s, c)
  {
    var t, r := s.cpus[c].current.value, Cur(s, c);
    SetThread(s, t, r.(schedNest := r.schedNest + 1, crit := r.crit + 1))
    .(critOwner := if r.schedNest == B2N(r.cpusNest > 0) then Some(t) else s.critOwner)
  }

  function ExitCriticalBody(s: State, c: nat): State
    requires Active(s, c) && Cur(s, c).crit > 0 && Cur(s, c).schedNest > 0
  {
    var t, r := s.cpus[c].current.value, Cur(s, c);
    SetThread(s, t, r.(schedNest := r.schedNest - 1, crit := r.crit - 1))
    .(critOwner := if r.schedNest - 1 == B2N(r.cpusNest > 0) then None else s.critOwner)
  }

  function SuspendBody(s: State, t: nat): State
    requires Shape(s) && t < |s.threads|
  {
    if s.threads[t].stat != Ready then s  // -RT_ERROR
    else Remove(SetThread(s, t, s.threads[t].(stat := Suspended)), t)
  }

  function ResumeBody(s: State, t: nat): State
    requires Shape(s) && t < |s.threads|
  {
    if s.threads[t].stat != Suspended then s  // -RT_ERROR
    else Insert(s, t)
  }

  function ChangePriorityBody(s: State, t: nat, p: nat): State
    requires Shape(s) && t < |s.threads| && p < PRIO_MAX
  {
    if s.threads[t].stat == Ready then
      var s1 := Remove(s, t);
      Insert(SetThread(s1, t, s1.threads[t].(prio := p)), t)
    else SetThread(s, t, s.threads[t].(prio := p))
  }

  function StartupBody(s: State, t: nat): State
    requires Shape(s) && t < |s.threads|
  {
    ResumeBody(SetThread(s, t, s.threads[t].(prio := s.threads[t].initPrio, stat := Suspended)), t)
  }

  function BootBody(s: State, c: nat): State
    requires Shape(s) && Pickable(s) && c < s.N() && (s.group[s.N()] != {} || s.group[c] != {})
  {
    var k := HighestSlot(s, c);
    var first := s.ready[k][0];
    SwitchTo(Remove(SetThread(s, first, s.threads[first].(oncpu := c)), first), c, first)
  }

  /** What the step functions need of a state to be defined; part of the invariant. */
  ghost predicate Steppable(s: State) {
    && Shape(s) && Pickable(s) && NestsAgree(s)
    && forall c :: Inside(s, c) ==> Cur(s, c).cpusNest > 0
  }

  function Do(s: State, e: Step): State
    requires Steppable(s) && Enabled(s, e)
  {
    match e
    case LockBegin(c) => LockBeginBody(s, c)
    case LockAcquire(c) => SetCpu(s, c, s.cpus[c].(waiting := false)).(holder := Some(c))
    case Unlock(c) => UnlockBody(s, c)
    case EnterCritical(c) => EnterCriticalBody(s, c)
    case ExitCritical(c) => ExitCriticalBody(s, c)
    case IrqEnter(c) => SetCpu(s, c, s.cpus[c].(irqNest := s.cpus[c].irqNest + 1))
    case IrqLeave(c) => SetCpu(s, c, s.cpus[c].(irqNest := s.cpus[c].irqNest - 1))
    case Schedule(c) => ScheduleBody(s, c)
    case IrqSwitch(c) => IrqSwitchBody(s, c)
    case Suspend(c) => SuspendBody(s, s.cpus[c].current.value)
    case Resume(c, t) => ResumeBody(s, t)
    case ChangePriority(c, t, p) => ChangePriorityBody(s, t, p)
    case Startup(c, t) => StartupBody(s, t)
    case BindCpu(t, q) =>
      if s.threads[t].stat != Init then s  // RT_ERROR
      else SetThread(s, t, s.threads[t].(bind := if q > s.N() then s.N() else q))
    case BootLock(c) => s.(holder := Some(c))
    case Boot(c) => BootBody(s, c)
  }

  lemma InvSteppable(s: State)
    requires Inv(s)
    ensures Steppable(s)
  {
    forall q, p | 0 <= q <= s.N() && p in s.group[q]
      ensures p < PRIO_MAX && s.ready[Slot(q, p)] != [] && s.ready[Slot(q, p)][0] < |s.threads|
    {
      assert s.ready[Slot(q, p)][0] in s.ready[Slot(q, p)];
    }
    forall c | Inside(s, c) ensures Cur(s, c).cpusNest > 0 { assert CpuLockAgrees(s, c); }
  }
}
