/** scheduler.c for SMP: a switch that is asked for inside an interrupt is made at its end. */
module SmpIrq {
  import opened Wrappers
  import opened SmpModel
  import opened SmpProof

  /** `rt_schedule` is called inside an interrupt. */
  predicate Asks(s: State, e: Step, c: nat) { e == Schedule(c) && c < s.N() && s.cpus[c].irqNest > 0 }

  /** The outermost interrupt ends on a CPU whose thread has no critical section open. */
  predicate Serves(s: State, e: Step, c: nat) {
    e == IrqSwitch(c) && c < s.N() && s.cpus[c].irqNest == 0 && Inside(s, c) && Cur(s, c).crit == 0
  }

  /** `rt_schedule` is called outside interrupts, by a thread that has no critical section open. */
  predicate Chooses(s: State, e: Step, c: nat) {
    e == Schedule(c) && c < s.N() && s.cpus[c].irqNest == 0 && Inside(s, c) && Cur(s, c).crit == 0
  }

  /** What step e, from s to r, makes of CPU c: asking sets `irq_switch_flag` and serving clears it; interrupts nest by one; and
      the thread only changes when it may: at the boot, outside interrupts and critical sections, or where a switch is served. */
  predicate CpuChange(s: State, e: Step, c: nat, r: State) {
    && c < s.N() && r.N() == s.N()
    && (r.cpus[c].irqFlag <==> Asks(s, e, c) || (s.cpus[c].irqFlag && !Serves(s, e, c)))
    && r.cpus[c].irqNest == s.cpus[c].irqNest + (if e == IrqEnter(c) then 1 else if e == IrqLeave(c) then -1 else 0)
    && (r.cpus[c].current != s.cpus[c].current ==>
          e == Boot(c) || Chooses(s, e, c) || (Serves(s, e, c) && s.cpus[c].irqFlag))
  }

  lemma CpuStep(s: State, e: Step, c: nat)
    requires Inv(s) && Steppable(s) && Enabled(s, e) && c < s.N()
    ensures CpuChange(s, e, c, Do(s, e))
  {
    match e
    case Schedule(d) => ScheduleCpus(s, d, c);
    case IrqSwitch(d) => IrqSwitchCpus(s, d, c);
    case _ => OtherCpus(s, e, c);
  }

  lemma OtherCpus(s: State, e: Step, c: nat)
    requires Steppable(s) && Enabled(s, e) && c < s.N() && !e.Schedule? && !e.IrqSwitch?
    ensures CpuChange(s, e, c, Do(s, e))
  {
    hide Pickable, NestsAgree, Lowest, Insert, Remove;
  }

  lemma ScheduleCpus(s: State, d: nat, c: nat)
    requires Inv(s) && Steppable(s) && Inside(s, d) && c < s.N()
    ensures CpuChange(s, Schedule(d), c, ScheduleBody(s, d))
  {
    hide Places, Reschedule;
    if s.cpus[d].irqNest == 0 && Cur(s, d).schedNest == 1 { RescheduleCpus(s, d, false, c); }
  }

  lemma IrqSwitchCpus(s: State, d: nat, c: nat)
    requires Inv(s) && Steppable(s) && Inside(s, d) && c < s.N()
    ensures CpuChange(s, IrqSwitch(d), c, IrqSwitchBody(s, d))
  {
    hide Places, Reschedule;
    if s.cpus[d].irqFlag && s.cpus[d].irqNest == 0 && Cur(s, d).schedNest == 1 {
      RescheduleCpus(SetCpu(s, d, s.cpus[d].(irqFlag := false)), d, true, c);
    }
  }

  lemma RescheduleCpus(s: State, d: nat, fromIrq: bool, c: nat)
    requires Shape(s) && Pickable(s) && d < s.N() && s.cpus[d].current.Some? && c < s.N()
    requires s.threads[s.cpus[d].current.value].schedNest == 1 && s.threads[s.cpus[d].current.value].cpusNest > 0
    ensures var r := Reschedule(s, d, fromIrq);
      && r.N() == s.N() && r.cpus[c].irqFlag == s.cpus[c].irqFlag && r.cpus[c].irqNest == s.cpus[c].irqNest
      && (c != d ==> r.cpus[c] == s.cpus[c])
  {
    hide Insert, Remove, Lowest, Shape;
  }

  /** A run with its steps. */
  ghost predicate Trace(tr: seq<State>, es: seq<Step>) {
    |tr| == |es| + 1 && Initial(tr[0]) && forall i :: 0 <= i < |es| ==> Leads(tr, es, i)
  }

  ghost predicate Leads(tr: seq<State>, es: seq<Step>, i: nat)
    requires |tr| == |es| + 1 && i < |es|
  {
    Steppable(tr[i]) && Enabled(tr[i], es[i]) && tr[i + 1] == Do(tr[i], es[i])
  }

  lemma TraceIsRun(tr: seq<State>, es: seq<Step>)
    requires Trace(tr, es)
    ensures Run(tr) && forall i :: 0 <= i < |tr| ==> Inv(tr[i]) && tr[i].N() == tr[0].N()
  {
    forall i | 0 <= i < |tr| - 1 ensures Next(tr[i], tr[i + 1]) { assert Leads(tr, es, i); }
    RunsKeepInv(tr);
    forall i | 0 <= i < |tr| ensures tr[i].N() == tr[0].N() { TraceCpus(tr, es, i); }
  }

  lemma {:induction false} TraceCpus(tr: seq<State>, es: seq<Step>, i: nat)
    requires |tr| == |es| + 1 && (forall k :: 0 <= k < |es| ==> Leads(tr, es, k)) && i < |tr|
    ensures tr[i].N() == tr[0].N()
  {
    if i > 0 {
      TraceCpus(tr, es, i - 1);
      assert Leads(tr, es, i - 1);
      SameCpus(tr[i - 1], es[i - 1]);
    }
  }

  /** Once a switch was asked for inside an interrupt, at step i, the flag is set until one is served. */
  lemma {:induction false} RequestKept(tr: seq<State>, es: seq<Step>, c: nat, i: nat, j: nat)
    requires Trace(tr, es) && i < j < |tr| && Asks(tr[i], es[i], c)
    requires forall k :: i < k < j ==> !Serves(tr[k], es[k], c)
    ensures c < tr[j].N() && tr[j].cpus[c].irqFlag
    decreases j
  {
    hide Inv, Run, Do, Enabled, Steppable, Serves, Initial;
    TraceIsRun(tr, es);
    assert Leads(tr, es, j - 1);
    assert c < tr[i].N();
    if j - 1 > i { RequestKept(tr, es, c, i, j - 1); }
    CpuStep(tr[j - 1], es[j - 1], c);
  }

  /** And the first step that serves it leaves nobody whom the CPU may draw from more urgent than the thread it runs. */
  lemma RequestServed(tr: seq<State>, es: seq<Step>, c: nat, i: nat, j: nat, u: nat, k: Slot)
    requires Trace(tr, es) && i < j < |es| && Asks(tr[i], es[i], c) && Serves(tr[j], es[j], c)
    requires forall n :: i < n < j ==> !Serves(tr[n], es[n], c)
    ensures c < tr[j + 1].N() && !tr[j + 1].cpus[c].irqFlag && RunsMostUrgent(tr[j + 1], c, u, k)
  {
    hide Inv, Run, Initial, Steppable, RunsMostUrgent, IrqSwitchBody;
    RequestKept(tr, es, c, i, j);
    TraceIsRun(tr, es);
    assert Leads(tr, es, j);
    CpuStep(tr[j], es[j], c);
    IrqSwitchRunsMostUrgent(tr[j], c, u, k);
  }
}
