/** Every reachable state of the SMP scheduler satisfies the invariant. */
module SmpProof {
  import opened Seqs
  import opened Wrappers
  import opened SmpModel

  // ---------------------------------------------------------------- steps that move nobody

  /** Nobody changes place: same lists, and every thread keeps what decides where it belongs. */
  ghost predicate SamePlaces(s: State, r: State) {
    && r.ready == s.ready && r.group == s.group && |r.threads| == |s.threads| && |r.cpus| == |s.cpus|
    && (forall t :: 0 <= t < |s.threads| ==>
          && r.threads[t].stat == s.threads[t].stat && r.threads[t].oncpu == s.threads[t].oncpu
          && r.threads[t].bind == s.threads[t].bind && r.threads[t].prio == s.threads[t].prio
          && r.threads[t].initPrio == s.threads[t].initPrio)
    && (forall c :: 0 <= c < s.N() ==> r.cpus[c].current == s.cpus[c].current)
  }

  lemma SamePlacesKeep(s: State, r: State)
    requires Shape(s) && Places(s) && SamePlaces(s, r)
    ensures Shape(r) && Places(r)
  {
  }

  /** Nothing changes for the locks: same counters, same owners, same CPUs under the threads. */
  ghost predicate SameLocks(s: State, r: State) {
    && r.holder == s.holder && r.critOwner == s.critOwner
    && |r.threads| == |s.threads| && |r.cpus| == |s.cpus|
    && (forall t :: 0 <= t < |s.threads| ==>
          && r.threads[t].cpusNest == s.threads[t].cpusNest && r.threads[t].schedNest == s.threads[t].schedNest
          && r.threads[t].crit == s.threads[t].crit && r.threads[t].oncpu == s.threads[t].oncpu
          && (r.threads[t].stat == Init ==> s.threads[t].stat == Init))
    && (forall c :: 0 <= c < s.N() ==>
          r.cpus[c].current == s.cpus[c].current && r.cpus[c].waiting == s.cpus[c].waiting)
  }

  lemma SameLocksKeep(s: State, r: State)
    requires Shape(s) && Locks(s) && SameLocks(s, r) && Shape(r)
    ensures Locks(r)
  {
    forall d | 0 <= d < s.N() ensures CpuLockAgrees(r, d) { assert CpuLockAgrees(s, d); }
  }

  lemma LockBeginLocks(s: State, c: nat)
    requires Shape(s) && Locks(s) && OnCpuAgrees(s) && Active(s, c)
    ensures Shape(LockBeginBody(s, c)) && Locks(LockBeginBody(s, c))
  {
    var r, t := LockBeginBody(s, c), s.cpus[c].current.value;
    forall d | 0 <= d < s.N() ensures CpuLockAgrees(r, d) {
      assert CpuLockAgrees(s, d) && CpuLockAgrees(s, c);
      if d != c { assert s.cpus[d].current != Some(t); }
    }
  }

  lemma LockBeginKeeps(s: State, c: nat)
    requires Inv(s) && Active(s, c)
    ensures Inv(LockBeginBody(s, c))
  {
    LockBeginLocks(s, c);
    assert SamePlaces(s, LockBeginBody(s, c));
    SamePlacesKeep(s, LockBeginBody(s, c));
  }

  lemma LockAcquireKeeps(s: State, c: nat)
    requires Inv(s) && c < s.N() && s.cpus[c].waiting && s.holder == None
    ensures Inv(SetCpu(s, c, s.cpus[c].(waiting := false)).(holder := Some(c)))
  {
    var r := SetCpu(s, c, s.cpus[c].(waiting := false)).(holder := Some(c));
    SamePlacesKeep(s, r);
    forall d | 0 <= d < s.N() ensures CpuLockAgrees(r, d) { assert CpuLockAgrees(s, d); }
  }

  lemma UnlockLocks(s: State, c: nat)
    requires Shape(s) && Locks(s) && OnCpuAgrees(s) && Inside(s, c) && Cur(s, c).cpusNest > 0
    ensures Shape(UnlockBody(s, c)) && Locks(UnlockBody(s, c))
  {
    var r, t := UnlockBody(s, c), s.cpus[c].current.value;
    forall d | 0 <= d < s.N() ensures CpuLockAgrees(r, d) {
      assert CpuLockAgrees(s, d) && CpuLockAgrees(s, c);
      if d != c { assert s.cpus[d].current != Some(t); }
    }
  }

  lemma UnlockKeeps(s: State, c: nat)
    requires Inv(s) && Inside(s, c) && Cur(s, c).cpusNest > 0
    ensures Inv(UnlockBody(s, c))
  {
    UnlockLocks(s, c);
    assert SamePlaces(s, UnlockBody(s, c));
    SamePlacesKeep(s, UnlockBody(s, c));
  }

  lemma EnterCriticalKeeps(s: State, c: nat)
    requires Inv(s) && Active(s, c)
    requires Cur(s, c).schedNest == B2N(Cur(s, c).cpusNest > 0) ==> s.critOwner == None
    ensures Inv(EnterCriticalBody(s, c))
  {
    var r := EnterCriticalBody(s, c);
    SamePlacesKeep(s, r);
    forall d | 0 <= d < s.N() ensures CpuLockAgrees(r, d) { assert CpuLockAgrees(s, d); }
  }

  lemma ExitCriticalKeeps(s: State, c: nat)
    requires Inv(s) && Active(s, c) && Cur(s, c).crit > 0
    ensures Inv(ExitCriticalBody(s, c))
  {
    var r := ExitCriticalBody(s, c);
    SamePlacesKeep(s, r);
    forall d | 0 <= d < s.N() ensures CpuLockAgrees(r, d) { assert CpuLockAgrees(s, d); }
  }

  // ---------------------------------------------------------------- list surgery

  /** A thread that is in no ready list: removing it changes nothing at all. */
  lemma RemoveNoop(s: State, t: nat)
    requires Inv(s) && t < |s.threads|
    requires s.threads[t].stat != Ready || s.threads[t].oncpu < s.N()
    ensures Remove(s, t) == s
  {
    var k := Slot(s.threads[t].bind, s.threads[t].prio);
    assert t !in s.ready[k];
    WithoutAbsent(s.ready[k], t);
    if s.ready[k] == [] { assert k.p !in s.group[k.q]; assert s.group[k.q] - {k.p} == s.group[k.q]; }
  }

  /** Queueing a suspended thread keeps the lists, whether some CPU still runs it or not. */
  lemma InsertLists(s: State, t: nat)
    requires Shape(s) && ListsSound(s) && ListsComplete(s) && t < |s.threads| && s.threads[t].stat == Suspended
    ensures ListsSound(Insert(s, t)) && ListsComplete(Insert(s, t))
  {
    var r := Insert(s, t);
    var k := Slot(s.threads[t].bind, s.threads[t].prio);
    assert t !in s.ready[k];
    assert s.threads[t].oncpu == s.N() ==> t in r.ready[k];
  }

  lemma InsertBits(s: State, t: nat)
    requires Shape(s) && BitmapAgrees(s) && BitmapBounded(s) && t < |s.threads|
    ensures BitmapAgrees(Insert(s, t)) && BitmapBounded(Insert(s, t))
  {
  }

  lemma InsertKeeps(s: State, t: nat)
    requires Inv(s) && t < |s.threads| && s.threads[t].stat == Suspended
    ensures Inv(Insert(s, t))
  {
    InsertLists(s, t);
    InsertBits(s, t);
    assert SameLocks(s, Insert(s, t));
    SameLocksKeep(s, Insert(s, t));
  }

  lemma RemoveBits(s: State, t: nat)
    requires Shape(s) && BitmapAgrees(s) && BitmapBounded(s) && t < |s.threads|
    ensures BitmapAgrees(Remove(s, t)) && BitmapBounded(Remove(s, t))
  {
  }

  /** Taking a queued thread out of its list, parking it as suspended at any priority. */
  lemma UnqueueLists(s: State, t: nat, r: State)
    requires Shape(s) && ListsSound(s) && ListsComplete(s) && t < |s.threads|
    requires s.threads[t].stat == Ready && s.threads[t].oncpu == s.N()
    requires Shape(r) && r.ready == Remove(s, t).ready && r.N() == s.N() && |r.threads| == |s.threads|
    requires forall u :: 0 <= u < |s.threads| && u != t ==> r.threads[u] == s.threads[u]
    requires r.threads[t].stat != Ready || r.threads[t].oncpu < s.N()
    ensures ListsSound(r) && ListsComplete(r)
  {
    var k := Slot(s.threads[t].bind, s.threads[t].prio);
    assert t in s.ready[k];
    WithoutPresent(s.ready[k], t);
  }

  lemma UnqueueKeeps(s: State, t: nat, p: nat)
    requires Inv(s) && t < |s.threads| && s.threads[t].stat == Ready && s.threads[t].oncpu == s.N() && p < PRIO_MAX
    ensures Inv(SetThread(Remove(s, t), t, s.threads[t].(stat := Suspended, prio := p)))
  {
    var r := SetThread(Remove(s, t), t, s.threads[t].(stat := Suspended, prio := p));
    UnqueueLists(s, t, r);
    RemoveBits(s, t);
    assert BitmapAgrees(r) && BitmapBounded(r);
    assert OnCpuAgrees(r);
    assert SameLocks(s, r);
    SameLocksKeep(s, r);
  }

  // ---------------------------------------------------------------- threads changing place

  lemma SuspendKeeps(s: State, t: nat)
    requires Inv(s) && t < |s.threads| && s.threads[t].oncpu < s.N()
    ensures Inv(SuspendBody(s, t))
  {
    hide NestsAgree, LockAgrees, CriticalAgrees;
    if s.threads[t].stat == Ready {
      var m := SetThread(s, t, s.threads[t].(stat := Suspended));
      assert OnCpuAgrees(m) && ListsSound(m) && ListsComplete(m);
      assert SameLocks(s, m);
      SameLocksKeep(s, m);
      RemoveNoop(m, t);
    }
  }

  lemma ResumeKeeps(s: State, t: nat)
    requires Inv(s) && t < |s.threads|
    ensures Inv(ResumeBody(s, t))
  {
    if s.threads[t].stat == Suspended { InsertKeeps(s, t); }
  }

  /** A thread outside the ready lists may change its priority, or be parked, where it is. */
  lemma RetuneKeeps(s: State, t: nat, r: Tcb)
    requires Inv(s) && t < |s.threads| && r.prio < PRIO_MAX && r.bind <= s.N() && r.stat != Init
    requires s.threads[t].stat == Ready ==> s.threads[t].oncpu < s.N() && r.stat == Ready
    requires s.threads[t].stat != Ready ==> r.stat == Suspended
    requires s.threads[t].(stat := r.stat, prio := r.prio, bind := r.bind) == r
    ensures Inv(SetThread(s, t, r))
  {
    var m := SetThread(s, t, r);
    assert OnCpuAgrees(m) && ListsSound(m) && ListsComplete(m);
    assert SameLocks(s, m);
    SameLocksKeep(s, m);
  }

  lemma InitRetuneKeeps(s: State, t: nat, p: nat, q: nat)
    requires Inv(s) && t < |s.threads| && s.threads[t].stat == Init && p < PRIO_MAX && q <= s.N()
    ensures Inv(SetThread(s, t, s.threads[t].(prio := p, bind := q)))
  {
    var m := SetThread(s, t, s.threads[t].(prio := p, bind := q));
    assert OnCpuAgrees(m) && ListsSound(m) && ListsComplete(m);
    assert SameLocks(s, m);
    SameLocksKeep(s, m);
  }

  lemma ChangeRunningKeeps(s: State, t: nat, p: nat)
    requires Inv(s) && t < |s.threads| && p < PRIO_MAX && s.threads[t].stat == Ready && s.threads[t].oncpu < s.N()
    ensures Inv(ChangePriorityBody(s, t, p))
  {
    RemoveNoop(s, t);
    var m := SetThread(s, t, s.threads[t].(prio := p));
    RetuneKeeps(s, t, m.threads[t]);
    assert Insert(m, t).threads == m.threads;
  }

  lemma ChangeQueuedKeeps(s: State, t: nat, p: nat)
    requires Inv(s) && t < |s.threads| && p < PRIO_MAX && s.threads[t].stat == Ready && s.threads[t].oncpu == s.N()
    ensures Inv(ChangePriorityBody(s, t, p))
  {
    UnqueueKeeps(s, t, p);
    var m := SetThread(Remove(s, t), t, s.threads[t].(stat := Suspended, prio := p));
    InsertKeeps(m, t);
    var m' := SetThread(Remove(s, t), t, s.threads[t].(prio := p));
    assert Insert(m, t).threads == Insert(m', t).threads;
    assert Insert(m, t) == Insert(m', t);
  }

  lemma ChangePriorityKeeps(s: State, t: nat, p: nat)
    requires Inv(s) && t < |s.threads| && p < PRIO_MAX
    ensures Inv(ChangePriorityBody(s, t, p))
  {
    var r := s.threads[t];
    if r.stat == Ready {
      if r.oncpu < s.N() { ChangeRunningKeeps(s, t, p); } else { ChangeQueuedKeeps(s, t, p); }
    } else if r.stat == Init {
      InitRetuneKeeps(s, t, p, r.bind);
      assert r.(prio := p, bind := r.bind) == r.(prio := p);
    } else {
      RetuneKeeps(s, t, r.(prio := p));
    }
  }

  lemma StartupKeeps(s: State, t: nat)
    requires Inv(s) && t < |s.threads| && s.threads[t].stat == Init
    ensures Inv(StartupBody(s, t))
  {
    var m := SetThread(s, t, s.threads[t].(prio := s.threads[t].initPrio, stat := Suspended));
    RetuneKeeps(s, t, m.threads[t]);
    InsertKeeps(m, t);
  }

  // ---------------------------------------------------------------- switching

  /** CPU c with nobody on it, as it is for an instant inside a switch (and before it boots). */
  ghost predicate Vacant(s: State, c: nat) {
    c < s.N() && s.cpus[c].current == None && s.holder == Some(c)
  }

  /** Detach CPU c's thread t, without queueing it yet. */
  function Vacate(s: State, c: nat, t: nat, fromIrq: bool): State
    requires Shape(s) && c < s.N() && t < |s.threads| && s.threads[t].cpusNest > 0 && s.threads[t].schedNest > 0
  {
    var r := s.threads[t].(oncpu := s.N(), stat := Suspended);
    var r' := if fromIrq then r.(cpusNest := r.cpusNest - 1, schedNest := r.schedNest - 1) else r;
    SetCpu(SetThread(s, t, r'), c, s.cpus[c].(current := None))
  }

  lemma VacatePlaces(s: State, c: nat, fromIrq: bool)
    requires Shape(s) && Places(s) && Inside(s, c) && Cur(s, c).schedNest == 1 && Cur(s, c).cpusNest > 0
    ensures Shape(Vacate(s, c, s.cpus[c].current.value, fromIrq))
    ensures Places(Vacate(s, c, s.cpus[c].current.value, fromIrq))
  {
    var t := s.cpus[c].current.value;
    var m := Vacate(s, c, t, fromIrq);
    assert OnCpuAgrees(m);
    assert ListsSound(m) && ListsComplete(m);
  }

  lemma VacateLocks(s: State, c: nat, fromIrq: bool, m: State)
    requires Shape(s) && OnCpuAgrees(s) && Locks(s) && Inside(s, c)
    requires Cur(s, c).schedNest == 1 && Cur(s, c).cpusNest > 0
    requires fromIrq ==> Cur(s, c).cpusNest == 1
    requires m == Vacate(s, c, s.cpus[c].current.value, fromIrq) && Shape(m)
    ensures Locks(m)
  {
    var t := s.cpus[c].current.value;
    assert s.threads[t].crit == 0;
    forall d | 0 <= d < s.N() ensures CpuLockAgrees(m, d) {
      assert CpuLockAgrees(s, d);
      if d != c { assert s.cpus[d].current != Some(t); }
    }
    assert NestsAgree(m);
    assert CriticalAgrees(m);
  }

  lemma VacateKeeps(s: State, c: nat, fromIrq: bool)
    requires Inv(s) && Inside(s, c) && Cur(s, c).schedNest == 1 && Cur(s, c).cpusNest > 0
    requires fromIrq ==> Cur(s, c).cpusNest == 1
    ensures Inv(Vacate(s, c, s.cpus[c].current.value, fromIrq))
    ensures Vacant(Vacate(s, c, s.cpus[c].current.value, fromIrq), c)
  {
    VacatePlaces(s, c, fromIrq);
    VacateLocks(s, c, fromIrq, Vacate(s, c, s.cpus[c].current.value, fromIrq));
  }

  /** CPU c, vacant, takes queued thread u. */
  function Occupy(s: State, c: nat, u: nat, cp: nat): State
    requires Shape(s) && c < s.N() && u < |s.threads|
  {
    var s1 := SetThread(s, u, s.threads[u].(oncpu := c));
    SwitchTo(Remove(SetCpu(s1, c, s.cpus[c].(curPrio := cp)), u), c, u)
  }

  lemma OccupyFields(s: State, c: nat, u: nat, cp: nat)
    requires Shape(s) && c < s.N() && u < |s.threads|
    ensures var r := Occupy(s, c, u, cp);
      && r.threads == s.threads[u := s.threads[u].(oncpu := c)]
      && r.cpus == s.cpus[c := s.cpus[c].(current := Some(u), curPrio := cp)]
      && r.critOwner == s.critOwner && r.holder == if s.threads[u].cpusNest == 0 then None else s.holder
  {
  }

  lemma OccupyCpus(s: State, c: nat, u: nat, cp: nat)
    requires Shape(s) && OnCpuAgrees(s) && Vacant(s, c) && u < |s.threads| && s.threads[u].stat == Ready && s.threads[u].oncpu == s.N()
    requires Shape(Occupy(s, c, u, cp))
    ensures OnCpuAgrees(Occupy(s, c, u, cp))
  {
    hide Occupy;
    OccupyFields(s, c, u, cp);
  }

  lemma OccupyPlaces(s: State, c: nat, u: nat, cp: nat)
    requires Inv(s) && Vacant(s, c) && u < |s.threads| && s.threads[u].stat == Ready && s.threads[u].oncpu == s.N()
    ensures Shape(Occupy(s, c, u, cp)) && Places(Occupy(s, c, u, cp))
  {
    hide Locks, OnCpuAgrees;
    var r := Occupy(s, c, u, cp);
    UnqueueLists(s, u, r);
    RemoveBits(s, u);
    assert BitmapAgrees(r) && BitmapBounded(r);
    OccupyCpus(s, c, u, cp);
  }

  lemma OccupyLocks(s: State, c: nat, u: nat, cp: nat)
    requires Shape(s) && OnCpuAgrees(s) && Locks(s) && Vacant(s, c)
    requires u < |s.threads| && s.threads[u].stat == Ready && s.threads[u].oncpu == s.N()
    requires Shape(Occupy(s, c, u, cp))
    ensures Locks(Occupy(s, c, u, cp))
  {
    hide Occupy;
    var r := Occupy(s, c, u, cp);
    OccupyFields(s, c, u, cp);
    forall d | 0 <= d < s.N() ensures CpuLockAgrees(r, d) {
      assert CpuLockAgrees(s, d) && CpuLockAgrees(s, c);
    }
    assert NestsAgree(r);
    assert CriticalAgrees(r);
  }

  lemma OccupyKeeps(s: State, c: nat, u: nat, cp: nat)
    requires Inv(s) && Vacant(s, c) && u < |s.threads| && s.threads[u].stat == Ready && s.threads[u].oncpu == s.N()
    ensures Inv(Occupy(s, c, u, cp))
  {
    OccupyPlaces(s, c, u, cp);
    OccupyLocks(s, c, u, cp);
  }

  lemma SwitchKeeps(s: State, c: nat, u: nat, prio: nat, fromIrq: bool)
    requires Inv(s) && Inside(s, c) && Cur(s, c).schedNest == 1 && Cur(s, c).cpusNest > 0
    requires fromIrq ==> Cur(s, c).cpusNest == 1
    requires u < |s.threads| && s.threads[u].stat == Ready && s.threads[u].oncpu == s.N()
    ensures Inv(Switch(s, c, s.cpus[c].current.value, u, prio, fromIrq))
  {
    var t := s.cpus[c].current.value;
    VacateKeeps(s, c, fromIrq);
    SwitchesAgree(s, c, fromIrq, prio, u);
    var m := Vacate(s, c, t, fromIrq);
    var m' := if s.threads[t].stat == Ready then Insert(m, t) else m;
    if s.threads[t].stat == Ready { InsertKeeps(m, t); }
    OccupyKeeps(m', c, u, prio);
  }

  lemma RescheduleKeeps(s: State, c: nat, fromIrq: bool)
    requires Inv(s) && Steppable(s) && Inside(s, c) && Cur(s, c).schedNest == 1
    requires fromIrq ==> Cur(s, c).cpusNest == 1
    ensures Inv(Reschedule(s, c, fromIrq))
  {
    if s.group[s.N()] != {} || s.group[c] != {} {
      var k := HighestSlot(s, c);
      assert s.ready[k][0] in s.ready[k];
      SwitchKeeps(s, c, s.ready[k][0], k.p, fromIrq);
    }
  }

  /** The kernel's order of updates and the two-phase one above end in the same state. */
  lemma SwitchesAgree(s: State, c: nat, fromIrq: bool, prio: nat, u: nat)
    requires Shape(s) && c < s.N() && s.cpus[c].current.Some?
    requires var r := s.threads[s.cpus[c].current.value]; r.schedNest == 1 && r.cpusNest > 0 && r.stat != Init
    requires u < |s.threads| && u != s.cpus[c].current.value && s.threads[u].stat == Ready
    ensures
      var t := s.cpus[c].current.value;
      var m := Vacate(s, c, t, fromIrq);
      Switch(s, c, t, u, prio, fromIrq) == Occupy(if s.threads[t].stat == Ready then Insert(m, t) else m, c, u, prio)
  {
    var t := s.cpus[c].current.value;
    var m := Vacate(s, c, t, fromIrq);
    var m' := if s.threads[t].stat == Ready then Insert(m, t) else m;
    LeavesAgree(s, c, fromIrq);
    ClaimsAgree(Leave(s, t), m', c, t, u, prio, fromIrq);
  }

  lemma LeavesAgree(s: State, c: nat, fromIrq: bool)
    requires Shape(s) && c < s.N() && s.cpus[c].current.Some?
    requires var r := s.threads[s.cpus[c].current.value]; r.schedNest == 1 && r.cpusNest > 0 && r.stat != Init
    ensures
      var t := s.cpus[c].current.value;
      var m := Vacate(s, c, t, fromIrq);
      var m' := if s.threads[t].stat == Ready then Insert(m, t) else m;
      Halfway(Leave(s, t), m', c, t, fromIrq)
  {
  }

  /** How the kernel's half-done switch a and the vacated state b relate. */
  ghost predicate Halfway(a: State, b: State, c: nat, t: nat, fromIrq: bool) {
    && Shape(a) && Shape(b) && t < |a.threads| && c < a.N() && a.threads[t].cpusNest > 0 && a.threads[t].schedNest > 0
    && a.ready == b.ready && a.group == b.group && a.holder == b.holder && a.critOwner == b.critOwner
    && (var r := a.threads[t];
        b.threads == a.threads[t := if fromIrq then r.(cpusNest := r.cpusNest - 1, schedNest := r.schedNest - 1) else r])
    && b.cpus == a.cpus[c := a.cpus[c].(current := None)]
  }

  lemma ClaimsAgree(a: State, b: State, c: nat, t: nat, u: nat, prio: nat, fromIrq: bool)
    requires Halfway(a, b, c, t, fromIrq) && u < |a.threads| && u != t
    ensures SwitchTo(if fromIrq then DropNest(Claim(a, c, u, prio), t) else Claim(a, c, u, prio), c, u)
         == Occupy(b, c, u, prio)
  {
    hide Shape;
    var s1 := Claim(a, c, u, prio);
    var s2 := if fromIrq then DropNest(s1, t) else s1;
    assert s2.threads == b.threads[u := b.threads[u].(oncpu := c)];
    assert SwitchTo(s2, c, u).cpus == Occupy(b, c, u, prio).cpus;
  }

  lemma BootKeeps(s: State, c: nat)
    requires Inv(s) && Steppable(s) && Enabled(s, Boot(c))
    ensures Inv(BootBody(s, c))
  {
    hide Locks, BitmapAgrees, BitmapBounded;
    var k := HighestSlot(s, c);
    var u := s.ready[k][0];
    assert u in s.ready[k];
    OccupyKeeps(s, c, u, s.cpus[c].curPrio);
    assert SetCpu(s, c, s.cpus[c].(curPrio := s.cpus[c].curPrio)) == s;
  }

  // ---------------------------------------------------------------- runs

  /** Every step of every CPU keeps the invariant. */
  lemma StepKeeps(s: State, e: Step)
    requires Inv(s) && Steppable(s) && Enabled(s, e)
    ensures Inv(Do(s, e))
  {
    match e
    case LockBegin(c) => LockBeginKeeps(s, c);
    case LockAcquire(c) => LockAcquireKeeps(s, c);
    case Unlock(c) => UnlockKeeps(s, c);
    case EnterCritical(c) => EnterCriticalKeeps(s, c);
    case ExitCritical(c) => ExitCriticalKeeps(s, c);
    case IrqEnter(c) => IrqStepsKeep(s, e);
    case IrqLeave(c) => IrqStepsKeep(s, e);
    case BootLock(c) => IrqStepsKeep(s, e);
    case Schedule(c) => ScheduleKeeps(s, c);
    case IrqSwitch(c) => IrqSwitchKeeps(s, c);
    case Suspend(c) => SuspendKeeps(s, s.cpus[c].current.value);
    case Resume(c, t) => ResumeKeeps(s, t);
    case ChangePriority(c, t, p) => ChangePriorityKeeps(s, t, p);
    case Startup(c, t) => StartupKeeps(s, t);
    case BindCpu(t, q) => BindKeeps(s, t, q);
    case Boot(c) => BootKeeps(s, c);
  }

  lemma IrqStepsKeep(s: State, e: Step)
    requires Inv(s) && Steppable(s) && Enabled(s, e)
    requires e.IrqEnter? || e.IrqLeave? || e.BootLock?
    ensures Inv(Do(s, e))
  {
    var r := Do(s, e);
    assert SamePlaces(s, r);
    SamePlacesKeep(s, r);
    forall d | 0 <= d < s.N() ensures CpuLockAgrees(r, d) { assert CpuLockAgrees(s, d); }
  }

  lemma FlagKeeps(s: State, c: nat, flag: bool)
    requires Inv(s) && c < s.N()
    ensures Inv(SetCpu(s, c, s.cpus[c].(irqFlag := flag)))
  {
    var r := SetCpu(s, c, s.cpus[c].(irqFlag := flag));
    SamePlacesKeep(s, r);
    SameLocksKeep(s, r);
  }

  lemma ScheduleKeeps(s: State, c: nat)
    requires Inv(s) && Steppable(s) && Inside(s, c)
    ensures Inv(ScheduleBody(s, c))
  {
    if s.cpus[c].irqNest > 0 { FlagKeeps(s, c, true); }
    else if Cur(s, c).schedNest == 1 { RescheduleKeeps(s, c, false); }
  }

  lemma IrqSwitchKeeps(s: State, c: nat)
    requires Inv(s) && Steppable(s) && Inside(s, c) && Cur(s, c).cpusNest == 1
    ensures Inv(IrqSwitchBody(s, c))
  {
    if s.cpus[c].irqFlag && Cur(s, c).schedNest == 1 && s.cpus[c].irqNest == 0 {
      FlagKeeps(s, c, false);
      InvSteppable(SetCpu(s, c, s.cpus[c].(irqFlag := false)));
      RescheduleKeeps(SetCpu(s, c, s.cpus[c].(irqFlag := false)), c, true);
    }
  }

  lemma BindKeeps(s: State, t: nat, q: nat)
    requires Inv(s) && Steppable(s) && t < |s.threads|
    ensures Inv(Do(s, BindCpu(t, q)))
  {
    if s.threads[t].stat == Init {
      var b := if q > s.N() then s.N() else q;
      InitRetuneKeeps(s, t, s.threads[t].prio, b);
      assert s.threads[t].(prio := s.threads[t].prio, bind := b) == s.threads[t].(bind := b);
    }
  }

  // ---------------------------------------------------------------- what a step does to one thread

  /** The thread a step is about, if it is about one. */
  predicate About(s: State, e: Step, u: nat)
    requires Shape(s) && Enabled(s, e)
  {
    match e
    case Resume(c, t) => t == u
    case ChangePriority(c, t, p) => t == u
    case Startup(c, t) => t == u
    case BindCpu(t, q) => t == u
    case LockBegin(c) => s.cpus[c].current == Some(u)
    case Unlock(c) => s.cpus[c].current == Some(u)
    case EnterCritical(c) => s.cpus[c].current == Some(u)
    case ExitCritical(c) => s.cpus[c].current == Some(u)
    case Suspend(c) => s.cpus[c].current == Some(u)
    case _ => false
  }

  /** State, priorities, binding and open critical sections of a thread. */
  predicate SameRole(a: Tcb, b: Tcb) {
    b.stat == a.stat && b.prio == a.prio && b.initPrio == a.initPrio && b.bind == a.bind && b.crit == a.crit
  }

  /** Whoever is scheduled, only the thread a step is about changes its state, its priority or its critical sections. */
  lemma OthersKeepRole(s: State, e: Step, u: nat)
    requires Inv(s) && Steppable(s) && Enabled(s, e) && u < |s.threads| && !About(s, e, u)
    ensures u < |Do(s, e).threads| && SameRole(s.threads[u], Do(s, e).threads[u])
    ensures Do(s, e).threads[u].cpusNest == s.threads[u].cpusNest
         || (e.IrqSwitch? && s.cpus[e.c].current == Some(u) && s.threads[u].cpusNest == 1 && Do(s, e).threads[u].cpusNest == 0)
    ensures Do(s, e).threads[u].oncpu != s.threads[u].oncpu ==> e.Schedule? || e.IrqSwitch? || e.Boot?
  {
    hide Places, Locks, NestsAgree, Lowest, Reschedule, Insert, Remove;
    match e
    case Schedule(c) => if s.cpus[c].irqNest == 0 && Cur(s, c).schedNest == 1 { RescheduleKeepsRole(s, c, false, u); }
    case IrqSwitch(c) =>
      if s.cpus[c].irqFlag && s.cpus[c].irqNest == 0 && Cur(s, c).schedNest == 1 {
        RescheduleKeepsRole(SetCpu(s, c, s.cpus[c].(irqFlag := false)), c, true, u);
      }
    case _ =>
  }

  lemma RescheduleKeepsRole(s: State, c: nat, fromIrq: bool, u: nat)
    requires Shape(s) && Pickable(s) && c < s.N() && s.cpus[c].current.Some? && u < |s.threads|
    requires s.threads[s.cpus[c].current.value].schedNest == 1 && s.threads[s.cpus[c].current.value].cpusNest > 0
    ensures var r := Reschedule(s, c, fromIrq).threads;
      && u < |r| && SameRole(s.threads[u], r[u])
      && (r[u].cpusNest == s.threads[u].cpusNest
          || (fromIrq && s.cpus[c].current == Some(u) && r[u].cpusNest == s.threads[u].cpusNest - 1))
  {
    hide Switch, Lowest;
    var t := s.cpus[c].current.value;
    if s.group[s.N()] != {} || s.group[c] != {} {
      var h := HighestSlot(s, c);
      SwitchKeepsRole(s, c, t, s.ready[h][0], h.p, fromIrq, u);
    }
  }

  lemma SwitchKeepsRole(s: State, c: nat, t: nat, v: nat, prio: nat, fromIrq: bool, u: nat)
    requires Shape(s) && c < s.N() && t < |s.threads| && v < |s.threads| && u < |s.threads|
    requires s.threads[t].schedNest > 0 && s.threads[t].cpusNest > 0
    ensures var r := Switch(s, c, t, v, prio, fromIrq).threads;
      && u < |r| && SameRole(s.threads[u], r[u])
      && (r[u].cpusNest == s.threads[u].cpusNest || (fromIrq && u == t && r[u].cpusNest == s.threads[u].cpusNest - 1))
  {
    hide Insert, Remove, Shape;
  }

  /** And that thread changes as the call asks for: suspended, resumed, at its new priority. */
  lemma StepAbout(s: State, e: Step, u: nat)
    requires Inv(s) && Steppable(s) && Enabled(s, e) && u < |s.threads| && About(s, e, u)
    ensures u < |Do(s, e).threads| && Do(s, e).threads[u].initPrio == s.threads[u].initPrio
    ensures var a, b := s.threads[u], Do(s, e).threads[u];
      match e
      case Suspend(c) => SameRole(a.(stat := if a.stat == Ready then Suspended else a.stat), b)
      case Resume(c, t) => SameRole(a.(stat := if a.stat == Suspended then Ready else a.stat), b)
      case ChangePriority(c, t, p) => SameRole(a.(prio := p), b)
      case Startup(c, t) => SameRole(a.(stat := Ready, prio := a.initPrio), b)
      case BindCpu(t, q) => SameRole(a.(bind := if a.stat != Init then a.bind else if q <= s.N() then q else s.N()), b)
      case LockBegin(c) => SameRole(a, b) && b.cpusNest == a.cpusNest + 1
      case Unlock(c) => SameRole(a, b) && b.cpusNest == a.cpusNest - 1
      case EnterCritical(c) => SameRole(a.(crit := a.crit + 1), b)
      case ExitCritical(c) => SameRole(a.(crit := a.crit - 1), b)
      case _ => true
  {
    hide Places, Locks, NestsAgree, Lowest;
  }

  // ---------------------------------------------------------------- first come, first served

  predicate Precedes(q: seq<nat>, x: nat, y: nat) { exists i, j :: 0 <= i < j < |q| && q[i] == x && q[j] == y }

  lemma {:induction false} WithoutPrecedes(q: seq<nat>, z: nat, x: nat, y: nat)
    requires Precedes(q, x, y) && x != z && y != z
    ensures Precedes(Without(q, z), x, y)
  {
    var i, j :| 0 <= i < j < |q| && q[i] == x && q[j] == y;
    if q[0] == z {
      assert q[1..][i - 1] == x && q[1..][j - 1] == y;
    } else if i > 0 {
      assert q[1..][i - 1] == x && q[1..][j - 1] == y;
      WithoutPrecedes(q[1..], z, x, y);
      FrontPrecedes(q[0], Without(q[1..], z), x, y);
    } else {
      assert q[1..][j - 1] == y;
      WithoutOthers(q[1..], z, y);
      var k :| 0 <= k < |Without(q[1..], z)| && Without(q[1..], z)[k] == y;
      var w := [q[0]] + Without(q[1..], z);
      assert w[0] == x && w[k + 1] == y;
    }
  }

  lemma FrontPrecedes(a: nat, q: seq<nat>, x: nat, y: nat)
    requires Precedes(q, x, y)
    ensures Precedes([a] + q, x, y)
  {
    var i, j :| 0 <= i < j < |q| && q[i] == x && q[j] == y;
    assert ([a] + q)[i + 1] == x && ([a] + q)[j + 1] == y;
  }

  lemma {:induction false} WithoutOthers(q: seq<nat>, z: nat, y: nat)
    requires y in q && y != z
    ensures y in Without(q, z)
  {
    if q[0] != z && q[0] != y { WithoutOthers(q[1..], z, y); }
  }

  lemma BackPrecedes(q: seq<nat>, z: nat, x: nat, y: nat)
    requires Precedes(q, x, y) || (x in q && y == z)
    ensures Precedes(q + [z], x, y)
  {
    if Precedes(q, x, y) {
      var i, j :| 0 <= i < j < |q| && q[i] == x && q[j] == y;
      assert (q + [z])[i] == x && (q + [z])[j] == y;
    } else {
      var i :| 0 <= i < |q| && q[i] == x;
      assert (q + [z])[i] == x && (q + [z])[|q|] == y;
    }
  }

  lemma InsertPrecedes(s: State, t: nat, k: Slot, x: nat, y: nat)
    requires Shape(s) && t < |s.threads| && k in s.ready && Precedes(s.ready[k], x, y)
    ensures k in Insert(s, t).ready && Precedes(Insert(s, t).ready[k], x, y)
  {
    BackPrecedes(s.ready[k], t, x, y);
  }

  lemma RemovePrecedes(s: State, t: nat, k: Slot, x: nat, y: nat)
    requires Shape(s) && t < |s.threads| && k in s.ready && Precedes(s.ready[k], x, y) && x != t && y != t
    ensures k in Remove(s, t).ready && Precedes(Remove(s, t).ready[k], x, y)
  {
    WithoutPrecedes(s.ready[k], t, x, y);
  }

  lemma SameCpus(s: State, e: Step)
    requires Steppable(s) && Enabled(s, e)
    ensures Do(s, e).N() == s.N()
  {
    hide NestsAgree, Lowest, Insert, Remove;
  }

  /** In no ready list does a thread ever overtake another one, whatever step is taken, as long as it stays there and
      nobody sets its priority. */
  lemma NobodyOvertakes(s: State, e: Step, k: Slot, x: nat, y: nat)
    requires Inv(s) && Steppable(s) && Enabled(s, e) && k in s.ready && Precedes(s.ready[k], x, y)
    requires k in Do(s, e).ready && x in Do(s, e).ready[k] && y in Do(s, e).ready[k]
    requires !(e.ChangePriority? && e.t == x)
    ensures Precedes(Do(s, e).ready[k], x, y)
  {
    StepKeeps(s, e);
    StillQueued(s, e, k, x);
    StillQueued(s, e, k, y);
    ListsDistinct(s);
    SameCpus(s, e);
    hide Inv, Pickable, NestsAgree, Precedes, Shelved, Distinct, ChangePriorityBody, BootBody, SuspendBody, ResumeBody, StartupBody,
      ScheduleBody, IrqSwitchBody;
    match e
    case Suspend(c) => SuspendPrecedes(s, s.cpus[c].current.value, k, x, y);
    case Resume(c, t) => ResumePrecedes(s, t, k, x, y);
    case Startup(c, t) => StartupPrecedes(s, t, k, x, y);
    case ChangePriority(c, t, p) => ChangePrecedes(s, t, p, k, x, y);
    case Schedule(c) => SchedulePrecedes(s, c, k, x, y);
    case IrqSwitch(c) => IrqSwitchPrecedes(s, c, k, x, y);
    case Boot(c) => BootPrecedes(s, c, k, x, y);
    case _ =>
  }

  lemma SchedulePrecedes(s: State, c: nat, k: Slot, x: nat, y: nat)
    requires Shape(s) && Pickable(s) && Inside(s, c) && Cur(s, c).cpusNest > 0 && k in s.ready && Precedes(s.ready[k], x, y)
    requires x < |s.threads| && y < |s.threads| && x != s.cpus[c].current.value && y != s.cpus[c].current.value
    requires var r := ScheduleBody(s, c);
      x < |r.threads| && y < |r.threads| && r.threads[x].oncpu == s.N() && r.threads[y].oncpu == s.N()
    ensures k in ScheduleBody(s, c).ready && Precedes(ScheduleBody(s, c).ready[k], x, y)
  {
    hide Precedes, Reschedule;
    if s.cpus[c].irqNest == 0 && Cur(s, c).schedNest == 1 { ReschedulePrecedes(s, c, false, k, x, y); }
  }

  lemma IrqSwitchPrecedes(s: State, c: nat, k: Slot, x: nat, y: nat)
    requires Shape(s) && Pickable(s) && Inside(s, c) && Cur(s, c).cpusNest > 0 && k in s.ready && Precedes(s.ready[k], x, y)
    requires x < |s.threads| && y < |s.threads| && x != s.cpus[c].current.value && y != s.cpus[c].current.value
    requires var r := IrqSwitchBody(s, c);
      x < |r.threads| && y < |r.threads| && r.threads[x].oncpu == s.N() && r.threads[y].oncpu == s.N()
    ensures k in IrqSwitchBody(s, c).ready && Precedes(IrqSwitchBody(s, c).ready[k], x, y)
  {
    hide Precedes, Reschedule;
    if s.cpus[c].irqFlag && s.cpus[c].irqNest == 0 && Cur(s, c).schedNest == 1 {
      ReschedulePrecedes(SetCpu(s, c, s.cpus[c].(irqFlag := false)), c, true, k, x, y);
    }
  }

  lemma SuspendPrecedes(s: State, t: nat, k: Slot, x: nat, y: nat)
    requires Shape(s) && t < |s.threads| && k in s.ready && Precedes(s.ready[k], x, y) && x != t && y != t
    ensures k in SuspendBody(s, t).ready && Precedes(SuspendBody(s, t).ready[k], x, y)
  {
    hide Precedes, Remove;
    if s.threads[t].stat == Ready { RemovePrecedes(SetThread(s, t, s.threads[t].(stat := Suspended)), t, k, x, y); }
  }

  lemma ResumePrecedes(s: State, t: nat, k: Slot, x: nat, y: nat)
    requires Shape(s) && t < |s.threads| && k in s.ready && Precedes(s.ready[k], x, y)
    ensures k in ResumeBody(s, t).ready && Precedes(ResumeBody(s, t).ready[k], x, y)
  {
    hide Precedes, Insert;
    InsertPrecedes(s, t, k, x, y);
  }

  lemma StartupPrecedes(s: State, t: nat, k: Slot, x: nat, y: nat)
    requires Shape(s) && t < |s.threads| && k in s.ready && Precedes(s.ready[k], x, y)
    ensures k in StartupBody(s, t).ready && Precedes(StartupBody(s, t).ready[k], x, y)
  {
    hide Precedes, ResumeBody;
    ResumePrecedes(SetThread(s, t, s.threads[t].(prio := s.threads[t].initPrio, stat := Suspended)), t, k, x, y);
  }

  lemma BootPrecedes(s: State, c: nat, k: Slot, x: nat, y: nat)
    requires Shape(s) && Pickable(s) && c < s.N() && (s.group[s.N()] != {} || s.group[c] != {})
    requires k in s.ready && Precedes(s.ready[k], x, y) && x < |s.threads| && y < |s.threads|
    requires var r := BootBody(s, c);
      x < |r.threads| && y < |r.threads| && r.threads[x].oncpu == s.N() && r.threads[y].oncpu == s.N()
    ensures k in BootBody(s, c).ready && Precedes(BootBody(s, c).ready[k], x, y)
  {
    hide Precedes, Lowest, Remove;
    var u := s.ready[HighestSlot(s, c)][0];
    RemovePrecedes(SetThread(s, u, s.threads[u].(oncpu := c)), u, k, x, y);
  }

  ghost predicate Shelved(s: State, t: nat)
    requires t < |s.threads|
  {
    forall q :: q in s.ready && t in s.ready[q] ==> q == Slot(s.threads[t].bind, s.threads[t].prio)
  }

  lemma ListsDistinct(s: State)
    requires Inv(s)
    ensures forall q :: q in s.ready ==> Distinct(s.ready[q])
    ensures forall t :: 0 <= t < |s.threads| ==> Shelved(s, t)
  {
  }

  lemma ChangePrecedes(s: State, t: nat, p: nat, k: Slot, x: nat, y: nat)
    requires Shape(s) && t < |s.threads| && p < PRIO_MAX && k in s.ready && Precedes(s.ready[k], x, y) && x != t
    requires var r := ChangePriorityBody(s, t, p).ready; k in r && y in r[k]
    requires forall q :: q in s.ready ==> Distinct(s.ready[q])
    requires Shelved(s, t)
    ensures Precedes(ChangePriorityBody(s, t, p).ready[k], x, y)
  {
    if s.threads[t].stat == Ready {
      var s1 := Remove(s, t);
      var s2 := SetThread(s1, t, s1.threads[t].(prio := p));
      if y != t {
        RemovePrecedes(s, t, k, x, y);
        InsertPrecedes(s2, t, k, x, y);
      } else {
        WithoutPresent(s.ready[k], t);
        WithoutOthers(s.ready[k], t, x);
        BackPrecedes(s2.ready[k], t, x, y);
      }
    }
  }

  /** Who is in a list before and after a switch is neither the thread that leaves nor the one that runs next. */
  lemma StillQueued(s: State, e: Step, k: Slot, x: nat)
    requires Inv(s) && Steppable(s) && Enabled(s, e) && Inv(Do(s, e)) && k in s.ready && x in s.ready[k]
    requires k in Do(s, e).ready && x in Do(s, e).ready[k]
    ensures x < |s.threads| && x < |Do(s, e).threads| && s.threads[x].oncpu == s.N() && Do(s, e).threads[x].oncpu == Do(s, e).N()
    ensures forall c :: 0 <= c < s.N() && s.cpus[c].current.Some? ==> s.cpus[c].current.value != x
    ensures Do(s, e).threads[x].stat == Ready
  {
    hide Do, Enabled, Locks, NestsAgree, Steppable;
  }

  lemma ReschedulePrecedes(s: State, c: nat, fromIrq: bool, k: Slot, x: nat, y: nat)
    requires Shape(s) && Pickable(s) && c < s.N() && s.cpus[c].current.Some?
    requires s.threads[s.cpus[c].current.value].schedNest == 1 && s.threads[s.cpus[c].current.value].cpusNest > 0 && k in s.ready && Precedes(s.ready[k], x, y)
    requires x < |s.threads| && y < |s.threads| && x != s.cpus[c].current.value && y != s.cpus[c].current.value
    requires var r := Reschedule(s, c, fromIrq);
      x < |r.threads| && y < |r.threads| && r.threads[x].oncpu == s.N() && r.threads[y].oncpu == s.N()
    ensures k in Reschedule(s, c, fromIrq).ready && Precedes(Reschedule(s, c, fromIrq).ready[k], x, y)
  {
    hide Precedes, Lowest, Switch;
    var t := s.cpus[c].current.value;
    if s.group[s.N()] != {} || s.group[c] != {} {
      var h := HighestSlot(s, c);
      var u := s.ready[h][0];
      if !(s.threads[t].stat == Ready && s.threads[t].prio < h.p) {
        SwitchPrecedes(s, c, t, u, h.p, fromIrq, k, x, y);
      }
    }
  }

  lemma SwitchPrecedes(s: State, c: nat, t: nat, u: nat, prio: nat, fromIrq: bool, k: Slot, x: nat, y: nat)
    requires Shape(s) && c < s.N() && t < |s.threads| && u < |s.threads|
    requires s.threads[t].schedNest > 0 && s.threads[t].cpusNest > 0 && k in s.ready && Precedes(s.ready[k], x, y)
    requires x < |s.threads| && y < |s.threads| && x != t && y != t
    requires var r := Switch(s, c, t, u, prio, fromIrq);
      x < |r.threads| && y < |r.threads| && r.threads[x].oncpu == s.N() && r.threads[y].oncpu == s.N()
    ensures k in Switch(s, c, t, u, prio, fromIrq).ready && Precedes(Switch(s, c, t, u, prio, fromIrq).ready[k], x, y)
  {
    hide Precedes, Insert, Remove, Shape;
    var s1 := SetThread(s, t, s.threads[t].(oncpu := s.N()));
    assert Shape(s1) by { ShapeKept(s, t); }
    InsertPrecedes(s1, t, k, x, y);
    var s2 := Leave(s, t);
    var s3 := SetCpu(SetThread(s2, u, s2.threads[u].(oncpu := c)), c, s2.cpus[c].(curPrio := prio));
    assert Shape(s3) by { ShapeMoved(s2, c, u, prio); }
    RemovePrecedes(s3, u, k, x, y);
  }

  lemma ShapeKept(s: State, t: nat)
    requires Shape(s) && t < |s.threads|
    ensures Shape(SetThread(s, t, s.threads[t].(oncpu := s.N())))
  {
  }

  lemma ShapeMoved(s: State, c: nat, u: nat, prio: nat)
    requires Shape(s) && c < s.N() && u < |s.threads|
    ensures Shape(SetCpu(SetThread(s, u, s.threads[u].(oncpu := c)), c, s.cpus[c].(curPrio := prio)))
  {
  }

  /** Who joins a list, or is queued again at a priority just set, joins it at the end. */
  predicate EndsWith(q: seq<nat>, y: nat) { q != [] && q[|q| - 1] == y }

  /** y stands in list k after the step, and did not before or has been given this priority. */
  predicate Joined(s: State, e: Step, r: State, k: Slot, y: nat) {
    k in s.ready && k in r.ready && y in r.ready[k] && (y !in s.ready[k] || (e.ChangePriority? && e.t == y))
  }

  lemma NewcomerIsLast(s: State, e: Step, k: Slot, y: nat)
    requires Inv(s) && Steppable(s) && Enabled(s, e) && Joined(s, e, Do(s, e), k, y)
    ensures EndsWith(Do(s, e).ready[k], y)
  {
    ListsDistinct(s);
    CurrentUnqueued(s);
    hide Inv, Pickable, NestsAgree, Shelved, Distinct, ChangePriorityBody, BootBody, SuspendBody, ResumeBody, StartupBody,
      ScheduleBody, IrqSwitchBody;
    match e
    case Suspend(c) => SuspendJoins(s, s.cpus[c].current.value, k, y);
    case Resume(c, t) => ResumeJoins(s, t, k, y);
    case Startup(c, t) => StartupJoins(s, t, k, y);
    case ChangePriority(c, t, p) => ChangeJoins(s, t, p, k, y);
    case Schedule(c) => ScheduleJoins(s, c, k, y);
    case IrqSwitch(c) => IrqSwitchJoins(s, c, k, y);
    case Boot(c) => BootJoins(s, c, k, y);
    case _ =>
  }

  /** The running threads are in no list, so that whoever runs next is another one. */
  lemma CurrentUnqueued(s: State)
    requires Inv(s)
    ensures forall c, k :: 0 <= c < s.N() && s.cpus[c].current.Some? && k in s.ready ==> s.cpus[c].current.value !in s.ready[k]
  {
  }

  lemma InsertJoins(s: State, t: nat, k: Slot, y: nat)
    requires Shape(s) && t < |s.threads| && k in s.ready
    ensures k in Insert(s, t).ready && (y in Insert(s, t).ready[k] && y !in s.ready[k] ==> EndsWith(Insert(s, t).ready[k], y))
  {
  }

  lemma RemoveJoins(s: State, t: nat, k: Slot, y: nat)
    requires Shape(s) && t < |s.threads| && k in s.ready
    ensures k in Remove(s, t).ready && (y in Remove(s, t).ready[k] ==> y in s.ready[k])
  {
    WithoutSubset(s.ready[k], t);
  }

  lemma SuspendJoins(s: State, t: nat, k: Slot, y: nat)
    requires Shape(s) && t < |s.threads| && k in s.ready
    ensures k in SuspendBody(s, t).ready && (y in SuspendBody(s, t).ready[k] ==> y in s.ready[k])
  {
    hide Remove;
    RemoveJoins(SetThread(s, t, s.threads[t].(stat := Suspended)), t, k, y);
  }

  lemma ResumeJoins(s: State, t: nat, k: Slot, y: nat)
    requires Shape(s) && t < |s.threads| && k in s.ready
    ensures var r := ResumeBody(s, t); k in r.ready && (y in r.ready[k] && y !in s.ready[k] ==> EndsWith(r.ready[k], y))
  {
    hide Insert, EndsWith;
    InsertJoins(s, t, k, y);
  }

  lemma StartupJoins(s: State, t: nat, k: Slot, y: nat)
    requires Shape(s) && t < |s.threads| && k in s.ready
    ensures var r := StartupBody(s, t); k in r.ready && (y in r.ready[k] && y !in s.ready[k] ==> EndsWith(r.ready[k], y))
  {
    hide ResumeBody, EndsWith;
    ResumeJoins(SetThread(s, t, s.threads[t].(prio := s.threads[t].initPrio, stat := Suspended)), t, k, y);
  }

  lemma ChangeJoins(s: State, t: nat, p: nat, k: Slot, y: nat)
    requires Shape(s) && t < |s.threads| && p < PRIO_MAX && k in s.ready
    requires (forall q :: q in s.ready ==> Distinct(s.ready[q])) && Shelved(s, t)
    requires s.threads[t].stat == Ready || forall q :: q in s.ready ==> t !in s.ready[q]
    ensures var r := ChangePriorityBody(s, t, p);
      k in r.ready && (y in r.ready[k] && (y !in s.ready[k] || y == t) ==> EndsWith(r.ready[k], y))
  {
    if s.threads[t].stat == Ready {
      var s1 := Remove(s, t);
      var s2 := SetThread(s1, t, s1.threads[t].(prio := p));
      RemoveJoins(s, t, k, y);
      WithoutPresent(s.ready[k], t);
      assert t !in s1.ready[k];
      InsertJoins(s2, t, k, y);
    }
  }

  lemma SwitchJoins(s: State, c: nat, t: nat, u: nat, prio: nat, fromIrq: bool, k: Slot, y: nat)
    requires Shape(s) && c < s.N() && t < |s.threads| && u < |s.threads| && t != u && k in s.ready
    requires s.threads[t].schedNest > 0 && s.threads[t].cpusNest > 0
    ensures var r := Switch(s, c, t, u, prio, fromIrq);
      k in r.ready && (y in r.ready[k] && y !in s.ready[k] ==> EndsWith(r.ready[k], y))
  {
    hide Shape;
    LeaveShape(s, t);
    var l := Leave(s, t).ready;
    WithoutSubset(l[k], u);
    if y in l[k] && y !in s.ready[k] {
      assert y == t;
      WithoutLast(l[k], u, t);
    }
  }

  lemma LeaveShape(s: State, t: nat)
    requires Shape(s) && t < |s.threads|
    ensures Shape(SetThread(s, t, s.threads[t].(oncpu := s.N())))
  {
  }

  lemma {:induction false} WithoutLast(q: seq<nat>, u: nat, t: nat)
    requires EndsWith(q, t) && t != u
    ensures EndsWith(Without(q, u), t)
  {
    if q[0] == u {
      assert q[1..][|q| - 2] == t;
    } else if |q| > 1 {
      assert EndsWith(q[1..], t);
      WithoutLast(q[1..], u, t);
    }
  }

  lemma RescheduleJoins(s: State, c: nat, fromIrq: bool, k: Slot, y: nat)
    requires Shape(s) && Pickable(s) && c < s.N() && s.cpus[c].current.Some? && k in s.ready
    requires s.threads[s.cpus[c].current.value].schedNest == 1 && s.threads[s.cpus[c].current.value].cpusNest > 0
    requires forall q :: q in s.ready ==> s.cpus[c].current.value !in s.ready[q]
    ensures var r := Reschedule(s, c, fromIrq);
      k in r.ready && (y in r.ready[k] && y !in s.ready[k] ==> EndsWith(r.ready[k], y))
  {
    hide Switch, Lowest, EndsWith;
    var t := s.cpus[c].current.value;
    if s.group[s.N()] != {} || s.group[c] != {} {
      var h := HighestSlot(s, c);
      assert s.ready[h][0] in s.ready[h];
      SwitchJoins(s, c, t, s.ready[h][0], h.p, fromIrq, k, y);
    }
  }

  lemma ScheduleJoins(s: State, c: nat, k: Slot, y: nat)
    requires Shape(s) && Pickable(s) && Inside(s, c) && Cur(s, c).cpusNest > 0 && k in s.ready
    requires forall q :: q in s.ready ==> s.cpus[c].current.value !in s.ready[q]
    ensures var r := ScheduleBody(s, c);
      k in r.ready && (y in r.ready[k] && y !in s.ready[k] ==> EndsWith(r.ready[k], y))
  {
    hide Reschedule, EndsWith;
    if s.cpus[c].irqNest == 0 && Cur(s, c).schedNest == 1 { RescheduleJoins(s, c, false, k, y); }
  }

  lemma IrqSwitchJoins(s: State, c: nat, k: Slot, y: nat)
    requires Shape(s) && Pickable(s) && Inside(s, c) && Cur(s, c).cpusNest > 0 && k in s.ready
    requires forall q :: q in s.ready ==> s.cpus[c].current.value !in s.ready[q]
    ensures var r := IrqSwitchBody(s, c);
      k in r.ready && (y in r.ready[k] && y !in s.ready[k] ==> EndsWith(r.ready[k], y))
  {
    hide Reschedule, EndsWith;
    if s.cpus[c].irqFlag && s.cpus[c].irqNest == 0 && Cur(s, c).schedNest == 1 {
      RescheduleJoins(SetCpu(s, c, s.cpus[c].(irqFlag := false)), c, true, k, y);
    }
  }

  lemma BootJoins(s: State, c: nat, k: Slot, y: nat)
    requires Shape(s) && Pickable(s) && c < s.N() && (s.group[s.N()] != {} || s.group[c] != {}) && k in s.ready
    ensures k in BootBody(s, c).ready && (y in BootBody(s, c).ready[k] ==> y in s.ready[k])
  {
    hide Lowest, Remove;
    var u := s.ready[HighestSlot(s, c)][0];
    RemoveJoins(SetThread(s, u, s.threads[u].(oncpu := c)), u, k, y);
  }

  /** A CPU starts with a thread that is at least as urgent as everybody left that it may draw from. */
  lemma BootRunsMostUrgent(s: State, c: nat, u: nat, k: Slot)
    requires Inv(s) && Steppable(s) && Enabled(s, Boot(c))
    ensures RunsMostUrgent(BootBody(s, c), c, u, k)
  {
    var h := HighestSlot(s, c);
    assert s.ready[h][0] in s.ready[h];
    if k in s.ready {
      BootJoins(s, c, k, u);
      if u in s.ready[k] && (k.q == c || k.q == s.N()) { assert k.p < PRIO_MAX && k.p in s.group[k.q]; }
    }
  }

  /** The global list is drawn from if and only if one of its threads is more urgent than all in the CPU's own lists. */
  lemma OwnListFirst(s: State, c: nat)
    requires Shape(s) && c < s.N() && (s.group[s.N()] != {} || s.group[c] != {})
    ensures HighestSlot(s, c).q == s.N() <==> exists p :: p in s.group[s.N()] && MoreUrgentThanAll(p, s.group[c])
  {
    hide Lowest;
    var g, l := Lowest(s.group[s.N()]), Lowest(s.group[c]);
    if g.Some? && (l.None? || g.value < l.value) { assert MoreUrgentThanAll(g.value, s.group[c]); }
  }

  predicate MoreUrgentThanAll(p: nat, bits: set<nat>) { forall b :: b in bits ==> p < b }

  /** The state `rt_system_scheduler_init` leaves behind, before any thread is started. */
  ghost predicate Initial(s: State) {
    && Shape(s) && s.holder == None && s.critOwner == None
    && (forall k :: k in s.ready ==> s.ready[k] == [])
    && (forall q :: 0 <= q <= s.N() ==> s.group[q] == {})
    && (forall c :: 0 <= c < s.N() ==> s.cpus[c].current == None && !s.cpus[c].waiting)
    && (forall t :: 0 <= t < |s.threads| ==>
          && s.threads[t].stat == Init && s.threads[t].oncpu == s.N()
          && s.threads[t].cpusNest == 0 && s.threads[t].schedNest == 0 && s.threads[t].crit == 0)
  }

  ghost predicate Next(s: State, r: State) {
    Steppable(s) && exists e :: Enabled(s, e) && r == Do(s, e)
  }

  /** A run: any interleaving of enabled steps of any of the CPUs. */
  ghost predicate Run(tr: seq<State>) {
    tr != [] && Initial(tr[0]) && forall i :: 0 <= i < |tr| - 1 ==> Next(tr[i], tr[i + 1])
  }

  lemma InitialInv(s: State)
    requires Initial(s)
    ensures Inv(s) && Steppable(s)
  {
    InvSteppable(s);
  }

  lemma NextKeeps(s: State, r: State)
    requires Inv(s) && Next(s, r)
    ensures Inv(r) && Steppable(r)
  {
    hide Do, Places, Locks, NestsAgree, Lowest;
    var e :| Enabled(s, e) && r == Do(s, e);
    StepKeeps(s, e);
    InvSteppable(r);
  }

  /** The invariant holds all along every run; and no run gets stuck on an undefined step. */
  lemma {:induction false} RunsKeepInv(tr: seq<State>)
    requires Run(tr)
    ensures forall i :: 0 <= i < |tr| ==> Inv(tr[i]) && Steppable(tr[i])
  {
    hide Inv, Steppable, Initial, Next;
    if |tr| == 1 {
      InitialInv(tr[0]);
    } else {
      var n := |tr| - 1;
      assert Run(tr[..n]);
      RunsKeepInv(tr[..n]);
      assert tr[..n][n - 1] == tr[n - 1] && Next(tr[n - 1], tr[n]);
      NextKeeps(tr[n - 1], tr[n]);
      forall i | 0 <= i < |tr| ensures Inv(tr[i]) && Steppable(tr[i]) {
        if i < n { assert tr[..n][i] == tr[i]; }
      }
    }
  }

  // ---------------------------------------------------------------- what the invariant means

  ghost predicate RunsOn(s: State, t: nat, c: nat) { c < s.N() && s.cpus[c].current == Some(t) }

  ghost predicate QueuedIn(s: State, t: nat, k: Slot) { k in s.ready && t in s.ready[k] }

  /** No thread is lost and none is in two places, at any point of any run. */
  lemma OnePlace(tr: seq<State>, i: nat, t: nat)
    requires Run(tr) && i < |tr| && t < |tr[i].threads| && tr[i].threads[t].stat != Init
    ensures var s := tr[i];
      && (forall c, d :: RunsOn(s, t, c) && RunsOn(s, t, d) ==> c == d)
      && (forall c, k :: RunsOn(s, t, c) ==> !QueuedIn(s, t, k) && s.threads[t].oncpu == c)
      && (forall k :: QueuedIn(s, t, k) ==>
            k == Slot(s.threads[t].bind, s.threads[t].prio) && s.threads[t].oncpu == s.N() && Distinct(s.ready[k]))
      && (s.threads[t].stat == Ready ==> (exists c :: RunsOn(s, t, c)) || (exists k :: QueuedIn(s, t, k)))
      && (s.threads[t].stat == Suspended ==> forall k :: !QueuedIn(s, t, k))
  {
    RunsKeepInv(tr);
    var s := tr[i];
    assert Inv(s);
    if s.threads[t].stat == Ready {
      if s.threads[t].oncpu < s.N() {
        assert RunsOn(s, t, s.threads[t].oncpu);
      } else {
        assert QueuedIn(s, t, Slot(s.threads[t].bind, s.threads[t].prio));
      }
    }
  }

  /** CPU c runs a thread that is inside `rt_cpus_lock` and past its spin loop. */
  ghost predicate HoldsCpusLock(s: State, c: nat) {
    Active(s, c) && Cur(s, c).cpusNest > 0
  }

  /** `_cpus_lock` is exclusive across every switch, it is held exactly when some CPU is inside
      (or is booting), and only a running thread holds `_rt_critical_lock`. */
  lemma LocksAreExclusive(tr: seq<State>, i: nat)
    requires Run(tr) && i < |tr|
    ensures var s := tr[i];
      && (forall c, d :: HoldsCpusLock(s, c) && HoldsCpusLock(s, d) ==> c == d)
      && (forall c: nat :: HoldsCpusLock(s, c) ==> s.holder == Some(c))
      && (s.holder.Some? ==>
            s.holder.value < s.N() && (HoldsCpusLock(s, s.holder.value) || s.cpus[s.holder.value].current == None))
      && (forall t :: 0 <= t < |s.threads| ==>
            s.threads[t].schedNest == s.threads[t].crit + B2N(s.threads[t].cpusNest > 0))
      && (forall t :: 0 <= t < |s.threads| && s.threads[t].crit > 0 ==>
            s.critOwner == Some(t) && exists c :: RunsOn(s, t, c))
  {
    RunsKeepInv(tr);
    var s := tr[i];
    assert Inv(s);
    forall c: nat | HoldsCpusLock(s, c) ensures s.holder == Some(c) { assert CpuLockAgrees(s, c); }
    if s.holder.Some? { assert CpuLockAgrees(s, s.holder.value); }
    forall t | 0 <= t < |s.threads| && s.threads[t].crit > 0 ensures exists c :: RunsOn(s, t, c) {
      assert RunsOn(s, t, s.threads[t].oncpu);
    }
  }

  /** The most urgent thread that a CPU may draw from, or the running one. */
  ghost predicate RunsMostUrgent(r: State, c: nat, u: nat, k: Slot) {
    (k.q == c || k.q == r.N()) && QueuedIn(r, u, k) && c < r.N() ==>
      && r.cpus[c].current.Some? && r.cpus[c].current.value < |r.threads|
      && var cur := r.threads[r.cpus[c].current.value]; cur.stat == Ready && cur.prio <= k.p
  }

  /** After the choice that both schedulers make, nothing this CPU may draw from is more urgent than what it runs; and if it
      runs a suspended thread, there is nothing to draw from. */
  lemma RescheduleRunsMostUrgent(s: State, c: nat, fromIrq: bool, u: nat, k: Slot)
    requires Inv(s) && Steppable(s) && Inside(s, c) && Cur(s, c).schedNest == 1
    ensures RunsMostUrgent(Reschedule(s, c, fromIrq), c, u, k)
  {
    var r := Reschedule(s, c, fromIrq);
    RescheduleSameCpus(s, c, fromIrq);
    if (k.q == c || k.q == s.N()) && QueuedIn(r, u, k) {
      var t := s.cpus[c].current.value;
      if s.group[s.N()] == {} && s.group[c] == {} {
        assert false;
      }
      var h := HighestSlot(s, c);
      var first := s.ready[h][0];
      assert first in s.ready[h];
      if s.threads[t].stat == Ready && s.threads[t].prio < h.p {
        assert k.p < PRIO_MAX && k.p in s.group[k.q];
      } else {
        SwitchRunsMostUrgent(s, c, h, fromIrq, u, k);
      }
    }
  }

  lemma SwitchRunsMostUrgent(s: State, c: nat, h: Slot, fromIrq: bool, u: nat, k: Slot)
    requires Inv(s) && Inside(s, c) && Cur(s, c).schedNest == 1 && Cur(s, c).cpusNest > 0 && (k.q == c || k.q == s.N())
    requires (s.group[s.N()] != {} || s.group[c] != {}) && h == HighestSlot(s, c) && s.ready[h] != []
    requires s.ready[h][0] < |s.threads| && (Cur(s, c).stat == Ready ==> h.p <= Cur(s, c).prio)
    requires QueuedIn(Switch(s, c, s.cpus[c].current.value, s.ready[h][0], h.p, fromIrq), u, k)
    ensures var r := Switch(s, c, s.cpus[c].current.value, s.ready[h][0], h.p, fromIrq);
      && c < r.N() && r.cpus[c].current.Some? && r.cpus[c].current.value < |r.threads|
      && var cur := r.threads[r.cpus[c].current.value]; cur.stat == Ready && cur.prio <= k.p
  {
    var t, first := s.cpus[c].current.value, s.ready[h][0];
    assert first in s.ready[h];
    SwitchedThreads(s, c, t, first, h.p, fromIrq);
    QueuedAfterSwitch(s, c, t, first, h.p, fromIrq, u, k);
    if u in s.ready[k] { assert k.p < PRIO_MAX && k.p in s.group[k.q]; }
  }

  lemma RescheduleSameCpus(s: State, c: nat, fromIrq: bool)
    requires Shape(s) && Pickable(s) && c < s.N() && s.cpus[c].current.Some?
    requires s.threads[s.cpus[c].current.value].schedNest == 1 && s.threads[s.cpus[c].current.value].cpusNest > 0
    ensures Reschedule(s, c, fromIrq).N() == s.N()
  {
    hide Insert, Remove, Lowest, Shape;
  }

  /** `rt_schedule`, unlocked and outside interrupts */
  lemma ScheduleRunsMostUrgent(s: State, c: nat, u: nat, k: Slot)
    requires Inv(s) && Steppable(s) && Inside(s, c) && s.cpus[c].irqNest == 0 && Cur(s, c).crit == 0
    ensures RunsMostUrgent(ScheduleBody(s, c), c, u, k)
  {
    RescheduleRunsMostUrgent(s, c, false, u, k);
  }

  /** `rt_scheduler_do_irq_switch`, unlocked, at the end of the outermost interrupt, when a switch was asked for */
  lemma IrqSwitchRunsMostUrgent(s: State, c: nat, u: nat, k: Slot)
    requires Inv(s) && Steppable(s) && Inside(s, c) && s.cpus[c].irqNest == 0 && s.cpus[c].irqFlag
    requires Cur(s, c).crit == 0
    ensures RunsMostUrgent(IrqSwitchBody(s, c), c, u, k)
  {
    var s1 := SetCpu(s, c, s.cpus[c].(irqFlag := false));
    FlagKeeps(s, c, false);
    InvSteppable(s1);
    hide Inv, RunsMostUrgent, Reschedule, Lowest, Steppable;
    RescheduleRunsMostUrgent(s1, c, true, u, k);
  }

  lemma SwitchedThreads(s: State, c: nat, t: nat, first: nat, prio: nat, fromIrq: bool)
    requires Shape(s) && c < s.N() && t < |s.threads| && first < |s.threads| && first != t
    requires s.threads[t].schedNest > 0 && s.threads[t].cpusNest > 0
    ensures var r := Switch(s, c, t, first, prio, fromIrq);
      && c < r.N() && r.cpus[c].current == Some(first) && first < |r.threads|
      && r.threads[first] == s.threads[first].(oncpu := c)
  {
  }

  /** Who can be in a list after a switch: who was there before, or the thread switched out. */
  lemma QueuedAfterSwitch(s: State, c: nat, t: nat, first: nat, prio: nat, fromIrq: bool, u: nat, k: Slot)
    requires Shape(s) && ListsSound(s) && c < s.N() && t < |s.threads| && first < |s.threads| && first != t
    requires s.threads[t].schedNest > 0 && s.threads[t].cpusNest > 0
    requires k in Switch(s, c, t, first, prio, fromIrq).ready && u in Switch(s, c, t, first, prio, fromIrq).ready[k]
    ensures k in s.ready
    ensures u in s.ready[k] || (u == t && s.threads[t].stat == Ready && k == Slot(s.threads[t].bind, s.threads[t].prio))
  {
    var l := Leave(s, t).ready;
    var f := Slot(s.threads[first].bind, s.threads[first].prio);
    WithoutSubset(l[f], first);
  }

  lemma {:induction false} WithoutSubset(q: seq<nat>, t: nat)
    ensures forall u :: u in Without(q, t) ==> u in q
  {
    if q != [] && q[0] != t {
      WithoutSubset(q[1..], t);
    }
  }

  /** The head of list h runs on CPU c now, and t, which ran there, stands at the end of its list. */
  ghost predicate Rotated(s: State, r: State, c: nat, t: nat, h: Slot)
    requires t < |s.threads|
  {
    var own := Slot(s.threads[t].bind, h.p);
    && h in s.ready && own in s.ready && h in r.ready && own in r.ready && c < r.N()
    && s.ready[h] != [] && r.cpus[c].current == Some(s.ready[h][0])
    && r.ready[own] == (if own == h then s.ready[h][1..] else s.ready[own]) + [t]
    && (own != h ==> r.ready[h] == s.ready[h][1..])
  }

  /** Equal priorities take turns: the running thread goes to the back of its list and the head
      of the most urgent list runs. */
  lemma RescheduleRotates(s: State, c: nat, fromIrq: bool)
    requires Inv(s) && Steppable(s) && Inside(s, c) && Cur(s, c).schedNest == 1
    requires Cur(s, c).stat == Ready && (s.group[s.N()] != {} || s.group[c] != {})
    requires Cur(s, c).prio == HighestSlot(s, c).p
    ensures Rotated(s, Reschedule(s, c, fromIrq), c, s.cpus[c].current.value, HighestSlot(s, c))
  {
    var t, h := s.cpus[c].current.value, HighestSlot(s, c);
    var first := s.ready[h][0];
    assert first in s.ready[h];
    SwitchedThreads(s, c, t, first, h.p, fromIrq);
    hide Lowest, Switch;
    SwitchedLists(s, c, t, h, fromIrq);
  }

  lemma EqualPrioritiesRotate(s: State, c: nat)
    requires Inv(s) && Steppable(s) && Inside(s, c) && s.cpus[c].irqNest == 0 && Cur(s, c).crit == 0
    requires Cur(s, c).stat == Ready && (s.group[s.N()] != {} || s.group[c] != {})
    requires Cur(s, c).prio == HighestSlot(s, c).p
    ensures Rotated(s, ScheduleBody(s, c), c, s.cpus[c].current.value, HighestSlot(s, c))
  {
    RescheduleRotates(s, c, false);
  }

  lemma SameHighest(s: State, c: nat, flag: bool)
    requires Shape(s) && c < s.N() && (s.group[s.N()] != {} || s.group[c] != {})
    ensures var s1 := SetCpu(s, c, s.cpus[c].(irqFlag := flag)); Shape(s1) && HighestSlot(s1, c) == HighestSlot(s, c)
  {
    hide Lowest;
  }

  lemma IrqSwitchRotates(s: State, c: nat)
    requires Inv(s) && Steppable(s) && Inside(s, c) && s.cpus[c].irqNest == 0 && s.cpus[c].irqFlag && Cur(s, c).crit == 0
    requires Cur(s, c).stat == Ready && (s.group[s.N()] != {} || s.group[c] != {})
    requires Cur(s, c).prio == HighestSlot(s, c).p
    ensures Rotated(s, IrqSwitchBody(s, c), c, s.cpus[c].current.value, HighestSlot(s, c))
  {
    hide Inv, Reschedule, Lowest, HighestSlot;
    var s1 := SetCpu(s, c, s.cpus[c].(irqFlag := false));
    FlagKeeps(s, c, false);
    InvSteppable(s1);
    SameHighest(s, c, false);
    hide Steppable;
    RescheduleRotates(s1, c, true);
  }

  lemma SwitchedLists(s: State, c: nat, t: nat, h: Slot, fromIrq: bool)
    requires Shape(s) && c < s.N() && t < |s.threads| && h in s.ready && h.p < PRIO_MAX
    requires s.ready[h] != [] && s.ready[h][0] < |s.threads| && s.ready[h][0] != t
    requires s.threads[t].schedNest > 0 && s.threads[t].cpusNest > 0 && s.threads[t].stat == Ready && s.threads[t].prio == h.p
    requires h == Slot(s.threads[s.ready[h][0]].bind, s.threads[s.ready[h][0]].prio)
    ensures var r, own := Switch(s, c, t, s.ready[h][0], h.p, fromIrq), Slot(s.threads[t].bind, h.p);
      && h in r.ready && own in r.ready && own in s.ready
      && r.ready[own] == (if own == h then s.ready[h][1..] else s.ready[own]) + [t]
      && (own != h ==> r.ready[h] == s.ready[h][1..])
  {
    var own, l := Slot(s.threads[t].bind, h.p), Leave(s, t).ready;
    if own == h { assert l[h] == s.ready[h] + [t]; assert (s.ready[h] + [t])[1..] == s.ready[h][1..] + [t]; }
  }
}
