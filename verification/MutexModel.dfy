/** ipc.c: rt_mutex_take and rt_mutex_release, with priority inheritance and time-outs. */
module MutexModel {
  import opened Seqs
  import opened Wrappers
  import opened WaitQueue

  const NO_PRIORITY := 0xff

  /** `struct rt_mutex`; `queue` is its suspend_thread list. */
  datatype Mutex = Mutex(value: int, hold: int, owner: Option<nat>, original: nat, queue: seq<nat>, byPriority: bool)

  /** What a call returns; Blocked if the caller was suspended. */
  datatype Code = Taken | Released | TimedOut | Refused | Blocked

  type Prio = map<nat, nat>

  /** rt_mutex_take by thread t, willing to wait or not. */
  function Take(m: Mutex, prio: Prio, t: nat, wait: bool): (Mutex, Prio, Code)
    requires Known(m.queue, prio) && t in prio
    requires m.owner != Some(t) && m.value <= 0 ==> m.owner.Some? && m.owner.value in prio
  {
    if m.owner == Some(t) then (m.(hold := m.hold + 1), prio, Taken)
    else if m.value > 0 then
      (m.(value := m.value - 1, owner := Some(t), original := prio[t], hold := m.hold + 1), prio, Taken)
    else if !wait then (m, prio, TimedOut)
    else
      var o := m.owner.value;
      var p := if prio[t] < prio[o] then prio[o := prio[t]] else prio;
      (m.(queue := Enqueue(m.queue, t, p, m.byPriority)), p, Blocked)
  }

  /** rt_mutex_release by thread t. */
  function Release(m: Mutex, prio: Prio, t: nat): (Mutex, Prio, Code)
    requires Known(m.queue, prio) && t in prio
  {
    if m.owner != Some(t) then (m, prio, Refused)
    else if m.hold != 1 then (m.(hold := m.hold - 1), prio, Released)
    else
      var p := prio[t := m.original];
      if m.queue != [] then
        (m.(hold := 1, owner := Some(m.queue[0]), original := p[m.queue[0]], queue := m.queue[1..]), p, Released)
      else (m.(hold := 0, value := m.value + 1, owner := None, original := NO_PRIORITY), p, Released)
  }

  /** rt_thread_timeout of a thread that waits for the mutex. */
  function TimeOut(m: Mutex, t: nat): Mutex { m.(queue := Purge(m.queue, t)) }

  // ---------------------------------------------------------------- one mutex

  /** The owner is at least as urgent as everybody who waits. */
  predicate Inherits(m: Mutex, prio: Prio)
    requires Known(m.queue, prio)
  {
    m.owner.Some? ==> m.owner.value in prio && forall w :: w in m.queue ==> prio[m.owner.value] <= prio[w]
  }

  /** `base` is the priority a thread has when it owns no mutex. */
  ghost predicate MutexOk(m: Mutex, prio: Prio, base: Prio) {
    && Known(m.queue, prio) && Distinct(m.queue)
    && 0 <= m.value <= 1 && 0 <= m.hold
    && (m.value == 1 <==> m.owner.None?) && (m.hold == 0 <==> m.owner.None?)
    && (m.owner.None? ==> m.queue == [] && m.original == NO_PRIORITY)
    && (m.owner.Some? ==>
          var o := m.owner.value;
          o in prio && o in base && o !in m.queue && m.original == base[o] && prio[o] <= base[o])
    && (m.byPriority ==> Sorted(m.queue, prio) && Inherits(m, prio))
  }

  predicate Involved(m: Mutex, t: nat) { m.owner == Some(t) || t in m.queue }

  /** Only the given thread's priority differs. */
  predicate SameBut(p: Prio, q: Prio, t: nat) {
    q.Keys == p.Keys && forall x :: x in p && x != t ==> q[x] == p[x]
  }

  /** The owner is as urgent as it was or as t, whichever is more. */
  predicate Boosts(m: Mutex, prio: Prio, p: Prio, t: nat) {
    m.owner.Some? && var o := m.owner.value;
    o in prio && o in p && t in prio && p[o] <= prio[o] && p[o] <= prio[t] && (p[o] == prio[o] || p[o] == prio[t])
  }

  lemma TakeOk(m: Mutex, prio: Prio, base: Prio, t: nat, wait: bool)
    requires MutexOk(m, prio, base) && t in prio && t in base && t !in m.queue
    requires m.owner != Some(t) ==> prio[t] == base[t]
    ensures var (r, p, c) := Take(m, prio, t, wait);
      && MutexOk(r, p, base) && (c == Blocked ==> m.owner.Some? && SameBut(prio, p, m.owner.value)) && (c != Blocked ==> p == prio)
      && (forall x :: Involved(r, x) ==> Involved(m, x) || x == t) && (m.owner.Some? ==> r.owner == m.owner)
      && (c == Taken ==> r.owner == Some(t)) && (c == Blocked ==> t in r.queue) && (c == TimedOut ==> r == m)
  {
    var (r, p, c) := Take(m, prio, t, wait);
    if c == Blocked {
      var o := m.owner.value;
      OtherPriority(m.queue, prio, o, p[o]);
      assert p == prio[o := p[o]];
      EnqueueKeeps(m.queue, t, p, m.byPriority);
    }
  }

  /** rt_mutex_take succeeds if and only if nobody else owns the mutex.  Otherwise the thread gives up or waits, and
      waiting makes the owner exactly as urgent as needed. */
  lemma TakePromise(m: Mutex, prio: Prio, base: Prio, t: nat, wait: bool)
    requires MutexOk(m, prio, base) && t in prio && t !in m.queue
    ensures var (r, p, c) := Take(m, prio, t, wait);
      && (c == Taken <==> m.owner.None? || m.owner == Some(t)) && (c == Blocked <==> c != Taken && wait)
      && (c == Taken ==> r.owner == Some(t) && r.hold == m.hold + 1 && r.queue == m.queue && p == prio)
      && (c != Taken && c != Blocked ==> c == TimedOut && r == m && p == prio)
      && (c == Blocked ==> Boosts(m, prio, p, t) && SameBut(prio, p, m.owner.value))
      && (c == Blocked ==> r.owner == m.owner && r.hold == m.hold && r.original == m.original)
      && (c == Blocked ==> Known(m.queue, p) && Joins(m.queue, t, p, m.byPriority, r.queue))
  {
    hide Joins, Distinct, Sorted, Enqueue;
    var (r, p, c) := Take(m, prio, t, wait);
    if c == Blocked { EnqueueJoins(m.queue, t, p, m.byPriority); }
  }

  /** rt_mutex_release by anybody but the owner is refused; the last release gives the owner its own priority back and
      the mutex to the first who waits. */
  lemma ReleaseOk(m: Mutex, prio: Prio, base: Prio, t: nat)
    requires MutexOk(m, prio, base) && t in prio && t !in m.queue
    requires forall w :: w in m.queue ==> w in base && prio[w] == base[w]
    ensures var (r, p, c) := Release(m, prio, t);
      && MutexOk(r, p, base) && SameBut(prio, p, t) && (m.owner != Some(t) ==> r == m && p == prio && c == Refused)
      && (m.owner == Some(t) ==> c == Released && (r.owner == m.owner <==> m.hold > 1))
      && (m.owner == Some(t) && m.hold > 1 ==> r == m.(hold := m.hold - 1))
      && (r.owner != m.owner && m.queue == [] ==> r.owner == None && r.hold == 0)
      && (r.owner != m.owner && m.queue != [] ==> r.hold == 1)
      && (forall x :: Involved(r, x) ==> Involved(m, x))
      && (r.owner != m.owner ==> m.owner == Some(t) && t in base && p[t] == base[t]) && (r.owner == m.owner ==> p == prio)
      && (r.owner != m.owner && m.queue != [] ==> r.owner == Some(m.queue[0]) && r.queue == m.queue[1..])
  {
    if m.owner == Some(t) && m.hold == 1 && m.queue != [] {
      TailKeeps(m.queue, prio);
      OtherPriority(m.queue[1..], prio, t, m.original);
    }
  }

  lemma TimeOutOk(m: Mutex, prio: Prio, base: Prio, t: nat)
    requires MutexOk(m, prio, base)
    ensures MutexOk(TimeOut(m, t), prio, base)
    ensures forall x :: Involved(TimeOut(m, t), x) ==> Involved(m, x)
  {
    LeaveKeeps(m.queue, t, prio);
  }

  /** Releasing once undoes a recursive take. */
  lemma ReleaseUndoesTake(m: Mutex, prio: Prio, base: Prio, t: nat, wait: bool)
    requires MutexOk(m, prio, base) && m.owner == Some(t)
    ensures var (r, p, c) := Take(m, prio, t, wait); c == Taken && Release(r, p, t) == (m, prio, Released)
  {
  }

  function TakeTimes(m: Mutex, t: nat, prio: Prio, k: nat): Mutex
    requires Known(m.queue, prio) && t in prio && m.owner == Some(t)
    ensures TakeTimes(m, t, prio, k) == m.(hold := m.hold + k)
  {
    if k == 0 then m else Take(TakeTimes(m, t, prio, k - 1), prio, t, true).0
  }

  function ReleaseTimes(m: Mutex, t: nat, prio: Prio, k: nat): (Mutex, Prio)
    requires Known(m.queue, prio) && t in prio
    decreases k
  {
    if k == 0 || !Known(Release(m, prio, t).0.queue, Release(m, prio, t).1) || t !in Release(m, prio, t).1 then (m, prio)
    else ReleaseTimes(Release(m, prio, t).0, t, Release(m, prio, t).1, k - 1)
  }

  /** A free mutex taken k + 1 times and released k + 1 times, while nobody comes to wait, is as it was, and so is
      its owner's priority. */
  lemma {:induction false} TakesBalanceReleases(m: Mutex, prio: Prio, base: Prio, t: nat, k: nat)
    requires MutexOk(m, prio, base) && m.owner.None? && t in prio
    ensures var m1 := Take(m, prio, t, true).0;
      m1.owner == Some(t) && ReleaseTimes(TakeTimes(m1, t, prio, k), t, prio, k + 1) == (m, prio)
  {
    var m1 := Take(m, prio, t, true).0;
    DropTo(m1, prio, t, k);
    assert prio[t := prio[t]] == prio;
  }

  lemma {:induction false} DropTo(m: Mutex, prio: Prio, t: nat, k: nat)
    requires m.owner == Some(t) && m.hold == 1 && m.queue == [] && t in prio
    ensures ReleaseTimes(m.(hold := 1 + k), t, prio, k + 1) == (Release(m, prio, t).0, Release(m, prio, t).1)
  {
    if k > 0 { DropTo(m, prio, t, k - 1); }
  }

  // ---------------------------------------------------------------- any number of mutexes and threads

  datatype State = State(mutexes: map<nat, Mutex>, prio: Prio, base: Prio)

  datatype Step = DoTake(i: nat, t: nat, wait: bool) | DoRelease(i: nat, t: nat) | DoTimeOut(i: nat, t: nat)

  ghost predicate Inv(s: State) {
    && s.prio.Keys == s.base.Keys
    && (forall i :: i in s.mutexes ==> MutexOk(s.mutexes[i], s.prio, s.base))
    && (forall i, j, t :: i in s.mutexes && j in s.mutexes && Involved(s.mutexes[i], t) && Involved(s.mutexes[j], t) ==> i == j)
    && (forall t :: t in s.prio && !Owner(s, t) ==> s.prio[t] == s.base[t])
  }

  predicate Owner(s: State, t: nat) { exists i :: i in s.mutexes && s.mutexes[i].owner == Some(t) }

  /** Threads take and release while they run, and have to do with one mutex at a time. */
  predicate Enabled(s: State, e: Step) {
    && e.i in s.mutexes && e.t in s.prio
    && match e
       case DoTake(i, t, _) => forall j :: j in s.mutexes ==> t !in s.mutexes[j].queue && (j != i ==> s.mutexes[j].owner != Some(t))
       case DoRelease(i, t) => forall j :: j in s.mutexes ==> t !in s.mutexes[j].queue
       case DoTimeOut(i, t) => t in s.mutexes[i].queue
  }

  ghost function Do(s: State, e: Step): State
    requires Inv(s) && Enabled(s, e)
  {
    var m := s.mutexes[e.i];
    match e
    case DoTake(i, t, wait) =>
      var (r, p, _) := Take(m, s.prio, t, wait);
      s.(mutexes := s.mutexes[i := r], prio := p)
    case DoRelease(i, t) =>
      var (r, p, _) := Release(m, s.prio, t);
      s.(mutexes := s.mutexes[i := r], prio := p)
    case DoTimeOut(i, t) => s.(mutexes := s.mutexes[i := TimeOut(m, t)])
  }

  /** A mutex is not affected by what happens to the priority of a stranger. */
  lemma Stranger(m: Mutex, prio: Prio, base: Prio, t: nat, p: Prio)
    requires MutexOk(m, prio, base) && !Involved(m, t) && SameBut(prio, p, t)
    ensures MutexOk(m, p, base)
  {
  }

  lemma StepKeeps(s: State, e: Step)
    requires Inv(s) && Enabled(s, e)
    ensures Inv(Do(s, e))
  {
    var m, r := s.mutexes[e.i], Do(s, e);
    match e
    case DoTake(i, t, wait) =>
      if m.owner != Some(t) { assert !Owner(s, t); }
      TakeOk(m, s.prio, s.base, t, wait);
      TakeRest(s, i, t, wait);
    case DoRelease(i, t) =>
      forall w | w in m.queue ensures w in s.base && s.prio[w] == s.base[w] { WaiterOwnsNothing(s, i, w); }
      ReleaseOk(m, s.prio, s.base, t);
      ReleaseRest(s, i, t);
    case DoTimeOut(i, t) =>
      TimeOutOk(m, s.prio, s.base, t);
      forall x | x in r.prio && !Owner(r, x) ensures r.prio[x] == r.base[x] { OwnersKept(s, r, x); }
  }

  lemma OwnersKept(s: State, r: State, t: nat)
    requires forall i :: i in s.mutexes ==> i in r.mutexes && (s.mutexes[i].owner == Some(t) ==> r.mutexes[i].owner == Some(t))
    ensures Owner(s, t) ==> Owner(r, t)
  {
    if i :| i in s.mutexes && s.mutexes[i].owner == Some(t) { assert r.mutexes[i].owner == Some(t); }
  }

  lemma WaiterOwnsNothing(s: State, i: nat, w: nat)
    requires Inv(s) && i in s.mutexes && w in s.mutexes[i].queue
    ensures !Owner(s, w) && w in s.base && w in s.prio && s.prio[w] == s.base[w]
  {
    if j :| j in s.mutexes && s.mutexes[j].owner == Some(w) {
      assert Involved(s.mutexes[i], w) && Involved(s.mutexes[j], w);
    }
  }

  lemma TakeRest(s: State, i: nat, t: nat, wait: bool)
    requires Inv(s) && Enabled(s, DoTake(i, t, wait)) && MutexOk(Do(s, DoTake(i, t, wait)).mutexes[i], Do(s, DoTake(i, t, wait)).prio, s.base)
    ensures Inv(Do(s, DoTake(i, t, wait)))
  {
    var m, r := s.mutexes[i], Do(s, DoTake(i, t, wait));
    if m.owner != Some(t) { assert !Owner(s, t); }
    TakeOk(m, s.prio, s.base, t, wait);
    hide MutexOk, Known;
    forall j | j in s.mutexes && j != i ensures MutexOk(r.mutexes[j], r.prio, r.base) {
      if r.prio != s.prio {
        assert Involved(m, m.owner.value);
        Stranger(s.mutexes[j], s.prio, s.base, m.owner.value, r.prio);
      }
    }
    forall x | x in r.prio && !Owner(r, x) ensures r.prio[x] == r.base[x] { OwnersKept(s, r, x); }
  }

  lemma ReleaseRest(s: State, i: nat, t: nat)
    requires Inv(s) && Enabled(s, DoRelease(i, t)) && MutexOk(Do(s, DoRelease(i, t)).mutexes[i], Do(s, DoRelease(i, t)).prio, s.base)
    ensures Inv(Do(s, DoRelease(i, t)))
  {
    var m, r := s.mutexes[i], Do(s, DoRelease(i, t));
    forall w | w in m.queue ensures w in s.base && s.prio[w] == s.base[w] { WaiterOwnsNothing(s, i, w); }
    ReleaseOk(m, s.prio, s.base, t);
    hide MutexOk, Known;
    forall j | j in s.mutexes && j != i ensures MutexOk(r.mutexes[j], r.prio, r.base) {
      if r.prio != s.prio {
        assert Involved(m, t);
        Stranger(s.mutexes[j], s.prio, s.base, t, r.prio);
      }
    }
    forall x | x in r.prio && !Owner(r, x) ensures r.prio[x] == r.base[x] {
      if x != t || r.mutexes[i].owner == m.owner { OwnersKept(s, r, x); }
    }
  }

  /** Free mutexes, every thread at its own priority. */
  predicate Initial(s: State) {
    && s.prio == s.base
    && forall i :: i in s.mutexes ==> s.mutexes[i] == Mutex(1, 0, None, NO_PRIORITY, [], s.mutexes[i].byPriority)
  }

  ghost predicate Run(s: State, es: seq<Step>, r: State)
    requires Inv(s)
    decreases |es|
  {
    if es == [] then s == r
    else if !Enabled(s, es[0]) then false
    else
      StepKeeps(s, es[0]);
      Run(Do(s, es[0]), es[1..], r)
  }

  lemma {:induction false} RunKeepsInv(s: State, es: seq<Step>, r: State)
    requires Inv(s) && Run(s, es, r)
    ensures Inv(r)
    decreases |es|
  {
    if es != [] {
      StepKeeps(s, es[0]);
      RunKeepsInv(Do(s, es[0]), es[1..], r);
    }
  }

  lemma InitialInv(s: State)
    requires Initial(s)
    ensures Inv(s)
  {
  }

  /** In every reachable state the owner of a priority-ordered mutex is at least as urgent as everybody who waits
      for it, a mutex is free exactly when nobody owns it, and a thread that owns nothing has its own priority. */
  lemma NoInversion(s: State, es: seq<Step>, r: State, i: nat)
    requires Initial(s) && (InitialInv(s); Run(s, es, r)) && i in r.mutexes
    ensures var m := r.mutexes[i];
      && Known(m.queue, r.prio) && (m.byPriority ==> Inherits(m, r.prio))
      && (m.value == 1 <==> m.owner.None?) && (m.hold == 0 <==> m.owner.None?) && 0 <= m.value <= 1
      && (m.owner.None? ==> m.queue == [])
    ensures forall t :: t in r.prio && t in r.base && !Owner(r, t) ==> r.prio[t] == r.base[t]
  {
    InitialInv(s);
    RunKeepsInv(s, es, r);
  }

  /** The final release gives the owner back the priority it had when it got the mutex, and hands the mutex to the
      thread that has waited at the head. */
  lemma FinalRelease(s: State, i: nat, t: nat)
    requires Inv(s) && Enabled(s, DoRelease(i, t)) && s.mutexes[i].owner == Some(t) && s.mutexes[i].hold == 1
    ensures var m, r := s.mutexes[i], Do(s, DoRelease(i, t));
      && t in r.prio && t in s.base && r.prio[t] == s.base[t] && !Owner(r, t)
      && (m.queue == [] ==> r.mutexes[i].value == 1)
      && (m.queue != [] ==> r.mutexes[i].owner == Some(m.queue[0]) && r.mutexes[i].queue == m.queue[1..] && r.mutexes[i].hold == 1)
  {
    var m, r := s.mutexes[i], Do(s, DoRelease(i, t));
    forall w | w in m.queue ensures w in s.base && s.prio[w] == s.base[w] { WaiterOwnsNothing(s, i, w); }
    ReleaseOk(m, s.prio, s.base, t);
    StepKeeps(s, DoRelease(i, t));
    assert m.queue != [] ==> m.queue[0] in m.queue;
    forall j | j in r.mutexes ensures r.mutexes[j].owner != Some(t) {
      if j != i { assert Involved(m, t); assert s.mutexes[j] == r.mutexes[j]; }
    }
  }

  /** With a first-come queue the hand-over keeps the bound exactly when the thread that came first is also the most
      urgent one. */
  lemma FirstComeHandOver(m: Mutex, prio: Prio, base: Prio, t: nat)
    requires MutexOk(m, prio, base) && m.owner == Some(t) && m.hold == 1 && m.queue != []
    ensures Known(Release(m, prio, t).0.queue, Release(m, prio, t).1)
    ensures Inherits(Release(m, prio, t).0, Release(m, prio, t).1)
       <==> FirstIsUrgent(m.queue, prio)
  {
    TailKeeps(m.queue, prio);
    var h := m.queue[0];
    assert m.queue == [h] + m.queue[1..];
  }

  // ---------------------------------------------------------------- what hold counts

  /** The takes less the releases of mutex i by its owner since it became owner, over a run; `k` is the balance so far, and
      becoming owner, by a take or by a hand-over, counts as one take.  Only owners are looked at. */
  ghost function Balance(s: State, es: seq<Step>, i: nat, k: int): int
    requires Inv(s) && i in s.mutexes && Possible(s, es)
    decreases |es|
  {
    if es == [] then k
    else
      StepKeeps(s, es[0]);
      var s1 := Do(s, es[0]);
      Balance(s1, es[1..], i, Counted(s.mutexes[i].owner, s1.mutexes[i].owner, es[0], i, k))
  }

  /** The balance after a step e before which `was` owned mutex i, and after which `now` does. */
  function Counted(was: Option<nat>, now: Option<nat>, e: Step, i: nat, k: int): int {
    if now != was then if now.None? then 0 else 1
    else if now == Some(e.t) && e.i == i && e.DoTake? then k + 1
    else if now == Some(e.t) && e.i == i && e.DoRelease? then k - 1
    else k
  }

  /** The steps of es can be taken from s on. */
  ghost predicate Possible(s: State, es: seq<Step>)
    requires Inv(s)
    decreases |es|
  {
    es == [] || (Enabled(s, es[0]) && (StepKeeps(s, es[0]); Possible(Do(s, es[0]), es[1..])))
  }

  lemma {:induction false} RunPossible(s: State, es: seq<Step>, r: State)
    requires Inv(s) && Run(s, es, r)
    ensures Possible(s, es)
    decreases |es|
  {
    if es != [] {
      StepKeeps(s, es[0]);
      RunPossible(Do(s, es[0]), es[1..], r);
    }
  }

  lemma StepCounts(s: State, e: Step, i: nat)
    requires Inv(s) && Enabled(s, e) && i in s.mutexes
    ensures var r := Do(s, e);
      i in r.mutexes && r.mutexes[i].hold == Counted(s.mutexes[i].owner, r.mutexes[i].owner, e, i, s.mutexes[i].hold)
  {
    StepKeeps(s, e);
  }

  lemma {:induction false} HoldIsBalance(s: State, es: seq<Step>, r: State, i: nat)
    requires Inv(s) && Run(s, es, r) && i in s.mutexes && Possible(s, es)
    ensures i in r.mutexes && r.mutexes[i].hold == Balance(s, es, i, s.mutexes[i].hold)
    decreases |es|
  {
    hide Inv, Enabled, Do;
    if es != [] {
      StepKeeps(s, es[0]);
      StepCounts(s, es[0], i);
      HoldIsBalance(Do(s, es[0]), es[1..], r, i);
    }
  }

  /** In every reachable state, `hold` is that balance. */
  lemma HoldCounts(s: State, es: seq<Step>, r: State, i: nat)
    requires Initial(s) && (InitialInv(s); Run(s, es, r)) && i in s.mutexes
    ensures Possible(s, es) && i in r.mutexes && r.mutexes[i].hold == Balance(s, es, i, 0)
  {
    InitialInv(s);
    RunPossible(s, es, r);
    HoldIsBalance(s, es, r, i);
  }

  /** Only a release by the owner takes a mutex away from it. */
  lemma OwnerStays(s: State, e: Step, i: nat, t: nat)
    requires Inv(s) && Enabled(s, e) && i in s.mutexes && s.mutexes[i].owner == Some(t) && e != DoRelease(i, t)
    ensures i in Do(s, e).mutexes && Do(s, e).mutexes[i].owner == Some(t)
    ensures (forall w :: e != DoTake(i, t, w)) ==> Do(s, e).mutexes[i].hold == s.mutexes[i].hold
  {
  }

  /** Neither takes nor releases of mutex i by t. */
  predicate LeavesAlone(e: Step, i: nat, t: nat) { e.DoTimeOut? || e.i != i || e.t != t }

  lemma {:induction false} OwnerStaysOn(s: State, es: seq<Step>, r: State, i: nat, t: nat)
    requires Inv(s) && Run(s, es, r) && i in s.mutexes && s.mutexes[i].owner == Some(t)
    requires forall e :: e in es ==> LeavesAlone(e, i, t)
    ensures Inv(r) && i in r.mutexes && r.mutexes[i].owner == Some(t) && r.mutexes[i].hold == s.mutexes[i].hold
    decreases |es|
  {
    hide Inv, Enabled, Do;
    if es != [] {
      assert es[0] in es;
      StepKeeps(s, es[0]);
      OwnerStays(s, es[0], i, t);
      OwnerStaysOn(Do(s, es[0]), es[1..], r, i, t);
    }
  }

  /** A thread that has got the mutex, by whatever step, owns it with hold 1. */
  lemma NewOwnerHoldsOnce(s: State, e: Step, i: nat, t: nat)
    requires Inv(s) && Enabled(s, e) && i in s.mutexes && i in Do(s, e).mutexes
    requires s.mutexes[i].owner != Some(t) && Do(s, e).mutexes[i].owner == Some(t)
    ensures Do(s, e).mutexes[i].hold == 1
  {
  }

  /** So a thread that got the mutex by hand-over, at step e, and releases it once, whatever others do in between, no longer
      owns it. */
  lemma HandOverReleasesOnce(s: State, e: Step, es: seq<Step>, r: State, i: nat, t: nat)
    requires Inv(s) && Enabled(s, e) && i in s.mutexes && i in Do(s, e).mutexes
    requires s.mutexes[i].owner != Some(t) && Do(s, e).mutexes[i].owner == Some(t)
    requires (StepKeeps(s, e); Run(Do(s, e), es, r)) && forall d :: d in es ==> LeavesAlone(d, i, t)
    requires (RunKeepsInv(Do(s, e), es, r); Enabled(r, DoRelease(i, t)))
    ensures i in r.mutexes && r.mutexes[i].owner == Some(t)
    ensures i in Do(r, DoRelease(i, t)).mutexes && Do(r, DoRelease(i, t)).mutexes[i].owner != Some(t)
  {
    hide Inv, Enabled, Do;
    StepKeeps(s, e);
    NewOwnerHoldsOnce(s, e, i, t);
    OwnerStaysOn(Do(s, e), es, r, i, t);
    LastRelease(r, i, t);
  }

  lemma LastRelease(s: State, i: nat, t: nat)
    requires Inv(s) && Enabled(s, DoRelease(i, t)) && s.mutexes[i].owner == Some(t) && s.mutexes[i].hold == 1
    ensures i in Do(s, DoRelease(i, t)).mutexes && Do(s, DoRelease(i, t)).mutexes[i].owner != Some(t)
  {
    FinalRelease(s, i, t);
  }

  // ---------------------------------------------------------------- runs of first-come mutexes

  /** Every owner, of mutexes of either kind, is at least as urgent as everybody who waits. */
  ghost predicate AllInherit(s: State) {
    forall i :: i in s.mutexes ==> Known(s.mutexes[i].queue, s.prio) && Inherits(s.mutexes[i], s.prio)
  }

  /** If this is a hand-over, the thread that came first is also the most urgent one. */
  predicate FairStep(s: State, e: Step)
    requires Inv(s) && Enabled(s, e)
  {
    HandsOver(s, e) ==> FirstIsUrgent(s.mutexes[e.i].queue, s.prio)
  }

  predicate HandsOver(s: State, e: Step)
    requires e.i in s.mutexes
  {
    var m := s.mutexes[e.i];
    e.DoRelease? && m.owner == Some(e.t) && m.hold == 1 && m.queue != []
  }

  predicate FirstIsUrgent(q: seq<nat>, prio: Prio)
    requires Known(q, prio) && q != []
  {
    forall w :: w in q ==> prio[q[0]] <= prio[w]
  }

  /** Unfair hand-overs, and nothing else, lose the bound. */
  lemma StepInherits(s: State, e: Step)
    requires Inv(s) && Enabled(s, e) && AllInherit(s)
    ensures AllInherit(Do(s, e)) <==> FairStep(s, e)
  {
    var r := Do(s, e);
    forall j | j in s.mutexes && j != e.i ensures Known(r.mutexes[j].queue, r.prio) && Inherits(r.mutexes[j], r.prio) {
      OtherInherits(s, e, j);
    }
    ThisInherits(s, e);
    hide Do, Inv, Enabled, HandsOver, FirstIsUrgent, Known, Inherits;
  }

  lemma ThisInherits(s: State, e: Step)
    requires Inv(s) && Enabled(s, e) && AllInherit(s)
    ensures Do(s, e).mutexes.Keys == s.mutexes.Keys && Known(Do(s, e).mutexes[e.i].queue, Do(s, e).prio)
    ensures Inherits(Do(s, e).mutexes[e.i], Do(s, e).prio) <==> FairStep(s, e)
  {
    var m := s.mutexes[e.i];
    hide Inherits, Sorted, Distinct, FirstIsUrgent, Purge;
    match e
    case DoTake(i, t, wait) => TakeInherits(m, s.prio, s.base, t, wait);
    case DoRelease(i, t) =>
      if HandsOver(s, e) { FirstComeHandOver(m, s.prio, s.base, t); } else { QuietRelease(m, s.prio, s.base, t); }
    case DoTimeOut(i, t) => TimeOutInherits(m, s.prio, t);
  }

  lemma QuietRelease(m: Mutex, prio: Prio, base: Prio, t: nat)
    requires MutexOk(m, prio, base) && Inherits(m, prio) && t in prio && (m.owner == Some(t) && m.hold == 1 ==> m.queue == [])
    ensures var (r, p, _) := Release(m, prio, t); Known(r.queue, p) && Inherits(r, p)
  {
  }

  lemma TimeOutInherits(m: Mutex, prio: Prio, t: nat)
    requires Known(m.queue, prio) && Inherits(m, prio)
    ensures Known(TimeOut(m, t).queue, prio) && Inherits(TimeOut(m, t), prio)
  {
  }

  lemma TakeInherits(m: Mutex, prio: Prio, base: Prio, t: nat, wait: bool)
    requires MutexOk(m, prio, base) && Inherits(m, prio) && t in prio && t !in m.queue
    ensures var (r, p, _) := Take(m, prio, t, wait); Known(r.queue, p) && Inherits(r, p)
  {
    var (r, p, c) := Take(m, prio, t, wait);
    if c == Blocked { EnqueueKeeps(m.queue, t, p, m.byPriority); }
  }

  lemma OtherInherits(s: State, e: Step, j: nat)
    requires Inv(s) && Enabled(s, e) && AllInherit(s) && j in s.mutexes && j != e.i
    ensures var r := Do(s, e); j in r.mutexes && Known(r.mutexes[j].queue, r.prio) && Inherits(r.mutexes[j], r.prio)
  {
    var m, r, n := s.mutexes[e.i], Do(s, e), s.mutexes[j];
    forall x | Involved(n, x) ensures x in r.prio && r.prio[x] == s.prio[x] { assert !Involved(m, x); }
    forall w | w in n.queue ensures Involved(n, w) {}
  }

  ghost predicate FairRun(s: State, es: seq<Step>, r: State)
    requires Inv(s)
    decreases |es|
  {
    if es == [] then s == r
    else if !Enabled(s, es[0]) then false
    else
      StepKeeps(s, es[0]);
      FairStep(s, es[0]) && FairRun(Do(s, es[0]), es[1..], r)
  }

  /** As long as every hand-over is fair, first-come mutexes have the bound that priority mutexes always have. */
  lemma {:induction false} FairRunsInherit(s: State, es: seq<Step>, r: State)
    requires Inv(s) && AllInherit(s) && FairRun(s, es, r)
    ensures Inv(r) && AllInherit(r)
    decreases |es|
  {
    if es != [] {
      StepKeeps(s, es[0]);
      StepInherits(s, es[0]);
      FairRunsInherit(Do(s, es[0]), es[1..], r);
    }
  }

  lemma InitialInherits(s: State)
    requires Initial(s)
    ensures AllInherit(s)
  {
  }

  /** An unfair hand-over can happen: a thread of priority 10 takes the mutex, threads of priority 20 and 5 come to wait,
      in this order, and it releases. */
  lemma FirstComeInversion(s: State, es: seq<Step>) returns (r: State)
    requires s.prio == s.base == map[0 := 10, 1 := 20, 2 := 5]
    requires s.mutexes == map[0 := Mutex(1, 0, None, NO_PRIORITY, [], false)]
    requires |es| == 4 && es[0] == DoTake(0, 0, true) && es[1] == DoTake(0, 1, true)
    requires es[2] == DoTake(0, 2, true) && es[3] == DoRelease(0, 0)
    ensures Initial(s) && Inv(s) && Run(s, es, r)
    ensures r.prio == s.prio && r.mutexes == map[0 := Mutex(0, 1, Some(1), 20, [2], false)] && !Inherits(r.mutexes[0], r.prio)
  {
    InitialInv(s);
    hide Inv, Enabled, Do, Known, Run, Inherits, Initial;
    var s1 := s.(mutexes := map[0 := Mutex(0, 1, Some(0), 10, [], false)]);
    var s2 := s.(mutexes := map[0 := Mutex(0, 1, Some(0), 10, [1], false)]);
    var s3 := s.(mutexes := map[0 := Mutex(0, 1, Some(0), 10, [1, 2], false)], prio := map[0 := 5, 1 := 20, 2 := 5]);
    r := s.(mutexes := map[0 := Mutex(0, 1, Some(1), 20, [2], false)]);
    TakesFree(s);
    assert s.prio[0 := 5] == s3.prio && [] + [1] == [1] && [1] + [2] == [1, 2];
    Comes(s1, 1, []);
    Comes(s2, 2, [1]);
    HandsTo(s3);
    FourSteps(s, s1, s2, s3, r, es);
    LessUrgentOwner(r);
  }

  ghost predicate Leads(s: State, e: Step, r: State) { Inv(s) && Enabled(s, e) && Do(s, e) == r && Inv(r) }

  lemma FourSteps(s: State, s1: State, s2: State, s3: State, r: State, es: seq<Step>)
    requires |es| == 4 && Leads(s, es[0], s1) && Leads(s1, es[1], s2) && Leads(s2, es[2], s3) && Leads(s3, es[3], r)
    ensures Run(s, es, r)
  {
    hide Inv, Enabled, Do;
    var e3 := [es[3]] + [];
    var e2 := [es[2]] + e3;
    var e1 := [es[1]] + e2;
    RunNothing(r);
    hide Run;
    RunMore(s3, es[3], [], r);
    RunMore(s2, es[2], e3, r);
    RunMore(s1, es[1], e2, r);
    RunMore(s, es[0], e1, r);
    assert [es[0]] + e1 == es;
  }

  lemma LessUrgentOwner(s: State)
    requires s.prio == map[0 := 10, 1 := 20, 2 := 5] && s.mutexes == map[0 := Mutex(0, 1, Some(1), 20, [2], false)]
    ensures Known(s.mutexes[0].queue, s.prio) && !Inherits(s.mutexes[0], s.prio)
  {
    assert 2 in s.mutexes[0].queue;
  }

  lemma RunNothing(s: State)
    requires Inv(s)
    ensures Run(s, [], s)
  {
  }

  lemma RunMore(s: State, e: Step, es: seq<Step>, r: State)
    requires Inv(s) && Enabled(s, e) && Inv(Do(s, e)) && Run(Do(s, e), es, r)
    ensures Run(s, [e] + es, r)
  {
    assert ([e] + es)[1..] == es;
  }

  lemma TakesFree(s: State)
    requires Inv(s) && 0 in s.prio && s.prio[0] == 10 && s.mutexes == map[0 := Mutex(1, 0, None, NO_PRIORITY, [], false)]
    ensures Leads(s, DoTake(0, 0, true), s.(mutexes := map[0 := Mutex(0, 1, Some(0), 10, [], false)]))
  {
    assert Enabled(s, DoTake(0, 0, true));
    StepKeeps(s, DoTake(0, 0, true));
  }

  lemma Comes(s: State, t: nat, q: seq<nat>)
    requires Inv(s) && 0 in s.prio && t in s.prio && t != 0 && t !in q
    requires s.mutexes == map[0 := Mutex(0, 1, Some(0), 10, q, false)]
    ensures var r := s.(mutexes := map[0 := Mutex(0, 1, Some(0), 10, q + [t], false)],
                        prio := if s.prio[t] < s.prio[0] then s.prio[0 := s.prio[t]] else s.prio);
      Leads(s, DoTake(0, t, true), r)
  {
    var p := if s.prio[t] < s.prio[0] then s.prio[0 := s.prio[t]] else s.prio;
    var m := s.mutexes[0];
    assert Enabled(s, DoTake(0, t, true));
    StepKeeps(s, DoTake(0, t, true));
    assert Known(q, p) && Enqueue(q, t, p, false) == q + [t];
    assert Take(m, s.prio, t, true).0 == m.(queue := q + [t]);
  }

  lemma HandsTo(s: State)
    requires Inv(s) && s.prio == map[0 := 5, 1 := 20, 2 := 5]
    requires s.mutexes == map[0 := Mutex(0, 1, Some(0), 10, [1, 2], false)]
    ensures Leads(s, DoRelease(0, 0),
      s.(mutexes := map[0 := Mutex(0, 1, Some(1), 20, [2], false)], prio := map[0 := 10, 1 := 20, 2 := 5]))
  {
    assert [1, 2][1..] == [2] && s.prio[0 := 10] == map[0 := 10, 1 := 20, 2 := 5];
    assert Enabled(s, DoRelease(0, 0));
    StepKeeps(s, DoRelease(0, 0));
    assert Release(s.mutexes[0], s.prio, 0).0 == Mutex(0, 1, Some(1), 20, [2], false);
  }
}
