/** The uniprocessor scheduler with up to 256 priorities: a two-level bitmap over the ready lists. */
module UniScheduler {
  import opened Seqs
  import opened Bits

  const PRIO_MAX := 256

  datatype Stat = Init | Ready | Suspended

  /** `number_mask`, `number` and `high_mask` are functions of the priority (thread.c:289-292). */
  datatype Tcb = Tcb(stat: Stat, prio: nat)

  type Byte = w: seq<bool> | |w| == 8 witness seq(8, i => false)

  function Widen(b: Byte): Word { b + seq(24, i => false) }

  lemma WidenedFfs(b: Byte)
    requires !IsZero(b)
    ensures 1 <= Ffs(Widen(b)) <= 8 && b[Ffs(Widen(b)) - 1] && forall j :: 0 <= j < Ffs(Widen(b)) - 1 ==> !b[j]
  {
    var w := Widen(b);
    assert forall j :: 0 <= j < 8 ==> w[j] == b[j];
    FfsIsLowest(w);
  }

  /** Two words for one question: does priority p have a ready thread? */
  predicate BitmapAgrees(lists: seq<seq<nat>>, table: seq<Byte>, group: Word)
    requires |lists| == PRIO_MAX && |table| == 32
  {
    && (forall p :: 0 <= p < PRIO_MAX ==> (table[p / 8][p % 8] <==> lists[p] != []))
    && (forall n :: 0 <= n < 32 ==> (group[n] <==> !IsZero(table[n])))
  }

  /** The most urgent priority, found with two `__rt_ffs`. */
  function Highest(table: seq<Byte>, group: Word): int
    requires |table| == 32
  {
    var number := Ffs(group) - 1;
    if 0 <= number < 32 then number * 8 + Ffs(Widen(table[number])) - 1 else -1
  }

  /** Two levels of `__rt_ffs` find the least priority whose list is not empty, for all 256. */
  lemma HighestIsMostUrgent(lists: seq<seq<nat>>, table: seq<Byte>, group: Word)
    requires |lists| == PRIO_MAX && |table| == 32 && BitmapAgrees(lists, table, group) && !IsZero(group)
    ensures var h := Highest(table, group);
      0 <= h < PRIO_MAX && lists[h] != [] && forall p :: 0 <= p < h ==> lists[p] == []
  {
    FfsIsLowest(group);
    var n := Ffs(group) - 1;
    assert group[n];
    WidenedFfs(table[n]);
    var b := Ffs(Widen(table[n])) - 1;
    var h := n * 8 + b;
    assert h / 8 == n && h % 8 == b;
    forall p | 0 <= p < h ensures lists[p] == [] {
      if p / 8 < n { assert !group[p / 8]; } else { assert p / 8 == n && !table[n][p % 8]; }
    }
  }

  /** Every list holds, once each, exactly the READY threads of its priority that do not run. */
  ghost predicate ListsHoldTheReady(lists: seq<seq<nat>>, threads: seq<Tcb>, current: nat)
    requires |lists| == PRIO_MAX
  {
    && (forall p :: 0 <= p < PRIO_MAX ==> Distinct(lists[p]))
    && (forall p, t: nat :: 0 <= p < PRIO_MAX ==> (t in lists[p] <==> BelongsIn(t, p, threads, current)))
  }

  predicate BelongsIn(t: nat, p: int, threads: seq<Tcb>, current: nat) {
    t < |threads| && t != current && threads[t].stat == Ready && threads[t].prio == p
  }

  /** The lists once thread `from` is queued again, if it may be, and the head of list h is gone. */
  function SwitchLists(lists: seq<seq<nat>>, threads: seq<Tcb>, from: nat, h: nat): seq<seq<nat>>
    requires |lists| == PRIO_MAX && from < |threads| && threads[from].prio < PRIO_MAX
    requires h < PRIO_MAX && lists[h] != []
  {
    var p := threads[from].prio;
    var q := if threads[from].stat == Ready then lists[p := lists[p] + [from]] else lists;
    q[h := q[h][1..]]
  }

  lemma TailOfDistinct(q: seq<nat>)
    requires Distinct(q) && q != []
    ensures Distinct(q[1..]) && forall t :: t in q[1..] <==> t in q && t != q[0]
  {
    assert q == [q[0]] + q[1..];
  }

  lemma SwitchKeepsLists(lists: seq<seq<nat>>, threads: seq<Tcb>, from: nat, h: nat)
    requires |lists| == PRIO_MAX && from < |threads| && threads[from].prio < PRIO_MAX
    requires h < PRIO_MAX && lists[h] != [] && ListsHoldTheReady(lists, threads, from)
    ensures ListsHoldTheReady(SwitchLists(lists, threads, from, h), threads, lists[h][0])
  {
    var p, to := threads[from].prio, lists[h][0];
    assert to in lists[h];
    assert from !in lists[p];
    var q := if threads[from].stat == Ready then lists[p := lists[p] + [from]] else lists;
    assert forall k, t: nat :: 0 <= k < PRIO_MAX ==>
      (t in q[k] <==> t in lists[k] || (t == from && k == p && threads[from].stat == Ready));
    assert q[h][0] == to && Distinct(q[h]);
    TailOfDistinct(q[h]);
    var r := SwitchLists(lists, threads, from, h);
    forall k, t: nat | 0 <= k < PRIO_MAX
      ensures t in r[k] <==> BelongsIn(t, k, threads, to)
    {
      assert t in q[k] <==> t in lists[k] || (t == from && k == p && threads[from].stat == Ready);
      assert t in lists[k] <==> BelongsIn(t, k, threads, from);
      assert to in lists[k] <==> BelongsIn(to, k, threads, from);
      if k == h { assert r[k] == q[h][1..]; } else { assert r[k] == q[k]; }
    }
  }

  function NoBits(): Byte { seq(8, i => false) }

  /** A thread that is not READY becomes so. */
  lemma InsertHolds(lists: seq<seq<nat>>, threads: seq<Tcb>, current: nat, t: nat)
    requires |lists| == PRIO_MAX && t < |threads| && threads[t].stat != Ready && threads[t].prio < PRIO_MAX
    requires ListsHoldTheReady(lists, threads, current)
    ensures var r, p := threads[t := threads[t].(stat := Ready)], threads[t].prio;
      ListsHoldTheReady(if t == current then lists else lists[p := lists[p] + [t]], r, current)
  {
    var r, p := threads[t := threads[t].(stat := Ready)], threads[t].prio;
    var q := if t == current then lists else lists[p := lists[p] + [t]];
    assert !BelongsIn(t, p, threads, current);
    forall k, u: nat | 0 <= k < PRIO_MAX ensures u in q[k] <==> BelongsIn(u, k, r, current) {
      assert u in lists[k] <==> BelongsIn(u, k, threads, current);
    }
  }

  /** A READY thread leaves its list, to get another priority. */
  lemma RemoveHolds(lists: seq<seq<nat>>, threads: seq<Tcb>, current: nat, t: nat, n: nat)
    requires |lists| == PRIO_MAX && t < |threads| && threads[t].stat == Ready && threads[t].prio < PRIO_MAX
    requires ListsHoldTheReady(lists, threads, current)
    ensures var p := threads[t].prio;
      ListsHoldTheReady(lists[p := Without(lists[p], t)], threads[t := threads[t].(prio := n, stat := Suspended)], current)
  {
    var p, r := threads[t].prio, threads[t := threads[t].(prio := n, stat := Suspended)];
    var q := lists[p := Without(lists[p], t)];
    WithoutPresent(lists[p], t);
    forall k, u: nat | 0 <= k < PRIO_MAX ensures u in q[k] <==> BelongsIn(u, k, r, current) {
      assert u in lists[k] <==> BelongsIn(u, k, threads, current);
    }
  }

  lemma OtherPriority(lists: seq<seq<nat>>, threads: seq<Tcb>, current: nat, t: nat, n: nat)
    requires |lists| == PRIO_MAX && t < |threads| && threads[t].stat != Ready && ListsHoldTheReady(lists, threads, current)
    ensures ListsHoldTheReady(lists, threads[t := threads[t].(prio := n)], current)
  {
    var r := threads[t := threads[t].(prio := n)];
    forall k, u: nat | 0 <= k < PRIO_MAX ensures u in lists[k] <==> BelongsIn(u, k, r, current) {
      assert u in lists[k] <==> BelongsIn(u, k, threads, current);
    }
  }

  class Scheduler {
    var threads: seq<Tcb>
    var current: nat                 // rt_current_thread
    var lockNest: nat                // rt_scheduler_lock_nest
    var lists: seq<seq<nat>>         // rt_thread_priority_table
    var table: seq<Byte>             // rt_thread_ready_table
    var group: Word                  // rt_thread_ready_priority_group

    ghost predicate Shaped()
      reads this
    {
      && |lists| == PRIO_MAX && |table| == 32 && BitmapAgrees(lists, table, group)
      && current < |threads| && forall t :: 0 <= t < |threads| ==> threads[t].prio < PRIO_MAX
    }

    ghost predicate Valid()
      reads this
    {
      Shaped() && ListsHoldTheReady(lists, threads, current)
    }

    /** rt_schedule_insert_thread */
    method InsertThread(t: nat)
      requires Shaped() && t < |threads|
      modifies this`threads, this`lists, this`table, this`group
      ensures Shaped() && threads == old(threads)[t := old(threads)[t].(stat := Ready)]
      ensures t == current ==> lists == old(lists)
      ensures var p := old(threads)[t].prio; t != current ==> lists == old(lists)[p := old(lists)[p] + [t]]
    {
      threads := threads[t := threads[t].(stat := Ready)];
      if t == current { return; }
      var p := threads[t].prio;
      lists := lists[p := lists[p] + [t]];
      table := table[p / 8 := Or(table[p / 8], OneHot(8, p % 8))];
      group := Or(group, OneHot(32, p / 8));
      assert table[p / 8][p % 8];
    }

    /** rt_schedule_remove_thread */
    method RemoveThread(t: nat)
      requires Shaped() && t < |threads|
      modifies this`lists, this`table, this`group
      ensures Shaped()
      ensures var p := threads[t].prio; lists == old(lists)[p := Without(old(lists)[p], t)]
    {
      var p := threads[t].prio;
      lists := lists[p := Without(lists[p], t)];
      if lists[p] == [] {
        var n := p / 8;
        table := table[n := AndNot(table[n], OneHot(8, p % 8))];
        if IsZero(table[n]) { group := AndNot(group, OneHot(32, n)); }
      }
    }

    /** The state that rt_system_scheduler_start leaves when `first` is the only thread started so far. */
    constructor (tcbs: seq<Tcb>, first: nat)
      requires first < |tcbs| && forall t :: 0 <= t < |tcbs| ==> tcbs[t].prio < PRIO_MAX && (tcbs[t].stat == Ready <==> t == first)
      ensures Valid() && threads == tcbs && current == first && lockNest == 0
    {
      threads, current, lockNest := tcbs, first, 0;
      lists := seq(PRIO_MAX, _ => []);
      table := seq(32, _ => NoBits());
      group := Widen(NoBits());
      new;
      assert forall p :: 0 <= p < PRIO_MAX ==> lists[p] == [];
      assert forall n :: 0 <= n < 32 ==> table[n] == NoBits();
    }

    /** rt_thread_suspend on oneself; the running thread is in no list, and goes on running until rt_schedule. */
    method ThreadSuspend() returns (ok: bool)
      requires Valid()
      modifies this
      ensures Valid() && current == old(current) && lockNest == old(lockNest) && lists == old(lists)
      ensures ok == (old(threads)[current].stat == Ready)
      ensures threads == if ok then old(threads)[current := old(threads)[current].(stat := Suspended)] else old(threads)
    {
      if threads[current].stat != Ready { return false; }
      threads := threads[current := threads[current].(stat := Suspended)];
      WithoutAbsent(lists[threads[current].prio], current);
      RemoveThread(current);
      assert lists == old(lists);
      return true;
    }

    /** rt_thread_resume, and rt_thread_timeout: the thread is READY and, unless it still runs, last in its list. */
    method ThreadResume(t: nat) returns (ok: bool)
      requires Valid() && t < |threads|
      modifies this
      ensures Valid() && current == old(current) && lockNest == old(lockNest)
      ensures ok == (old(threads)[t].stat == Suspended)
      ensures threads == if ok then old(threads)[t := old(threads)[t].(stat := Ready)] else old(threads)
      ensures var p := old(threads)[t].prio;
        lists == if ok && t != current then old(lists)[p := old(lists)[p] + [t]] else old(lists)
    {
      hide ListsHoldTheReady, BitmapAgrees;
      if threads[t].stat != Suspended { return false; }
      InsertHolds(lists, threads, current, t);
      InsertThread(t);
      return true;
    }

    /** rt_thread_startup, without its final rt_schedule */
    method ThreadStartup(t: nat)
      requires Valid() && t < |threads| && threads[t].stat == Init
      modifies this
      ensures Valid() && current == old(current) && lockNest == old(lockNest)
      ensures threads == old(threads)[t := old(threads)[t].(stat := Ready)]
    {
      InsertHolds(lists, threads, current, t);
      InsertThread(t);
    }

    /** rt_thread_control(RT_THREAD_CTRL_CHANGE_PRIORITY) */
    method ThreadChangePriority(t: nat, p: nat)
      requires Valid() && t < |threads| && p < PRIO_MAX
      modifies this
      ensures Valid() && current == old(current) && lockNest == old(lockNest)
      ensures threads == old(threads)[t := old(threads)[t].(prio := p)]
    {
      hide ListsHoldTheReady, BitmapAgrees;
      if threads[t].stat == Ready {
        RemoveHolds(lists, threads, current, t, p);
        RemoveThread(t);
        threads := threads[t := threads[t].(prio := p)];
        ghost var idle := threads[t := threads[t].(stat := Suspended)];
        assert idle == old(threads)[t := old(threads)[t].(prio := p, stat := Suspended)];
        InsertHolds(lists, idle, current, t);
        InsertThread(t);
        assert threads == idle[t := idle[t].(stat := Ready)];
      } else {
        OtherPriority(lists, threads, current, t, p);
        threads := threads[t := threads[t].(prio := p)];
      }
    }

    /** rt_enter_critical */
    method EnterCritical()
      requires Valid()
      modifies `lockNest
      ensures Valid() && lockNest == old(lockNest) + 1
    {
      lockNest := lockNest + 1;
    }

    /** rt_exit_critical: the outermost exit schedules. */
    method ExitCritical()
      requires Valid()
      modifies this
      ensures Valid() && threads == old(threads) && lockNest == if old(lockNest) > 0 then old(lockNest) - 1 else 0
      ensures lockNest > 0 ==> current == old(current) && lists == old(lists)
      ensures lockNest == 0 ==> forall p :: 0 <= p < PRIO_MAX && lists[p] != [] ==>
        threads[current].stat == Ready && threads[current].prio <= p
    {
      if lockNest <= 1 {
        lockNest := 0;
        Schedule();
      } else {
        lockNest := lockNest - 1;
      }
    }

    /** rt_schedule.  Afterwards, unless the scheduler is locked, nobody ready is more urgent than the
        running thread.  A switch goes to the head of the most urgent list, and who was running and
        still could is at the back of its own list. */
    method Schedule()
      requires Valid()
      modifies this
      ensures Valid() && threads == old(threads) && lockNest == old(lockNest)
      ensures lockNest > 0 ==> current == old(current)
      ensures lockNest == 0 ==> forall p :: 0 <= p < PRIO_MAX && lists[p] != [] ==>
        threads[current].stat == Ready && threads[current].prio <= p
      ensures current == old(current) ==> lists == old(lists)
      ensures current != old(current) ==>
        var h := threads[current].prio;
        && old(lists)[h] != [] && current == old(lists)[h][0]
        && (threads[old(current)].stat == Ready ==> h <= threads[old(current)].prio)
        && lists == SwitchLists(old(lists), threads, old(current), h)
    {
      if lockNest > 0 { return; }
      UpdatesAreSetUpdates(group, 0);
      if IsZero(group) {
        forall p | 0 <= p < PRIO_MAX ensures lists[p] == [] { assert !group[p / 8]; }
        return;
      }
      var to, highest, needInsert := Choose();
      if to != current {
        SwitchTo(to, highest, needInsert);
        SwitchedIsUrgent(old(lists), threads, old(current), highest);
      } else {
        WithoutAbsent(lists[threads[current].prio], current);
        RemoveThread(current);
        assert lists == old(lists);
      }
    }

    /** Whom rt_schedule picks, and whether the running thread has to be queued. */
    method Choose() returns (to: nat, highest: nat, needInsert: bool)
      requires Valid() && !IsZero(group)
      ensures highest < PRIO_MAX && lists[highest] != [] && forall p :: 0 <= p < highest ==> lists[p] == []
      ensures var stays := threads[current].stat == Ready && threads[current].prio < highest;
        && to == (if stays then current else lists[highest][0])
        && (needInsert <==> threads[current].stat == Ready && !stays)
      ensures lists[highest][0] < |threads| && lists[highest][0] != current
      ensures threads[lists[highest][0]] == Tcb(Ready, highest)
    {
      HighestIsMostUrgent(lists, table, group);
      highest := Highest(table, group);
      to := lists[highest][0];
      assert to in lists[highest];
      needInsert := false;
      if threads[current].stat == Ready {
        if threads[current].prio < highest { to := current; } else { needInsert := true; }
      }
    }

    /** The switch: the new thread is current before the old one is queued, so the queueing is not
        skipped. */
    method SwitchTo(to: nat, highest: nat, needInsert: bool)
      requires Valid() && highest < PRIO_MAX && lists[highest] != [] && to == lists[highest][0]
      requires needInsert <==> threads[current].stat == Ready
      modifies this
      ensures Valid() && current == to && threads == old(threads) && lockNest == old(lockNest)
      ensures lists == SwitchLists(old(lists), threads, old(current), highest)
    {
      assert to in lists[highest];
      SwitchKeepsLists(lists, threads, current, highest);
      var from := current;
      current := to;
      if needInsert { InsertThread(from); }
      assert threads == old(threads);
      RemoveThread(to);
    }
  }

  lemma SwitchedIsUrgent(lists: seq<seq<nat>>, threads: seq<Tcb>, from: nat, h: nat)
    requires |lists| == PRIO_MAX && from < |threads| && threads[from].prio < PRIO_MAX
    requires h < PRIO_MAX && lists[h] != [] && forall p :: 0 <= p < h ==> lists[p] == []
    requires threads[from].stat == Ready ==> h <= threads[from].prio
    ensures forall p :: 0 <= p < PRIO_MAX && SwitchLists(lists, threads, from, h)[p] != [] ==> h <= p
  {
  }
}
