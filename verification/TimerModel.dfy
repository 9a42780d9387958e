/** timer.c as a state machine: rows, timers, the tick count, and the true times behind the wrapped ticks. */
module TimerModel {
  import opened Seqs
  import opened Timers

  /** `struct rt_timer`; `timeout` is `timeout_tick`. */
  datatype Timer = Timer(init: nat, periodic: bool, active: bool, timeout: nat)

  /** `rows` runs from the sparsest row to the full one.  `now` and `due` are times that never wrap; the kernel
      only has `tick` and each timer's `timeout`. */
  datatype State = State(rows: seq<seq<nat>>, timers: map<nat, Timer>, random: nat, tick: nat,
                         now: nat, due: map<nat, nat>)
  {
    function Bottom(): seq<nat>
      requires rows != []
    {
      rows[|rows| - 1]
    }
  }

  // ---------------------------------------------------------------- the invariant

  ghost predicate RowsOk(s: State) {
    && s.rows != []
    && (forall l :: 0 <= l < |s.rows| ==> Distinct(s.rows[l]) && Known(s.rows[l], s.due))
    && (forall l :: 0 < l < |s.rows| ==> SubRow(s.rows[l - 1], s.rows[l]))
    && Sorted(s.Bottom(), s.due)
  }

  /** A listed timer's timeout is its deadline, less than half a turn away and at most three ticks overdue. */
  predicate TimerOk(s: State, t: nat) {
    && t in s.timers && t in s.due && s.timers[t].active && s.timers[t].timeout == s.due[t] % WRAP
    && s.due[t] < s.now + HALF && s.now <= s.due[t] + 3
  }

  /** The invariant; timer x may be active without being listed (its callback is running). */
  ghost predicate InvBut(s: State, x: set<nat>) {
    && RowsOk(s) && s.tick == s.now % WRAP
    && (forall t :: t in s.Bottom() ==> TimerOk(s, t))
    && (forall t :: t in s.timers && s.timers[t].active && t !in x ==> t in s.Bottom())
  }

  ghost predicate Inv(s: State) { InvBut(s, {}) }

  // ---------------------------------------------------------------- the operations

  function RemoveAll(rows: seq<seq<nat>>, t: nat): (r: seq<seq<nat>>)
    ensures |r| == |rows|
  {
    seq(|rows|, l requires 0 <= l < |rows| => Purge(rows[l], t))
  }

  predicate AllKnown(rows: seq<seq<nat>>, due: map<nat, nat>) { forall l :: 0 <= l < |rows| ==> Known(rows[l], due) }

  /** Insert t into the h lowest rows. */
  function InsertLow(rows: seq<seq<nat>>, t: nat, due: map<nat, nat>, h: nat): (r: seq<seq<nat>>)
    requires AllKnown(rows, due) && t in due
    ensures |r| == |rows|
  {
    seq(|rows|, l requires 0 <= l < |rows| => if l + h >= |rows| then Insert(rows[l], t, due) else rows[l])
  }

  /** How many of `left` more rows the start counter lets a timer into. */
  function Extra(nr: nat, left: nat): (h: nat)
    ensures h <= left
  {
    if left == 0 || nr % FAN != 0 then 0 else 1 + Extra(nr / FAN, left - 1)
  }

  function Unlink(s: State, t: nat): State { s.(rows := RemoveAll(s.rows, t)) }

  lemma UnlinkKnown(s: State, t: nat)
    requires AllKnown(s.rows, s.due)
    ensures AllKnown(RemoveAll(s.rows, t), s.due)
  {
    forall l | 0 <= l < |s.rows| ensures Known(RemoveAll(s.rows, t)[l], s.due) { RemoveKeeps(s.rows[l], t, s.due); }
  }

  /** rt_timer_start */
  function Start(s: State, t: nat): State
    requires s.rows != [] && AllKnown(s.rows, s.due) && t in s.timers
  {
    UnlinkKnown(s, t);
    var due, nr := s.due[t := s.now + s.timers[t].init], (s.random + 1) % WRAP;
    assert AllKnown(RemoveAll(s.rows, t), due);
    s.(rows := InsertLow(RemoveAll(s.rows, t), t, due, 1 + Extra(nr, |s.rows| - 1)), due := due, random := nr,
       timers := s.timers[t := s.timers[t].(active := true, timeout := (s.tick + s.timers[t].init) % WRAP)])
  }

  /** rt_timer_stop, which refuses timers that are not active */
  function Stop(s: State, t: nat): (State, bool)
    requires t in s.timers
  {
    if !s.timers[t].active then (s, false)
    else (Unlink(s, t).(timers := s.timers[t := s.timers[t].(active := false)]), true)
  }

  /** What a callback does to the timers: it stops some of them. */
  function StopAll(s: State, ts: seq<nat>): (r: State)
    decreases |ts|
    ensures r.timers.Keys == s.timers.Keys && r.now == s.now && r.tick == s.tick && r.due == s.due
  {
    if ts == [] then s else StopAll(if ts[0] in s.timers then Stop(s, ts[0]).0 else s, ts[1..])
  }

  function Stops(cb: map<nat, seq<nat>>, t: nat): seq<nat> { if t in cb then cb[t] else [] }

  /** No callback stops t. */
  predicate NoStop(cb: map<nat, seq<nat>>, t: nat) { forall u :: u in cb ==> t !in cb[u] }

  /** Every timer can be started, and periodic ones have a period. */
  predicate Ready(s: State) {
    forall t :: t in s.timers ==> s.timers[t].init < HALF && (s.timers[t].periodic ==> s.timers[t].init > 0)
  }

  // ---------------------------------------------------------------- starting and stopping keep the invariant

  lemma UnlinkKeeps(s: State, t: nat)
    requires RowsOk(s)
    ensures RowsOk(Unlink(s, t)) && forall u :: u in Unlink(s, t).Bottom() <==> u in s.Bottom() && u != t
    ensures forall l :: 0 <= l < |s.rows| ==> t !in Unlink(s, t).rows[l]
  {
    var r := Unlink(s, t);
    forall l | 0 <= l < |s.rows| ensures Distinct(r.rows[l]) && Known(r.rows[l], s.due) { RemoveKeeps(s.rows[l], t, s.due); }
    forall l | 0 < l < |s.rows| ensures SubRow(r.rows[l - 1], r.rows[l]) { RemoveBoth(s.rows[l - 1], s.rows[l], t); }
    RemoveKeeps(s.Bottom(), t, s.due);
  }

  /** Changing the deadline of a timer that is in no row. */
  lemma Rescheduled(s: State, t: nat, d: nat)
    requires RowsOk(s) && forall l :: 0 <= l < |s.rows| ==> t !in s.rows[l]
    ensures RowsOk(s.(due := s.due[t := d]))
  {
  }

  lemma InsertKnown(q: seq<nat>, t: nat, due: map<nat, nat>)
    requires Known(q, due) && t in due
    ensures Known(Insert(q, t, due), due)
  {
  }

  lemma InsertKeeps(s: State, t: nat, h: nat)
    requires RowsOk(s) && t in s.due && 0 < h && forall l :: 0 <= l < |s.rows| ==> t !in s.rows[l]
    ensures RowsOk(s.(rows := InsertLow(s.rows, t, s.due, h)))
    ensures forall u :: u in s.(rows := InsertLow(s.rows, t, s.due, h)).Bottom() <==> u in s.Bottom() || u == t
  {
    hide Sorted, Distinct, SubRow, Known, Insert;
    var r, n := s.(rows := InsertLow(s.rows, t, s.due, h)), |s.rows|;
    forall l | 0 <= l < n ensures Distinct(r.rows[l]) && Known(r.rows[l], s.due) {
      if l + h >= n { InsertDistinct(s.rows[l], t, s.due); InsertKnown(s.rows[l], t, s.due); }
    }
    forall l | 0 < l < n ensures SubRow(r.rows[l - 1], r.rows[l]) {
      RowSorted(s, l);
      if l - 1 + h >= n { InsertBoth(s.rows[l - 1], s.rows[l], t, s.due); }
      else if l + h >= n { InsertBelow(s.rows[l - 1], s.rows[l], t, s.due); }
    }
    InsertSorted(s.Bottom(), t, s.due);
  }

  lemma {:induction false} SubRowSorted(a: seq<nat>, b: seq<nat>, due: map<nat, nat>)
    requires SubRow(a, b) && Known(a, due) && Known(b, due) && Sorted(b, due)
    ensures Sorted(a, due)
  {
    if a != [] {
      SortedTail(b, due);
      if a[0] == b[0] {
        SubRowMembers(a[1..], b[1..]);
        SubRowSorted(a[1..], b[1..], due);
        assert a == [a[0]] + a[1..];
        SortedCons(a[0], a[1..], due);
      } else {
        SubRowSorted(a, b[1..], due);
      }
    }
  }

  /** Every row is sorted, as a sublist of the full one. */
  lemma {:induction false} RowSorted(s: State, l: nat)
    requires RowsOk(s) && l < |s.rows|
    ensures Sorted(s.rows[l], s.due)
    decreases |s.rows| - l
  {
    if l < |s.rows| - 1 {
      RowSorted(s, l + 1);
      SubRowSorted(s.rows[l], s.rows[l + 1], s.due);
    }
  }

  lemma StartRows(s: State, t: nat)
    requires RowsOk(s) && t in s.timers
    ensures RowsOk(Start(s, t)) && forall u :: u in Start(s, t).Bottom() <==> u in s.Bottom() || u == t
    ensures Known(Purge(s.Bottom(), t), Start(s, t).due)
    ensures Start(s, t).Bottom() == Insert(Purge(s.Bottom(), t), t, Start(s, t).due)
  {
    hide RowsOk, Insert, Purge, InsertLow, RemoveAll, Extra, Known;
    StartForm(s, t);
    var u, d, h := Unlink(s, t), s.now + s.timers[t].init, 1 + Extra((s.random + 1) % WRAP, |s.rows| - 1);
    UnlinkKeeps(s, t);
    Rescheduled(u, t, d);
    InsertKeeps(u.(due := u.due[t := d]), t, h);
    SameRows(u.(due := u.due[t := d], rows := InsertLow(u.rows, t, u.due[t := d], h)), Start(s, t));
  }

  lemma StartForm(s: State, t: nat)
    requires RowsOk(s) && t in s.timers
    ensures AllKnown(s.rows, s.due)
    ensures var d := s.due[t := s.now + s.timers[t].init];
      && AllKnown(Unlink(s, t).rows, d) && Start(s, t).due == d && |Start(s, t).rows| == |s.rows| > 0
      && Start(s, t).rows == InsertLow(Unlink(s, t).rows, t, d, 1 + Extra((s.random + 1) % WRAP, |s.rows| - 1))
      && Known(Purge(s.Bottom(), t), d) && Start(s, t).Bottom() == Insert(Purge(s.Bottom(), t), t, d)
  {
    hide Insert, Purge, Extra, SubRow, Sorted, Distinct;
    UnlinkKeeps(s, t);
    UnlinkKnown(s, t);
  }

  lemma SameRows(s: State, r: State)
    requires RowsOk(s) && r.rows == s.rows && r.due == s.due
    ensures RowsOk(r)
  {
  }

  /** rt_timer_start: the rows stay sorted sublists of each other, the full row gets the timer behind everything
      due no later, and its timeout is its deadline. */
  lemma StartKeeps(s: State, t: nat, x: set<nat>)
    requires InvBut(s, x) && t in s.timers && s.timers[t].init < HALF
    ensures InvBut(Start(s, t), x - {t}) && Start(s, t).due == s.due[t := s.now + s.timers[t].init]
    ensures var r := Start(s, t);
      && (r.now, r.tick) == (s.now, s.tick)
      && r.timers == s.timers[t := Timer(s.timers[t].init, s.timers[t].periodic, true, r.due[t] % WRAP)]
    ensures Known(Purge(s.Bottom(), t), Start(s, t).due)
    ensures Start(s, t).Bottom() == Insert(Purge(s.Bottom(), t), t, Start(s, t).due)
  {
    StartRows(s, t);
    StartForm(s, t);
    hide RowsOk, InsertLow, RemoveAll, Insert, Extra;
    var r := Start(s, t);
    TickSum(s.now, s.timers[t].init);
    forall v | v in r.Bottom() ensures TimerOk(r, v) { if v != t { assert TimerOk(s, v); } }
  }

  lemma TickSum(now: nat, k: nat)
    ensures (now % WRAP + k) % WRAP == (now + k) % WRAP
  {
  }

  lemma StopKeeps(s: State, t: nat, x: set<nat>)
    requires InvBut(s, x) && t in s.timers
    ensures InvBut(Stop(s, t).0, x) && (s.timers[t].active ==> InvBut(Stop(s, t).0, x - {t}))
    ensures Stop(s, t).0.rows != [] && forall u :: u in Stop(s, t).0.Bottom() ==> u in s.Bottom()
    ensures forall u :: u != t && u in s.Bottom() ==> u in Stop(s, t).0.Bottom()
    ensures s.timers[t].active ==> Stop(s, t).0.Bottom() == Purge(s.Bottom(), t)
    ensures Stop(s, t).1 == s.timers[t].active && (!s.timers[t].active ==> Stop(s, t).0 == s)
    ensures var r := Stop(s, t).0; r.timers == s.timers[t := s.timers[t].(active := false)] && (r.now, r.tick, r.due) == (s.now, s.tick, s.due)
    ensures forall l :: 0 <= l < |Stop(s, t).0.rows| && s.timers[t].active ==> t !in Stop(s, t).0.rows[l]
  {
    hide SubRow, Sorted, Distinct, Purge;
    UnlinkKeeps(s, t);
    var r := Stop(s, t).0;
    forall v | v in r.Bottom() ensures TimerOk(r, v) { assert TimerOk(s, v); }
  }

  // ---------------------------------------------------------------- rt_timer_check

  /** The timers at the head of a row that are due. */
  function DuePrefix(q: seq<nat>, due: map<nat, nat>, now: nat): seq<nat>
    requires Known(q, due)
  {
    if q == [] || due[q[0]] > now then [] else [q[0]] + DuePrefix(q[1..], due, now)
  }

  ghost function Pending(s: State): seq<nat>
    requires RowsOk(s)
  {
    DuePrefix(s.Bottom(), s.due, s.now)
  }

  lemma {:induction false} DueMembers(q: seq<nat>, due: map<nat, nat>, now: nat)
    requires Known(q, due) && Sorted(q, due)
    ensures forall t :: t in DuePrefix(q, due, now) <==> t in q && due[t] <= now
  {
    if q != [] {
      SortedTail(q, due);
      DueMembers(q[1..], due, now);
      assert q == [q[0]] + q[1..];
    }
  }

  /** Taking a timer out of the row takes at most that timer out of the due ones. */
  lemma {:induction false} DueRemove(q: seq<nat>, t: nat, due: map<nat, nat>, now: nat)
    requires Known(q, due) && Sorted(q, due)
    ensures Known(Purge(q, t), due) && DuePrefix(Purge(q, t), due, now) == Purge(DuePrefix(q, due, now), t)
  {
    if q != [] {
      SortedTail(q, due);
      DueRemove(q[1..], t, due, now);
      RemoveKeeps(q, t, due);
      if due[q[0]] > now {
        NothingDue(Purge(q, t), due, now, q);
      } else {
        assert DuePrefix(q, due, now)[1..] == DuePrefix(q[1..], due, now);
        if q[0] != t { assert Purge(q, t)[1..] == Purge(q[1..], t); }
      }
    }
  }

  lemma NothingDue(a: seq<nat>, due: map<nat, nat>, now: nat, q: seq<nat>)
    requires Known(a, due) && Known(q, due) && (forall x :: x in a ==> x in q) && (forall x :: x in q ==> due[x] > now)
    ensures DuePrefix(a, due, now) == []
  {
    if a != [] { assert a[0] in a; }
  }

  /** A timer that is not due yet can be put in without changing the due ones. */
  lemma {:induction false} DueInsert(q: seq<nat>, t: nat, due: map<nat, nat>, now: nat)
    requires Known(q, due) && t in due && Sorted(q, due) && due[t] > now
    ensures Known(Insert(q, t, due), due) && DuePrefix(Insert(q, t, due), due, now) == DuePrefix(q, due, now)
  {
    if q != [] && due[q[0]] <= due[t] {
      SortedTail(q, due);
      DueInsert(q[1..], t, due, now);
      assert Insert(q, t, due)[1..] == Insert(q[1..], t, due);
    } else if q != [] {
      assert Insert(q, t, due)[1..] == q;
      SortedTail(q, due);
    }
  }

  /** A timer that is due right now goes behind everything that is due. */
  lemma {:induction false} DueInsertNow(q: seq<nat>, t: nat, due: map<nat, nat>, now: nat)
    requires Known(q, due) && t in due && Sorted(q, due) && due[t] == now
    ensures Known(Insert(q, t, due), due) && DuePrefix(Insert(q, t, due), due, now) == DuePrefix(q, due, now) + [t]
  {
    if q == [] {
      assert Insert(q, t, due) == [t] && [t][1..] == [];
    } else {
      SortedTail(q, due);
      if due[q[0]] <= now {
        DueInsertNow(q[1..], t, due, now);
        assert Insert(q, t, due)[1..] == Insert(q[1..], t, due);
      } else {
        assert Insert(q, t, due)[1..] == q;
      }
    }
  }

  lemma {:induction false} DueChanged(q: seq<nat>, due: map<nat, nat>, due': map<nat, nat>, now: nat)
    requires Known(q, due) && Known(q, due') && forall x :: x in q ==> due[x] == due'[x]
    ensures DuePrefix(q, due, now) == DuePrefix(q, due', now)
  {
    if q != [] { DueChanged(q[1..], due, due', now); }
  }

  /** One round of rt_timer_check: unlink the first timer, call it back, restart it if it is periodic. */
  function FireFirst(s: State, cb: map<nat, seq<nat>>): State
    requires s.rows != [] && s.Bottom() != [] && s.Bottom()[0] in s.timers && AllKnown(s.rows, s.due)
  {
    var t := s.Bottom()[0];
    UnlinkKnown(s, t);
    StopAllKnown(Unlink(s, t), Stops(cb, t));
    Rearm(StopAll(Unlink(s, t), Stops(cb, t)), t)
  }

  lemma {:induction false} StopAllKnown(s: State, ts: seq<nat>)
    requires AllKnown(s.rows, s.due)
    ensures AllKnown(StopAll(s, ts).rows, s.due) && |StopAll(s, ts).rows| == |s.rows|
    decreases |ts|
  {
    if ts != [] {
      UnlinkKnown(s, ts[0]);
      StopAllKnown(if ts[0] in s.timers then Stop(s, ts[0]).0 else s, ts[1..]);
    }
  }

  /** Same timers, but for what is stopped. */
  ghost predicate OnlyStopped(s: State, r: State) {
    && r.timers.Keys == s.timers.Keys && r.now == s.now && r.tick == s.tick && r.due == s.due && |r.rows| == |s.rows|
    && (forall t :: t in s.timers ==> r.timers[t] == s.timers[t] || r.timers[t] == s.timers[t].(active := false))
  }

  lemma {:induction false} StopAllKeeps(s: State, ts: seq<nat>, x: set<nat>)
    requires InvBut(s, x)
    ensures InvBut(StopAll(s, ts), x) && OnlyStopped(s, StopAll(s, ts))
    ensures forall u :: u in StopAll(s, ts).Bottom() ==> u in s.Bottom()
    ensures |Pending(StopAll(s, ts))| <= |Pending(s)| && SubRow(Pending(StopAll(s, ts)), Pending(s))
    ensures forall u :: u !in ts ==> (u in StopAll(s, ts).Bottom() <==> u in s.Bottom())
    ensures forall u :: u !in ts && u in s.timers ==> StopAll(s, ts).timers[u] == s.timers[u]
    decreases |ts|
  {
    if ts == [] {
      SubRowRefl(Pending(s));
    } else {
      var u := ts[0];
      var s1 := if u in s.timers then Stop(s, u).0 else s;
      if u in s.timers {
        StopKeeps(s, u, x);
        StopPending(s, u);
      }
      StopAllKeeps(s1, ts[1..], x);
      if u !in s.timers || !s.timers[u].active { assert s1 == s; }
      else { SubRowTrans(Pending(StopAll(s, ts)), Pending(s1), Pending(s)); }
    }
  }

  lemma StopPending(s: State, u: nat)
    requires RowsOk(s) && u in s.timers && RowsOk(Stop(s, u).0)
    ensures |Pending(Stop(s, u).0)| <= |Pending(s)| && SubRow(Pending(Stop(s, u).0), Pending(s))
  {
    SubRowRefl(Pending(s));
    if s.timers[u].active {
      DueRemove(s.Bottom(), u, s.due, s.now);
      RemoveIsSub(Pending(s), u);
    }
  }

  lemma {:induction false} RemoveIsSub(q: seq<nat>, t: nat)
    ensures SubRow(Purge(q, t), q) && |Purge(q, t)| <= |q|
  {
    if q != [] {
      RemoveIsSub(q[1..], t);
      if q[0] != t { assert Purge(q, t)[1..] == Purge(q[1..], t); } else { SubRowSkip(Purge(q, t), q); }
    }
  }

  lemma {:induction false} SubRowRefl(q: seq<nat>)
    ensures SubRow(q, q)
  {
    if q != [] { SubRowRefl(q[1..]); }
  }

  lemma {:induction false} SubRowTrans(a: seq<nat>, b: seq<nat>, c: seq<nat>)
    requires SubRow(a, b) && SubRow(b, c)
    ensures SubRow(a, c)
    decreases |c|
  {
    if a != [] && b != [] {
      if b[0] == c[0] {
        if a[0] == b[0] { SubRowTrans(a[1..], b[1..], c[1..]); } else { SubRowTrans(a, b[1..], c[1..]); }
      } else {
        SubRowTrans(a, b, c[1..]);
        SubRowSkip(a, c);
      }
    }
  }

  /** One round: the first due timer goes, what is left to do shrinks, and a periodic timer that was not stopped is
      back with its next deadline. */
  lemma FireFirstKeeps(s: State, cb: map<nat, seq<nat>>)
    requires Inv(s) && Ready(s) && s.Bottom() != [] && s.due[s.Bottom()[0]] <= s.now
    ensures s.Bottom()[0] in s.timers && AllKnown(s.rows, s.due)
    ensures var r := FireFirst(s, cb);
      && Inv(r) && Ready(r) && r.now == s.now && r.timers.Keys == s.timers.Keys
      && |Pending(r)| < |Pending(s)| && SubRow(Pending(r), Pending(s)[1..])
      && OthersKept(s, r, s.Bottom()[0], cb)
  {
    var t := s.Bottom()[0];
    assert TimerOk(s, t);
    var u := Unlink(s, t);
    UnlinkKeeps(s, t);
    assert InvBut(u, {t}) by { forall v | v in u.Bottom() ensures TimerOk(u, v) { assert TimerOk(s, v); } }
    FirstPending(s);
    StopAllKeeps(u, Stops(cb, t), {t});
    FireRest(s, cb, StopAll(u, Stops(cb, t)));
  }

  lemma FirstPending(s: State)
    requires RowsOk(s) && s.Bottom() != [] && s.due[s.Bottom()[0]] <= s.now && RowsOk(Unlink(s, s.Bottom()[0]))
    ensures Pending(s) != [] && Pending(s)[0] == s.Bottom()[0] && Pending(Unlink(s, s.Bottom()[0])) == Pending(s)[1..]
  {
    var q, t := s.Bottom(), s.Bottom()[0];
    DueMembersDistinct(q, s.due, s.now);
    DueRemove(q, t, s.due, s.now);
    PurgeAbsent(Pending(s)[1..], t);
  }

  lemma DueMembersDistinct(q: seq<nat>, due: map<nat, nat>, now: nat)
    requires Known(q, due) && Sorted(q, due) && Distinct(q) && q != [] && due[q[0]] <= now
    ensures q[0] !in DuePrefix(q, due, now)[1..]
  {
    SortedTail(q, due);
    DueMembers(q[1..], due, now);
    assert DuePrefix(q, due, now)[1..] == DuePrefix(q[1..], due, now);
    assert q[0] !in q[1..];
  }

  /** What a round does to the timers. */
  ghost predicate OthersKept(s: State, r: State, t: nat, cb: map<nat, seq<nat>>)
    requires s.rows != [] && r.rows != [] && t in s.timers
  {
    && (forall v :: v != t && v in r.Bottom() ==> v in s.Bottom() && v in s.due && v in r.due && r.due[v] == s.due[v])
    && (forall v :: v != t && v in s.Bottom() && NoStop(cb, v) ==> v in r.Bottom())
    && (forall v :: v in s.timers && v in r.timers ==>
          r.timers[v].init == s.timers[v].init && r.timers[v].periodic == s.timers[v].periodic)
    && (t in r.Bottom() ==> s.timers[t].periodic && t in r.due && r.due[t] == s.now + s.timers[t].init)
    && (s.timers[t].periodic && NoStop(cb, t) ==> t in r.Bottom())
  }

  lemma FireRest(s: State, cb: map<nat, seq<nat>>, s2: State)
    requires Inv(s) && Ready(s) && s.Bottom() != [] && s.due[s.Bottom()[0]] <= s.now
    requires RowsOk(Unlink(s, s.Bottom()[0])) && s2 == StopAll(Unlink(s, s.Bottom()[0]), Stops(cb, s.Bottom()[0]))
    requires InvBut(s2, {s.Bottom()[0]}) && OnlyStopped(s, s2) && Pending(s) != []
    requires |Pending(s2)| < |Pending(s)| && SubRow(Pending(s2), Pending(s)[1..])
    requires forall v :: v in s2.Bottom() ==> v in s.Bottom() && v != s.Bottom()[0]
    requires forall v :: v !in Stops(cb, s.Bottom()[0]) && v != s.Bottom()[0] ==> (v in s2.Bottom() <==> v in s.Bottom())
    requires forall v :: v !in Stops(cb, s.Bottom()[0]) && v in s.timers ==> s2.timers[v] == s.timers[v]
    ensures s.Bottom()[0] in s.timers && AllKnown(s.rows, s.due)
    ensures var r := FireFirst(s, cb);
      && Inv(r) && Ready(r) && r.now == s.now && r.timers.Keys == s.timers.Keys
      && |Pending(r)| < |Pending(s)| && SubRow(Pending(r), Pending(s)[1..])
      && OthersKept(s, r, s.Bottom()[0], cb)
  {
    var t := s.Bottom()[0];
    assert TimerOk(s, t);
    RowsKnown(s);
    hide RowsOk, StopAll, Rearm, Pending, SubRow, Unlink, TimerOk, Stops, NoStop, OthersKept, Ready, InvBut;
    ReadyStays(s, s2);
    assert t in s2.timers && s2.timers[t].init == s.timers[t].init && s2.timers[t].periodic == s.timers[t].periodic;
    ReadyTimer(s2, t);
    RearmedLater(s2, t);
    RowsKnownBut(s2, {t});
    ReadyStays(s2, Rearm(s2, t));
    KeptThrough(s, s2, Rearm(s2, t), t, cb);
  }

  lemma ReadyTimer(s: State, t: nat)
    requires Ready(s) && t in s.timers
    ensures s.timers[t].init < HALF && (s.timers[t].periodic ==> s.timers[t].init > 0)
  {
  }

  lemma ReadyStays(s: State, r: State)
    requires Ready(s) && r.timers.Keys == s.timers.Keys
    requires forall v :: v in s.timers ==> r.timers[v].init == s.timers[v].init && r.timers[v].periodic == s.timers[v].periodic
    ensures Ready(r)
  {
  }

  lemma RowsKnownBut(s: State, x: set<nat>)
    requires InvBut(s, x)
    ensures RowsOk(s) && s.rows != [] && Known(s.Bottom(), s.due)
  {
  }

  lemma KeptThrough(s: State, s2: State, r: State, t: nat, cb: map<nat, seq<nat>>)
    requires s.rows != [] && s2.rows != [] && r.rows != [] && t in s.timers && OnlyStopped(s, s2)
    requires r.timers.Keys == s2.timers.Keys && Known(s.Bottom(), s.due)
    requires forall v :: v in s2.Bottom() ==> v in s.Bottom() && v != t
    requires forall v :: v !in Stops(cb, t) && v != t ==> (v in s2.Bottom() <==> v in s.Bottom())
    requires forall v :: v !in Stops(cb, t) && v in s.timers ==> s2.timers[v] == s.timers[v]
    requires forall v :: v in r.Bottom() <==> v in s2.Bottom() || (v == t && s2.timers[t].periodic && s2.timers[t].active)
    requires forall v :: v in s2.due && v != t ==> v in r.due && r.due[v] == s2.due[v]
    requires forall v :: v in s2.timers ==> r.timers[v].init == s2.timers[v].init && r.timers[v].periodic == s2.timers[v].periodic
    requires t in r.Bottom() ==> t in r.due && r.due[t] == s2.now + s2.timers[t].init
    requires s.timers[t].active
    ensures OthersKept(s, r, t, cb)
  {
    forall v | NoStop(cb, v) ensures v !in Stops(cb, t) {}
  }

  lemma RowsKnown(s: State)
    requires RowsOk(s)
    ensures s.rows != [] && AllKnown(s.rows, s.due) && Known(s.Bottom(), s.due)
  {
  }

  /** A timer whose callback has returned: restarted if it is periodic and was not stopped. */
  function Rearm(s: State, t: nat): State
    requires s.rows != [] && AllKnown(s.rows, s.due) && t in s.timers
  {
    var tm := s.timers[t];
    var s3 := s.(timers := s.timers[t := tm.(active := false)]);
    if tm.periodic && tm.active then Start(s3, t) else s3
  }

  lemma Rearmed(s: State, t: nat)
    requires InvBut(s, {t}) && t !in s.Bottom() && t in s.timers && s.timers[t].init < HALF
    ensures AllKnown(s.rows, s.due)
    ensures var r := Rearm(s, t);
      && Inv(r) && r.now == s.now && r.timers.Keys == s.timers.Keys
      && Pending(r) == Pending(s) + (if s.timers[t].periodic && s.timers[t].active && s.timers[t].init == 0 then [t] else [])
      && (forall v :: v in r.Bottom() <==> v in s.Bottom() || (v == t && s.timers[t].periodic && s.timers[t].active))
      && (forall v :: v in s.due && v != t ==> v in r.due && r.due[v] == s.due[v])
      && (forall v :: v in s.timers ==> r.timers[v].init == s.timers[v].init && r.timers[v].periodic == s.timers[v].periodic)
      && (t in r.Bottom() ==> t in r.due && r.due[t] == s.now + s.timers[t].init)
  {
    hide SubRow, Sorted, Distinct, Purge, DuePrefix;
    var tm := s.timers[t];
    var s3 := s.(timers := s.timers[t := tm.(active := false)]);
    assert InvBut(s3, {}) by { forall v | v in s3.Bottom() ensures TimerOk(s3, v) { assert TimerOk(s, v); } }
    if tm.periodic && tm.active {
      StartKeeps(s3, t, {});
      StartRows(s3, t);
      RestartPending(s3, t);
    }
  }

  lemma RearmedLater(s: State, t: nat)
    requires InvBut(s, {t}) && t !in s.Bottom() && t in s.timers && s.timers[t].init < HALF
    requires s.timers[t].periodic ==> s.timers[t].init > 0
    ensures AllKnown(s.rows, s.due)
    ensures var r := Rearm(s, t);
      && Inv(r) && r.now == s.now && r.timers.Keys == s.timers.Keys && Pending(r) == Pending(s)
      && (forall v :: v in r.Bottom() <==> v in s.Bottom() || (v == t && s.timers[t].periodic && s.timers[t].active))
      && (forall v :: v in s.due && v != t ==> v in r.due && r.due[v] == s.due[v])
      && (forall v :: v in s.timers ==> r.timers[v].init == s.timers[v].init && r.timers[v].periodic == s.timers[v].periodic)
      && (t in r.Bottom() ==> t in r.due && r.due[t] == s.now + s.timers[t].init)
  {
    Rearmed(s, t);
    hide Rearm, InvBut, Pending, RowsOk;
  }

  /** A timer that is started is due at once only if its period is 0, and then behind all others that are due. */
  lemma RestartPending(s: State, t: nat)
    requires Inv(s) && t in s.timers && t !in s.Bottom() && RowsOk(Start(s, t))
    ensures Pending(Start(s, t)) == Pending(s) + (if s.timers[t].init == 0 then [t] else [])
  {
    hide SubRow, Distinct;
    StartForm(s, t);
    PurgeAbsent(s.Bottom(), t);
    var r := Start(s, t);
    DueChanged(s.Bottom(), s.due, r.due, s.now);
    if s.timers[t].init == 0 { DueInsertNow(s.Bottom(), t, r.due, s.now); } else { DueInsert(s.Bottom(), t, r.due, s.now); }
  }

  /** The loop test of rt_timer_check. */
  predicate HeadDue(s: State)
    requires s.rows != []
  {
    s.Bottom() != [] && s.Bottom()[0] in s.timers && Reached(s.tick, s.timers[s.Bottom()[0]].timeout)
  }

  /** The wrapped test tells the truth. */
  lemma HeadDueIs(s: State)
    requires Inv(s)
    ensures HeadDue(s) <==> s.Bottom() != [] && s.due[s.Bottom()[0]] <= s.now
    ensures HeadDue(s) <==> Pending(s) != []
  {
    if s.Bottom() != [] {
      var t := s.Bottom()[0];
      assert TimerOk(s, t);
      ReachedExactly(s.now, s.due[t]);
    }
  }

  /** rt_timer_check, with the timers it fired in order.  It ends because the number of due timers falls. */
  ghost function Check(s: State, cb: map<nat, seq<nat>>): (State, seq<nat>)
    requires Inv(s) && Ready(s)
    decreases |Pending(s)|
  {
    if !HeadDue(s) then (s, [])
    else
      HeadDueIs(s);
      FireFirstKeeps(s, cb);
      var (r, f) := Check(FireFirst(s, cb), cb);
      (r, [s.Bottom()[0]] + f)
  }

  /** What a completed check promises: nothing listed is due; what fired was due, in deadline order, each timer
      once; a due timer nobody stops fires, and is set to its next deadline if it is periodic; all others keep
      theirs. */
  ghost predicate Checked(s: State, r: State, f: seq<nat>, cb: map<nat, seq<nat>>)
    requires Inv(s)
  {
    && Inv(r) && Ready(r) && r.now == s.now && r.timers.Keys == s.timers.Keys
    && (forall t :: t in r.Bottom() ==> t in s.Bottom() && r.due[t] > r.now)
    && SubRow(f, Pending(s))
    && (forall t :: t in Pending(s) && NoStop(cb, t) ==> t in f)
    && (forall t :: t in f && NoStop(cb, t) ==> Rearranged(s, r, t))
    && (forall t :: t in s.Bottom() && t !in Pending(s) && NoStop(cb, t) ==> t in r.Bottom() && r.due[t] == s.due[t])
    && SameSettings(s, r)
  }

  predicate SameSettings(s: State, r: State) {
    forall v :: v in s.timers && v in r.timers ==>
      r.timers[v].init == s.timers[v].init && r.timers[v].periodic == s.timers[v].periodic
  }

  /** A periodic timer that fired is listed again, one period on; a one-shot timer is not. */
  predicate Rearranged(s: State, r: State, t: nat)
    requires r.rows != []
  {
    && t in s.timers
    && (t in r.Bottom() <==> s.timers[t].periodic)
    && (t in r.Bottom() ==> t in r.due && r.due[t] == s.now + s.timers[t].init)
  }

  lemma {:induction false} CheckPromise(s: State, cb: map<nat, seq<nat>>)
    requires Inv(s) && Ready(s)
    ensures Checked(s, Check(s, cb).0, Check(s, cb).1, cb)
    decreases |Pending(s)|
  {
    HeadDueIs(s);
    DueMembers(s.Bottom(), s.due, s.now);
    if HeadDue(s) {
      FireFirstKeeps(s, cb);
      var m := FireFirst(s, cb);
      CheckPromise(m, cb);
      CheckedAfter(s, m, Check(m, cb).0, Check(m, cb).1, cb);
    } else if s.Bottom() != [] {
      SortedTail(s.Bottom(), s.due);
    }
  }

  lemma CheckedAfter(s: State, m: State, r: State, f: seq<nat>, cb: map<nat, seq<nat>>)
    requires Inv(s) && s.Bottom() != [] && s.due[s.Bottom()[0]] <= s.now && s.Bottom()[0] in s.timers
    requires Inv(m) && m.now == s.now && m.timers.Keys == s.timers.Keys && Pending(s) != []
    requires Ready(s) && SubRow(Pending(m), Pending(s)[1..]) && OthersKept(s, m, s.Bottom()[0], cb) && Checked(m, r, f, cb)
    ensures Checked(s, r, [s.Bottom()[0]] + f, cb)
  {
    var t, g := s.Bottom()[0], [s.Bottom()[0]] + f;
    PendingIs(s);
    PendingIs(m);
    assert g[1..] == f && Pending(s)[0] == t;
    SubRowTrans(f, Pending(m), Pending(s)[1..]);
    SubRowMembers(f, Pending(m));
    RowsThere(s);
    RowsThere(m);
    RowsThere(r);
    hide RowsOk, SubRow, Pending, NoStop, InvBut, Ready, OthersKept, Checked, Rearranged;
    AllFire(s, m, r, f, cb);
    FirstAgain(s, m, r, f, cb);
    RestAgain(s, m, r, f, cb);
    BottomKept(s, m, r, f, cb);
    assert Checked(s, r, g, cb) by { Assemble(s, r, g, cb); }
  }

  lemma BottomKept(s: State, m: State, r: State, f: seq<nat>, cb: map<nat, seq<nat>>)
    requires Inv(s) && s.Bottom() != [] && s.Bottom()[0] in s.timers && Inv(m) && m.now == s.now
    requires m.timers.Keys == s.timers.Keys && OthersKept(s, m, s.Bottom()[0], cb) && Checked(m, r, f, cb)
    ensures Inv(r) && Ready(r) && r.now == s.now && r.timers.Keys == s.timers.Keys
    ensures forall u :: u in m.Bottom() ==> u in s.Bottom()
  {
    assert s.Bottom()[0] in s.Bottom();
  }

  lemma Assemble(s: State, r: State, g: seq<nat>, cb: map<nat, seq<nat>>)
    requires Inv(s) && Inv(r) && Ready(r) && r.now == s.now && r.timers.Keys == s.timers.Keys && SameSettings(s, r)
    requires forall t :: t in s.Bottom() ==> t in s.due
    requires forall t :: t in r.Bottom() ==> t in s.Bottom() && t in r.due && r.due[t] > r.now
    requires SubRow(g, Pending(s)) && forall t :: t in Pending(s) && NoStop(cb, t) ==> t in g
    requires forall t :: t in g && NoStop(cb, t) ==> Rearranged(s, r, t)
    requires forall t :: t in s.Bottom() && t !in Pending(s) && NoStop(cb, t) ==>
               t in r.Bottom() && t in r.due && r.due[t] == s.due[t]
    ensures Checked(s, r, g, cb)
  {
  }

  lemma RowsThere(s: State)
    requires Inv(s)
    ensures s.rows != [] && RowsOk(s) && Known(s.Bottom(), s.due)
  {
  }

  lemma AllFire(s: State, m: State, r: State, f: seq<nat>, cb: map<nat, seq<nat>>)
    requires Inv(s) && Inv(m) && m.now == s.now && s.Bottom() != [] && s.Bottom()[0] in s.timers
    requires OthersKept(s, m, s.Bottom()[0], cb) && Checked(m, r, f, cb)
    ensures forall u :: u in Pending(s) && NoStop(cb, u) ==> u in [s.Bottom()[0]] + f
  {
    PendingIs(s);
    PendingIs(m);
    hide RowsOk, SubRow, Pending, NoStop, Ready, Rearranged;
    forall u | u in Pending(s) && NoStop(cb, u) ensures u in [s.Bottom()[0]] + f {
      if u != s.Bottom()[0] { assert u in m.Bottom() && m.due[u] == s.due[u]; }
    }
  }

  /** The timer fired first is not touched by the later rounds. */
  lemma FirstAgain(s: State, m: State, r: State, f: seq<nat>, cb: map<nat, seq<nat>>)
    requires Inv(s) && Ready(s) && Inv(m) && m.now == s.now && s.Bottom() != [] && s.Bottom()[0] in s.timers
    requires OthersKept(s, m, s.Bottom()[0], cb) && Checked(m, r, f, cb)
    ensures NoStop(cb, s.Bottom()[0]) ==> Rearranged(s, r, s.Bottom()[0])
  {
    var t := s.Bottom()[0];
    PendingIs(m);
    hide RowsOk, SubRow, Pending, NoStop, Rearranged;
    if NoStop(cb, t) && t in m.Bottom() {
      assert m.due[t] > m.now;
      assert t in r.Bottom() && r.due[t] == m.due[t];
    }
    RearrangedBy(s, r, t);
  }

  lemma RearrangedBy(s: State, r: State, t: nat)
    requires r.rows != [] && t in s.timers
    ensures (t in r.Bottom() <==> s.timers[t].periodic) && (t in r.Bottom() ==> t in r.due && r.due[t] == s.now + s.timers[t].init)
            <==> Rearranged(s, r, t)
  {
  }

  lemma RestAgain(s: State, m: State, r: State, f: seq<nat>, cb: map<nat, seq<nat>>)
    requires Inv(s) && Inv(m) && m.now == s.now && m.timers.Keys == s.timers.Keys && s.Bottom() != []
    requires s.Bottom()[0] in s.timers && OthersKept(s, m, s.Bottom()[0], cb) && Checked(m, r, f, cb)
    ensures forall u :: u in f && NoStop(cb, u) ==> Rearranged(s, r, u)
    ensures forall u :: u in s.Bottom() && u !in Pending(s) && u != s.Bottom()[0] && NoStop(cb, u) ==>
              u in r.Bottom() && u in r.due && u in s.due && r.due[u] == s.due[u]
    ensures forall u :: u in r.Bottom() ==> u in m.Bottom() && u in r.due && r.due[u] > r.now
    ensures SameSettings(s, r)
  {
    PendingIs(s);
    PendingIs(m);
    hide RowsOk, SubRow, Pending, NoStop, Ready, Rearranged;
    forall u | u in f && NoStop(cb, u) ensures Rearranged(s, r, u) {
      RearrangedBy(m, r, u);
      RearrangedBy(s, r, u);
    }
    forall u | u in s.Bottom() && u !in Pending(s) && u != s.Bottom()[0] && NoStop(cb, u)
      ensures u in r.Bottom() && u in r.due && u in s.due && r.due[u] == s.due[u]
    {
      assert u in m.Bottom() && m.due[u] == s.due[u];
    }
  }

  lemma PendingIs(s: State)
    requires Inv(s)
    ensures forall t :: t in Pending(s) <==> t in s.Bottom() && s.due[t] <= s.now
    ensures forall t :: t in s.Bottom() ==> t in s.due && t in s.timers
    ensures s.Bottom() != [] && s.due[s.Bottom()[0]] <= s.now ==> Pending(s) != [] && Pending(s)[0] == s.Bottom()[0]
  {
    DueMembers(s.Bottom(), s.due, s.now);
    forall t | t in s.Bottom() ensures t in s.due && t in s.timers { assert TimerOk(s, t); }
  }

  // ---------------------------------------------------------------- runs: the check completes at every tick

  datatype Op = DoStart(t: nat) | DoStop(t: nat) | DoTick(cb: map<nat, seq<nat>>)

  function Tick(s: State): State { s.(now := s.now + 1, tick := (s.tick + 1) % WRAP) }

  /** Between ticks nothing is overdue. */
  ghost predicate Prompt(s: State) {
    Inv(s) && Ready(s) && forall t :: t in s.Bottom() ==> s.due[t] >= s.now
  }

  predicate Legal(s: State, o: Op) { o.DoTick? || o.t in s.timers }

  lemma TickKeeps(s: State)
    requires Prompt(s)
    ensures Inv(Tick(s)) && Ready(Tick(s))
  {
    var r := Tick(s);
    TickSum(s.now, 1);
    forall t | t in r.Bottom() ensures TimerOk(r, t) { assert TimerOk(s, t); }
  }

  ghost function Step(s: State, o: Op): (State, seq<nat>)
    requires Prompt(s) && Legal(s, o)
  {
    match o
    case DoStart(t) => (Start(s, t), [])
    case DoStop(t) => (Stop(s, t).0, [])
    case DoTick(cb) => TickKeeps(s); Check(Tick(s), cb)
  }

  lemma StepKeeps(s: State, o: Op)
    requires Prompt(s) && Legal(s, o)
    ensures Prompt(Step(s, o).0) && Step(s, o).0.timers.Keys == s.timers.Keys
  {
    hide RowsOk, Check, Pending, SubRow;
    match o
    case DoStart(t) =>
      RowsThere(s);
      StartKeeps(s, t, {});
      StartRows(s, t);
    case DoStop(t) => StopKeeps(s, t, {});
    case DoTick(cb) =>
      TickKeeps(s);
      CheckPromise(Tick(s), cb);
  }

  /** Nothing is done to t itself. */
  predicate Untouched(o: Op, t: nat) {
    match o
    case DoStart(u) => u != t
    case DoStop(u) => u != t
    case DoTick(cb) => NoStop(cb, t)
  }

  function Ticks(ops: seq<Op>): nat {
    if ops == [] then 0 else (if ops[0].DoTick? then 1 else 0) + Ticks(ops[1..])
  }

  /** ops leads from s to r, and `fired` is everything that fired on the way. */
  ghost predicate Run(s: State, ops: seq<Op>, r: State, fired: set<nat>)
    requires Prompt(s)
    decreases |ops|
  {
    if ops == [] then s == r && fired == {}
    else if !Legal(s, ops[0]) then false
    else
      StepKeeps(s, ops[0]);
      exists more: set<nat> :: Run(Step(s, ops[0]).0, ops[1..], r, more) && fired == more + Elements(Step(s, ops[0]).1)
  }

  /** A waiting timer keeps its deadline and does not fire before it. */
  lemma StepWaits(s: State, o: Op, t: nat)
    requires Prompt(s) && Legal(s, o) && Untouched(o, t) && t in s.Bottom()
    ensures t in s.due && (s.due[t] > s.now + (if o.DoTick? then 1 else 0) ==> Waits(s, Step(s, o).0, t) && t !in Step(s, o).1)
    ensures Step(s, o).0.now == s.now + if o.DoTick? then 1 else 0
    ensures o.DoTick? && s.due[t] == s.now + 1 ==> t in Step(s, o).1 && FiredNow(s, Step(s, o).0, t)
  {
    hide RowsOk, Check, Pending, SubRow, Rearranged;
    assert TimerOk(s, t);
    match o
    case DoStart(u) =>
      RowsThere(s);
      StartKeeps(s, u, {});
      StartRows(s, u);
    case DoStop(u) => StopKeeps(s, u, {});
    case DoTick(cb) =>
      TickKeeps(s);
      CheckPromise(Tick(s), cb);
      PendingIs(Tick(s));
      SubRowMembers(Check(Tick(s), cb).1, Pending(Tick(s)));
      RowsThere(Check(Tick(s), cb).0);
      RearrangedBy(Tick(s), Check(Tick(s), cb).0, t);
  }

  ghost predicate Waits(s: State, r: State, t: nat) {
    r.rows != [] && t in r.Bottom() && t in s.due && t in r.due && r.due[t] == s.due[t]
  }

  /** Timer t has just fired in state r: a periodic one is due again one period on, a one-shot one is gone. */
  ghost predicate FiredNow(s: State, r: State, t: nat) {
    && r.rows != [] && t in s.timers
    && (t in r.Bottom() <==> s.timers[t].periodic)
    && (t in r.Bottom() ==> t in r.due && r.due[t] == r.now + s.timers[t].init)
  }

  /** While fewer ticks pass than are left, a timer that nobody touches waits and does not fire. */
  lemma {:induction false} NeverEarly(s: State, ops: seq<Op>, r: State, fired: set<nat>, t: nat)
    requires Prompt(s) && Run(s, ops, r, fired) && t in s.Bottom()
    requires (forall o :: o in ops ==> Untouched(o, t)) && t in s.due && s.due[t] > s.now + Ticks(ops)
    ensures t !in fired && Prompt(r) && Waits(s, r, t) && r.now == s.now + Ticks(ops)
    decreases |ops|
  {
    if ops != [] {
      hide Prompt, Step, Untouched, Legal;
      StepKeeps(s, ops[0]);
      assert ops[0] in ops;
      StepWaits(s, ops[0], t);
      var s1 := Step(s, ops[0]).0;
      var more: set<nat> :| Run(s1, ops[1..], r, more) && fired == more + Elements(Step(s, ops[0]).1);
      NeverEarly(s1, ops[1..], r, more, t);
    }
  }

  /** A timer started at time S with init_tick k > 0, and neither stopped nor restarted, fires in the check of
      tick S + k and in no earlier one, whatever else happens and wherever the tick count wraps. */
  lemma FiresExactly(s: State, t: nat, ops: seq<Op>, r: State, fired: set<nat>, cb: map<nat, seq<nat>>)
    requires Prompt(s) && t in s.timers && s.timers[t].init > 0
    requires (StepKeeps(s, DoStart(t)); Run(Start(s, t), ops, r, fired))
    requires (forall o :: o in ops ==> Untouched(o, t)) && NoStop(cb, t) && Ticks(ops) == s.timers[t].init - 1
    ensures t !in fired && Prompt(r) && r.now + 1 == s.now + s.timers[t].init
    ensures t in Step(r, DoTick(cb)).1 && FiredNow(r, Step(r, DoTick(cb)).0, t)
  {
    hide RowsOk, Step, Run;
    RowsThere(s);
    StepKeeps(s, DoStart(t)) by { assert Legal(s, DoStart(t)); }
    StartKeeps(s, t, {});
    StartRows(s, t);
    StepIsStart(s, t);
    NeverEarly(Start(s, t), ops, r, fired, t);
    StepWaits(r, DoTick(cb), t);
  }

  lemma StepIsStart(s: State, t: nat)
    requires Prompt(s) && Legal(s, DoStart(t))
    ensures AllKnown(s.rows, s.due) && Step(s, DoStart(t)) == (Start(s, t), [])
  {
  }

  // ---------------------------------------------------------------- the next timeout

  /** rt_timer_list_next_timeout */
  function NextTimeout(s: State): nat
    requires s.rows != [] && (s.Bottom() != [] ==> s.Bottom()[0] in s.timers)
  {
    if s.Bottom() == [] then WRAP - 1 else s.timers[s.Bottom()[0]].timeout
  }

  /** It is the tick of the earliest deadline of an active timer, or the last tick of all if none is active. */
  lemma NextIsEarliest(s: State)
    requires Inv(s)
    ensures s.Bottom() != [] ==> s.Bottom()[0] in s.timers
    ensures (forall t :: t in s.timers ==> !s.timers[t].active) ==> NextTimeout(s) == WRAP - 1
    ensures (exists t :: t in s.timers && s.timers[t].active) ==> Earliest(s, NextTimeout(s))
  {
    if s.Bottom() != [] {
      var e := s.Bottom()[0];
      assert TimerOk(s, e);
      SortedTail(s.Bottom(), s.due);
      forall t | t in s.timers && s.timers[t].active ensures t in s.due && s.due[e] <= s.due[t] {
        assert t in s.Bottom() && TimerOk(s, t);
      }
    }
  }

  /** It is the tick at which an active timer is due, and no other active one is due before that. */
  ghost predicate Earliest(s: State, tick: nat) {
    exists e :: e in s.timers && s.timers[e].active && e in s.due && s.due[e] % WRAP == tick
      && forall t :: t in s.timers && s.timers[t].active ==> t in s.due && s.due[e] <= s.due[t]
  }

  function Power(b: nat, n: nat): (r: nat)
    requires b > 0
    ensures r > 0
  {
    if n == 0 then 1 else b * Power(b, n - 1)
  }

  lemma {:induction false} ExtraIsPower(nr: nat, left: nat, h: nat)
    requires h <= left
    ensures h <= Extra(nr, left) <==> nr % Power(FAN, h) == 0
  {
    if h > 0 {
      ExtraIsPower(nr / FAN, left - 1, h - 1);
      DivideByFan(nr, Power(FAN, h - 1));
    }
  }

  lemma DivideByFan(nr: nat, p: nat)
    requires p > 0
    ensures nr % (FAN * p) == 0 <==> nr % FAN == 0 && nr / FAN % p == 0
  {
    var q := nr / FAN;
    var k, m := q / p, q % p;
    assert q == p * k + m;
    RemainderIs(nr, FAN * p, k, FAN * m + nr % FAN);
  }

  lemma RemainderIs(a: nat, d: nat, k: nat, m: nat)
    requires d > 0 && a == d * k + m && m < d
    ensures a % d == m
  {
    assert a % d == (d * k + m) % d;
    assert d * (a / d - k) == m - a % d;
    if a / d != k { Apart(d, a / d - k); }
  }

  lemma {:induction false} Apart(d: int, z: int)
    requires d > 0 && z != 0
    ensures d * z >= d || d * z <= -d
    decreases if z > 0 then z else -z
  {
    if z > 1 { Apart(d, z - 1); }
    if z < -1 { Apart(d, z + 1); }
  }

  /** A started timer is in the row h above the full one if and only if FAN to the power of h divides the start counter. */
  lemma HeightIsPower(s: State, t: nat, h: nat)
    requires RowsOk(s) && t in s.timers && h < |s.rows|
    ensures var r := Start(s, t);
      && |r.rows| == |s.rows| && r.random == (s.random + 1) % WRAP
      && (t in r.rows[|r.rows| - 1 - h] <==> r.random % Power(FAN, h) == 0)
  {
    hide Insert, Purge, Extra, Power, SubRow, Sorted, Distinct;
    StartForm(s, t);
    UnlinkKeeps(s, t);
    var nr, l := (s.random + 1) % WRAP, |s.rows| - 1 - h;
    ExtraIsPower(nr, |s.rows| - 1, h);
    InsertPuts(RemoveAll(s.rows, t)[l], t, Start(s, t).due);
  }

  lemma {:induction false} InsertPuts(q: seq<nat>, t: nat, due: map<nat, nat>)
    requires Known(q, due) && t in due
    ensures t in Insert(q, t, due)
  {
    if q != [] && due[q[0]] <= due[t] { InsertPuts(q[1..], t, due); }
  }
}
