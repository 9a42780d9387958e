/** timer.c as it runs: the search through the rows, insertion, removal and the expiry loop. */
module TimerKernel {
  import opened Seqs
  import opened Timers
  import opened TimerModel

  /** Where a timer stands in a row. */
  function IndexOf(q: seq<nat>, t: nat): (k: nat)
    requires t in q
    ensures k < |q| && q[k] == t
  {
    if q[0] == t then 0 else 1 + IndexOf(q[1..], t)
  }

  /** The first k timers of a row are due no later than t. */
  predicate NoLater(q: seq<nat>, k: nat, t: nat, due: map<nat, nat>)
    requires Known(q, due) && t in due
  {
    k <= |q| && forall i :: 0 <= i < k ==> due[q[i]] <= due[t]
  }

  class TimerList {
    var rows: seq<seq<nat>>        // rt_timer_list
    var timers: map<nat, Timer>
    var random: nat                // random_nr
    var tick: nat

    ghost var now: nat
    ghost var due: map<nat, nat>

    ghost function View(): State
      reads this
    {
      State(rows, timers, random, tick, now, due)
    }

    /** Empty rows at tick 0. */
    constructor (levels: nat, table: map<nat, Timer>)
      requires levels > 0 && forall t :: t in table ==> !table[t].active
      ensures Inv(View()) && rows == seq(levels, _ => []) && timers == table && now == 0
    {
      rows, timers, random, tick := seq(levels, _ => []), table, 0, 0;
      now, due := 0, map[];
    }

    /** _rt_timer_remove */
    method RemoveTimer(t: nat)
      modifies `rows
      ensures rows == RemoveAll(old(rows), t)
    {
      var i := 0;
      while i < |rows|
        invariant 0 <= i <= |rows| == |old(rows)|
        invariant forall l :: 0 <= l < i ==> rows[l] == Purge(old(rows)[l], t)
        invariant forall l :: i <= l < |rows| ==> rows[l] == old(rows)[l]
      {
        rows := rows[i := Purge(rows[i], t)];
        i := i + 1;
      }
    }

    /** rt_timer_stop */
    method Stop(t: nat) returns (ok: bool)
      requires t in timers
      modifies `rows, `timers
      ensures (View(), ok) == TimerModel.Stop(old(View()), t)
    {
      if !timers[t].active { return false; }
      RemoveTimer(t);
      timers := timers[t := timers[t].(active := false)];
      return true;
    }

    /** One row of the search: walk on from position p past everything that is due no later than t. */
    method Walk(l: nat, start: nat, t: nat) returns (p: nat)
      requires Searchable(t) && l < |rows| && NoLater(rows[l], start, t, due)
      ensures SplitsAt(rows[l], p, t, due)
    {
      hide RowsOk;
      RowIs(t, l);
      p := start;
      while p != |rows[l]|
        invariant start <= p <= |rows[l]| && NoLater(rows[l], p, t, due)
        decreases |rows[l]| - p
      {
        var u := rows[l][p];
        CompareIs(t, l, p);
        if Minus(timers[u].timeout, timers[t].timeout) == 0 {
          p := p + 1;
          continue;
        } else if Minus(timers[u].timeout, timers[t].timeout) < HALF {
          break;
        }
        p := p + 1;
      }
    }

    /** Timer t is about to be inserted. */
    ghost predicate Searchable(t: nat)
      reads this
    {
      && RowsOk(View()) && t in timers && t in due && timers[t].timeout == due[t] % WRAP && now <= due[t] < now + HALF
      && (forall u :: u in View().Bottom() ==>
            u in timers && timers[u].timeout == due[u] % WRAP && due[u] < now + HALF && now <= due[u] + 3)
    }

    lemma RowIs(t: nat, l: nat)
      requires Searchable(t) && l < |rows|
      ensures Known(rows[l], due) && Sorted(rows[l], due) && forall u :: u in rows[l] ==> u in View().Bottom()
    {
      RowSorted(View(), l);
      RowInBottom(View(), l);
    }

    /** The wrapped comparison orders t and the timer at position p of row l truly. */
    lemma CompareIs(t: nat, l: nat, p: nat)
      requires Searchable(t) && l < |rows| && p < |rows[l]|
      ensures rows[l][p] in timers && rows[l][p] in due
      ensures var u := rows[l][p]; (LaterTick(timers[u].timeout, timers[t].timeout) <==> due[u] > due[t])
    {
      RowIs(t, l);
      var u := rows[l][p];
      assert u in View().Bottom();
      LaterExactly(due[u], due[t]);
    }

    /** Where the search goes on in row l + 1: behind the timer it stopped behind in row l. */
    method StartBelow(l: nat, p: nat, t: nat) returns (next: nat)
      requires Searchable(t) && l + 1 < |rows| && p <= |rows[l]| && SplitsAt(rows[l], p, t, due)
      ensures NoLater(rows[l + 1], next, t, due)
    {
      if p == 0 { return 0; }
      SubRowMembers(rows[l], rows[l + 1]);
      RowIs(t, l + 1);
      hide RowsOk;
      var u := rows[l][p - 1];
      next := IndexOf(rows[l + 1], u) + 1;
    }

    /** The search of rt_timer_start, from the sparsest row down: each row begins where the one above left off. */
    method FindPlaces(t: nat) returns (heads: seq<nat>)
      requires Searchable(t)
      ensures |heads| == |rows| && forall l :: 0 <= l < |rows| ==> SplitsAt(rows[l], heads[l], t, due)
    {
      AllRows(t);
      hide RowsOk, SplitsAt;
      heads := [];
      var next: nat := 0;
      var l := 0;
      while l < |rows|
        invariant 0 <= l <= |rows| && |heads| == l
        invariant forall i :: 0 <= i < l ==> SplitsAt(rows[i], heads[i], t, due)
        invariant l < |rows| ==> NoLater(rows[l], next, t, due)
      {
        var p := Walk(l, next, t);
        heads := heads + [p];
        if l != |rows| - 1 {
          next := StartBelow(l, p, t);
        }
        l := l + 1;
      }
    }

    /** The insertion of rt_timer_start: the full row always, higher rows as the counter's low bits say. */
    method InsertAtPlaces(t: nat, heads: seq<nat>, nr: nat)
      requires rows != [] && t in due && AllKnown(rows, due) && |heads| == |rows|
      requires forall l :: 0 <= l < |rows| ==> SplitsAt(rows[l], heads[l], t, due)
      modifies `rows
      ensures rows == InsertLow(old(rows), t, due, 1 + Extra(nr, |old(rows)| - 1))
    {
      hide SplitsAt, Insert;
      var n := |rows|;
      InsertAt(n - 1, heads[n - 1], t);
      var tst: nat := nr;
      var lvl: nat := 2;
      while lvl <= n
        invariant 2 <= lvl <= n + 1 && |rows| == n
        invariant forall l :: 0 <= l < n ==> rows[l] == if l + lvl - 1 >= n then Insert(old(rows)[l], t, due) else old(rows)[l]
        invariant Extra(nr, n - 1) == lvl - 2 + Extra(tst, n - lvl + 1)
      {
        if tst % FAN == 0 {
          InsertAt(n - lvl, heads[n - lvl], t);
        } else {
          break;
        }
        tst := tst / FAN;
        lvl := lvl + 1;
      }
    }

    /** rt_list_insert_after at position k of row i. */
    method InsertAt(i: nat, k: nat, t: nat)
      requires i < |rows| && Known(rows[i], due) && t in due && SplitsAt(rows[i], k, t, due)
      modifies `rows
      ensures Known(old(rows)[i], due) && rows == old(rows)[i := Insert(old(rows)[i], t, due)]
    {
      InsertIsSplice(rows[i], k, t, due);
      rows := rows[i := rows[i][..k] + [t] + rows[i][k..]];
    }

    lemma AllRows(t: nat)
      requires Searchable(t)
      ensures rows != [] && t in due && AllKnown(rows, due)
    {
    }

    /** The first half of rt_timer_start: unlink the timer and compute its timeout. */
    method Schedule(t: nat)
      requires InvBut(View(), {t}) && t in timers && timers[t].init < HALF
      modifies this
      ensures RowsOk(View()) && Searchable(t)
      ensures rows == RemoveAll(old(rows), t) && due == old(due)[t := now + old(timers)[t].init]
      ensures now == old(now) && tick == old(tick) && random == old(random)
      ensures timers == old(timers)[t := old(timers)[t].(active := false, timeout := (tick + old(timers)[t].init) % WRAP)]
    {
      hide RowsOk, RemoveAll, TimerOk, Searchable, InvBut, Purge;
      ghost var s := View();
      Prepared(s, t);
      RemoveTimer(t);
      timers := timers[t := timers[t].(active := false)];
      timers := timers[t := timers[t].(timeout := (tick + timers[t].init) % WRAP)];
      due := due[t := now + timers[t].init];
      SameRows(s.(rows := RemoveAll(s.rows, t), due := s.due[t := s.now + s.timers[t].init]), View());
      NowSearchable(s, t);
    }

    /** rt_timer_start */
    method Start(t: nat)
      requires InvBut(View(), {t}) && t in timers && timers[t].init < HALF
      modifies this
      ensures AllKnown(old(rows), old(due)) && View() == TimerModel.Start(old(View()), t)
    {
      hide RowsOk, Insert, InsertLow, RemoveAll, Extra, TimerModel.Start, Searchable, InvBut, SplitsAt, Purge;
      ghost var s := View();
      StartReady(s, t);
      StartForm(s, t);
      StartIs(s, t);
      Schedule(t);
      AllRows(t);
      var heads := FindPlaces(t);
      random := (random + 1) % WRAP;
      InsertAtPlaces(t, heads, random);
      timers := timers[t := timers[t].(active := true)];
      assert timers == s.timers[t := s.timers[t].(active := true, timeout := (s.tick + s.timers[t].init) % WRAP)];
    }

    /** The callback of timer t: it stops the timers that cb lists for t. */
    method CallBack(t: nat, cb: map<nat, seq<nat>>)
      modifies `rows, `timers
      ensures View() == StopAll(old(View()), Stops(cb, t))
    {
      var ts := Stops(cb, t);
      var i := 0;
      assert ts[0..] == ts;
      while i < |ts|
        invariant 0 <= i <= |ts|
        invariant StopAll(old(View()), ts) == StopAll(View(), ts[i..])
      {
        assert ts[i..][0] == ts[i] && ts[i..][1..] == ts[i + 1..];
        if ts[i] in timers { var _ := Stop(ts[i]); }
        i := i + 1;
      }
    }

    /** One round of the loop in rt_timer_check. */
    method Fire(cb: map<nat, seq<nat>>)
      requires Inv(View()) && Ready(View()) && HeadDue(View())
      modifies this
      ensures AllKnown(old(rows), old(due)) && View() == FireFirst(old(View()), cb)
    {
      hide RowsOk, InvBut, TimerModel.Start, StopAll, Purge, RemoveAll;
      ghost var s := View();
      RowsThere(s);
      var t := rows[|rows| - 1][0];
      Fired(s, cb);
      RemoveTimer(t);
      CallBack(t, cb);
      if timers[t].periodic && timers[t].active {
        timers := timers[t := timers[t].(active := false)];
        Start(t);
      } else {
        timers := timers[t := timers[t].(active := false)];
      }
    }

    /** rt_timer_check; the result lists the timers it fired. */
    method CheckTimers(cb: map<nat, seq<nat>>) returns (fired: seq<nat>)
      requires Inv(View()) && Ready(View())
      modifies this
      ensures (View(), fired) == Check(old(View()), cb)
    {
      hide RowsOk, SubRow, FireFirst, Check, Pending, InvBut, Ready;
      fired := [];
      assert fired + Check(View(), cb).1 == Check(View(), cb).1;
      RowsThere(View());
      PendingIs(View());
      while rows[|rows| - 1] != [] && Due(rows[|rows| - 1][0])
        invariant Inv(View()) && Ready(View()) && RowsOk(View()) && rows != []
        invariant forall u :: u in rows[|rows| - 1] ==> u in timers
        invariant Check(old(View()), cb).0 == Check(View(), cb).0
        invariant Check(old(View()), cb).1 == fired + Check(View(), cb).1
        decreases |Pending(View())|
      {
        CheckMore(View(), cb);
        ghost var before, rest := fired, Check(FireFirst(View(), cb), cb).1;
        fired := fired + [rows[|rows| - 1][0]];
        assert before + ([rows[|rows| - 1][0]] + rest) == fired + rest;
        Fire(cb);
        RowsThere(View());
        PendingIs(View());
      }
      CheckDone(View(), cb);
      assert fired + [] == fired;
    }

    lemma CheckMore(s: State, cb: map<nat, seq<nat>>)
      requires Inv(s) && Ready(s) && HeadDue(s)
      ensures s.Bottom() != [] && s.Bottom()[0] in s.timers && AllKnown(s.rows, s.due)
      ensures Inv(FireFirst(s, cb)) && Ready(FireFirst(s, cb)) && |Pending(FireFirst(s, cb))| < |Pending(s)|
      ensures Check(s, cb) == (Check(FireFirst(s, cb), cb).0, [s.Bottom()[0]] + Check(FireFirst(s, cb), cb).1)
    {
      hide RowsOk, SubRow, FireFirst, Pending;
      HeadDueIs(s);
      FireFirstKeeps(s, cb);
    }

    lemma CheckDone(s: State, cb: map<nat, seq<nat>>)
      requires Inv(s) && Ready(s) && s.rows != [] && !HeadDue(s)
      ensures Check(s, cb) == (s, [])
    {
    }

    /** The tick count has reached timer t's timeout. */
    predicate Due(t: nat)
      reads this
      requires t in timers
    {
      Reached(tick, timers[t].timeout)
    }

    lemma Fired(s: State, cb: map<nat, seq<nat>>)
      requires Inv(s) && Ready(s) && HeadDue(s)
      ensures var t := s.Bottom()[0];
        && t in s.timers && AllKnown(s.rows, s.due) && AllKnown(Unlink(s, t).rows, s.due)
        && (var s2 := StopAll(Unlink(s, t), Stops(cb, t));
            && t in s2.timers && InvBut(s2.(timers := s2.timers[t := s2.timers[t].(active := false)]), {t})
            && s2.timers[t].init < HALF)
    {
      hide RowsOk, Unlink, StopAll, SubRow;
      FirstUnlinked(s);
      var t := s.Bottom()[0];
      var u := Unlink(s, t);
      StopAllKeeps(u, Stops(cb, t), {t});
      var s2 := StopAll(u, Stops(cb, t));
      var s3 := s2.(timers := s2.timers[t := s2.timers[t].(active := false)]);
      SameRows(s2, s3);
      forall v | v in s3.Bottom() ensures TimerOk(s3, v) { assert TimerOk(s2, v); }
    }

    lemma FirstUnlinked(s: State)
      requires Inv(s) && Ready(s) && HeadDue(s)
      ensures s.rows != []
      ensures var t := s.Bottom()[0];
        && t in s.timers && s.timers[t].init < HALF && AllKnown(s.rows, s.due) && AllKnown(Unlink(s, t).rows, s.due)
        && InvBut(Unlink(s, t), {t}) && Unlink(s, t).timers == s.timers && Unlink(s, t).due == s.due
        && t !in Unlink(s, t).Bottom()
    {
      hide SubRow, Sorted, Distinct, Purge;
      var t := s.Bottom()[0];
      UnlinkKeeps(s, t);
      UnlinkKnown(s, t);
      var u := Unlink(s, t);
      forall v | v in u.Bottom() ensures TimerOk(u, v) { assert TimerOk(s, v); }
    }

    lemma NowSearchable(s: State, t: nat)
      requires t in s.timers && t in timers && s.timers[t].init < HALF && now == s.now
      requires due == s.due[t := s.now + s.timers[t].init] && rows == RemoveAll(s.rows, t)
      requires RowsOk(View()) && timers[t].timeout == (s.now + s.timers[t].init) % WRAP
      requires forall v :: v in View().Bottom() ==> TimerOk(s, v) && v != t
      requires forall v :: v in s.timers && v != t ==> v in timers && timers[v] == s.timers[v]
      ensures Searchable(t)
    {
      hide RowsOk, RemoveAll;
    }
  }

  lemma StartReady(s: State, t: nat)
    requires InvBut(s, {t})
    ensures RowsOk(s) && AllKnown(s.rows, s.due)
  {
  }

  lemma StartIs(s: State, t: nat)
    requires s.rows != [] && AllKnown(s.rows, s.due) && t in s.timers
    ensures var r := TimerModel.Start(s, t);
      && r.random == (s.random + 1) % WRAP && r.tick == s.tick && r.now == s.now
      && r.timers == s.timers[t := s.timers[t].(active := true, timeout := (s.tick + s.timers[t].init) % WRAP)]
  {
  }

  lemma {:induction false} RowInBottom(s: State, l: nat)
    requires RowsOk(s) && l < |s.rows|
    ensures forall u :: u in s.rows[l] ==> u in s.Bottom()
    decreases |s.rows| - l
  {
    if l < |s.rows| - 1 {
      RowInBottom(s, l + 1);
      SubRowMembers(s.rows[l], s.rows[l + 1]);
    }
  }

  /** With t unlinked and its timeout computed, the search has what it needs. */
  lemma Prepared(s: State, t: nat)
    requires InvBut(s, {t}) && t in s.timers && s.timers[t].init < HALF
    ensures var d := s.now + s.timers[t].init;
      var u := s.(rows := RemoveAll(s.rows, t), due := s.due[t := d]);
      RowsOk(u) && (s.tick + s.timers[t].init) % WRAP == d % WRAP && forall v :: v in u.Bottom() ==> TimerOk(s, v) && v != t
  {
    UnlinkKeeps(s, t);
    Rescheduled(Unlink(s, t), t, s.now + s.timers[t].init);
    TickSum(s.now, s.timers[t].init);
  }
}
