/** timer.c: when the loop of rt_timer_check ends, for any periods and any callbacks that stop timers. */
module TimerEnds {
  import opened Seqs
  import opened Timers
  import opened TimerModel

  // ---------------------------------------------------------------- the loop, seen from the due timers

  /** q without the members of ts. */
  function Minus(q: seq<nat>, ts: seq<nat>): (r: seq<nat>)
    ensures forall x :: x in r <==> x in q && x !in ts
  {
    if q == [] then [] else (if q[0] in ts then [] else [q[0]]) + Minus(q[1..], ts)
  }

  /** One round on the queue of due timers: the first one fires and stops others, and comes back at once, behind the
      others, if its period is 0 (it is in z) and it did not stop itself. */
  function Next(q: seq<nat>, z: set<nat>, cb: map<nat, seq<nat>>): seq<nat>
    requires q != []
  {
    Minus(q[1..], Stops(cb, q[0])) + (if q[0] in z && q[0] !in Stops(cb, q[0]) then [q[0]] else [])
  }

  function After(q: seq<nat>, z: set<nat>, cb: map<nat, seq<nat>>, n: nat): seq<nat>
    decreases n
  {
    if n == 0 || q == [] then q else After(Next(q, z, cb), z, cb, n - 1)
  }

  /** Who fires when each timer gets one turn: all of q, but for those that are stopped before their turn. */
  function Fires(q: seq<nat>, cb: map<nat, seq<nat>>): (r: seq<nat>)
    ensures forall x :: x in r ==> x in q
    decreases |q|
  {
    if q == [] then []
    else
      MinusLen(q[1..], Stops(cb, q[0]));
      [q[0]] + Fires(Minus(q[1..], Stops(cb, q[0])), cb)
  }

  lemma {:induction false} MinusLen(q: seq<nat>, ts: seq<nat>)
    ensures |Minus(q, ts)| <= |q|
  {
    if q != [] { MinusLen(q[1..], ts); }
  }

  /** Some timer that gets its turn stops t. */
  predicate StoppedIn(q: seq<nat>, cb: map<nat, seq<nat>>, t: nat) {
    exists u :: u in Fires(q, cb) && t in Stops(cb, u)
  }

  /** Every timer of period 0 that gets its turn is stopped by one that does, perhaps by itself. */
  predicate AllStopped(q: seq<nat>, z: set<nat>, cb: map<nat, seq<nat>>) {
    forall t :: t in Fires(q, cb) && t in z ==> StoppedIn(q, cb, t)
  }

  lemma {:induction false} MinusConcat(a: seq<nat>, b: seq<nat>, ts: seq<nat>)
    ensures Minus(a + b, ts) == Minus(a, ts) + Minus(b, ts)
  {
    if a == [] {
      assert a + b == b;
    } else {
      assert (a + b)[1..] == a[1..] + b;
      MinusConcat(a[1..], b, ts);
    }
  }

  /** After one turn each of the timers of p, what is left is of period 0 and stopped by none that fired. */
  lemma {:induction false} OnePass(p: seq<nat>, k: seq<nat>, z: set<nat>, cb: map<nat, seq<nat>>)
    requires forall x :: x in k ==> x in z
    ensures forall x :: x in After(p + k, z, cb, |Fires(p, cb)|) ==>
      (x in k || x in Fires(p, cb)) && x in z && !StoppedIn(p, cb, x)
    decreases |p|
  {
    if p == [] {
      assert p + k == k;
    } else {
      hide Stops, StoppedIn, Minus, Fires, After, Next;
      var h, ts := p[0], Stops(cb, p[0]);
      var p', k' := Minus(p[1..], ts), Minus(k, ts) + (if h in z && h !in ts then [h] else []);
      MinusLen(p[1..], ts);
      OnePass(p', k', z, cb);
      StoppedFirst(p, cb);
      AfterFirst(p, k, z, cb);
      forall x | x in After(p + k, z, cb, |Fires(p, cb)|)
        ensures (x in k || x in Fires(p, cb)) && x in z && !StoppedIn(p, cb, x)
      {
        assert x in k' || x in Fires(p', cb);
      }
    }
  }

  lemma AfterFirst(p: seq<nat>, k: seq<nat>, z: set<nat>, cb: map<nat, seq<nat>>)
    requires p != []
    ensures var ts := Stops(cb, p[0]);
      var p', k' := Minus(p[1..], ts), Minus(k, ts) + (if p[0] in z && p[0] !in ts then [p[0]] else []);
      Fires(p, cb) == [p[0]] + Fires(p', cb) && After(p + k, z, cb, |Fires(p, cb)|) == After(p' + k', z, cb, |Fires(p', cb)|)
  {
    hide Stops, Minus;
    var ts := Stops(cb, p[0]);
    var p', k' := Minus(p[1..], ts), Minus(k, ts) + (if p[0] in z && p[0] !in ts then [p[0]] else []);
    assert (p + k)[1..] == p[1..] + k;
    MinusConcat(p[1..], k, ts);
    assert Next(p + k, z, cb) == p' + k';
  }

  lemma StoppedFirst(p: seq<nat>, cb: map<nat, seq<nat>>)
    requires p != []
    ensures forall x :: StoppedIn(p, cb, x) <==> x in Stops(cb, p[0]) || StoppedIn(Minus(p[1..], Stops(cb, p[0])), cb, x)
  {
    hide Stops, Minus;
    MinusLen(p[1..], Stops(cb, p[0]));
    var f := Fires(Minus(p[1..], Stops(cb, p[0])), cb);
    assert Fires(p, cb) == [p[0]] + f;
    assert forall u :: u in Fires(p, cb) <==> u == p[0] || u in f;
  }

  /** Who can get a turn once the first timer has had its own. */
  lemma {:induction false} FiresSnoc(p: seq<nat>, h: nat, cb: map<nat, seq<nat>>)
    ensures forall x :: x in Fires(p + [h], cb) ==> x in Fires(p, cb) || x == h
    decreases |p|
  {
    if p == [] {
      assert p + [h] == [h];
    } else {
      var ts := Stops(cb, p[0]);
      assert (p + [h])[1..] == p[1..] + [h];
      MinusConcat(p[1..], [h], ts);
      MinusLen(p[1..], ts);
      var p' := Minus(p[1..], ts);
      if h in ts {
        assert Minus([h], ts) == [];
        assert p' + [] == p';
      } else {
        assert Minus([h], ts) == [h];
        FiresSnoc(p', h, cb);
      }
    }
  }

  lemma NextFires(q: seq<nat>, z: set<nat>, cb: map<nat, seq<nat>>)
    requires q != []
    ensures forall x :: x in Fires(Next(q, z, cb), cb) ==> x in Fires(q, cb)
  {
    var p := Minus(q[1..], Stops(cb, q[0]));
    FiresSnoc(p, q[0], cb);
    if !(q[0] in z && q[0] !in Stops(cb, q[0])) { assert Next(q, z, cb) == p; }
  }

  /** A timer of period 0 that nobody who gets a turn stops is due for ever. */
  lemma {:induction false} StaysDue(q: seq<nat>, z: set<nat>, cb: map<nat, seq<nat>>, t: nat, n: nat)
    requires t in q && t in z && !StoppedIn(q, cb, t)
    ensures t in After(q, z, cb, n)
    decreases n
  {
    hide StoppedIn, Next, Stops;
    if n > 0 {
      StillDue(q, z, cb, t);
      StaysDue(Next(q, z, cb), z, cb, t, n - 1);
    }
  }

  lemma StillDue(q: seq<nat>, z: set<nat>, cb: map<nat, seq<nat>>, t: nat)
    requires t in q && t in z && !StoppedIn(q, cb, t)
    ensures t in Next(q, z, cb) && !StoppedIn(Next(q, z, cb), cb, t)
  {
    hide Stops, Minus;
    NextFires(q, z, cb);
    assert q[0] in Fires(q, cb);
    if t != q[0] { assert t in q[1..]; }
  }

  lemma Inhabited(q: seq<nat>)
    ensures q == [] || exists x :: x in q
  {
    if q != [] { assert q[0] in q; }
  }

  predicate Over(q: seq<nat>, z: set<nat>, cb: map<nat, seq<nat>>, n: nat) { After(q, z, cb, n) == [] }

  lemma QueueEndsExactly(q: seq<nat>, z: set<nat>, cb: map<nat, seq<nat>>)
    ensures (exists n: nat :: Over(q, z, cb, n)) <==> AllStopped(q, z, cb)
  {
    if AllStopped(q, z, cb) {
      OnePass(q, [], z, cb);
      assert q + [] == q;
      var r := After(q, z, cb, |Fires(q, cb)|);
      Inhabited(r);
      assert Over(q, z, cb, |Fires(q, cb)|);
    } else {
      var t :| t in Fires(q, cb) && t in z && !StoppedIn(q, cb, t);
      forall n: nat ensures !Over(q, z, cb, n) { StaysDue(q, z, cb, t, n); }
    }
  }

  // ---------------------------------------------------------------- the loop itself

  /** rt_timer_start insists on this. */
  predicate Startable(s: State) { forall t :: t in s.timers ==> s.timers[t].init < HALF }

  /** The periodic timers whose period is 0. */
  function Instant(s: State): set<nat> { set t | t in s.timers && s.timers[t].periodic && s.timers[t].init == 0 }

  lemma {:induction false} MinusFirst(q: seq<nat>, ts: seq<nat>)
    requires ts != []
    ensures Minus(Purge(q, ts[0]), ts[1..]) == Minus(q, ts)
  {
    if q != [] { MinusFirst(q[1..], ts); }
  }

  /** Stopping timers takes exactly these out of the due ones. */
  lemma {:induction false} StopAllDue(s: State, ts: seq<nat>, x: set<nat>)
    requires InvBut(s, x)
    ensures InvBut(StopAll(s, ts), x) && Pending(StopAll(s, ts)) == Minus(Pending(s), ts)
    ensures forall u :: u in s.timers ==> StopAll(s, ts).timers[u] == s.timers[u].(active := s.timers[u].active && u !in ts)
    decreases |ts|
  {
    hide RowsOk, Pending, TimerOk;
    if ts == [] {
      MinusNothing(Pending(s));
    } else {
      var u := ts[0];
      var s1 := if u in s.timers then Stop(s, u).0 else s;
      StopOneDue(s, u, x);
      StopAllDue(s1, ts[1..], x);
      MinusFirst(Pending(s), ts);
    }
  }

  lemma {:induction false} MinusNothing(q: seq<nat>)
    ensures Minus(q, []) == q
  {
    if q != [] { MinusNothing(q[1..]); }
  }

  lemma StopOneDue(s: State, u: nat, x: set<nat>)
    requires InvBut(s, x)
    ensures var s1 := if u in s.timers then Stop(s, u).0 else s;
      && InvBut(s1, x) && Pending(s1) == Purge(Pending(s), u) && s1.timers.Keys == s.timers.Keys
      && (forall v :: v in s.timers ==> s1.timers[v] == s.timers[v].(active := s.timers[v].active && v != u))
  {
    DueMembers(s.Bottom(), s.due, s.now);
    if u in s.timers && s.timers[u].active {
      StopKeeps(s, u, x);
      DueRemove(s.Bottom(), u, s.due, s.now);
    } else {
      assert u in s.Bottom() ==> TimerOk(s, u);
      PurgeAbsent(Pending(s), u);
    }
  }

  /** One round of the loop is one round on the queue of due timers. */
  lemma FireFirstDue(s: State, cb: map<nat, seq<nat>>)
    requires Inv(s) && Startable(s) && Pending(s) != []
    ensures s.rows != [] && s.Bottom() != [] && s.Bottom()[0] in s.timers && AllKnown(s.rows, s.due)
    ensures var r := FireFirst(s, cb);
      && Inv(r) && Startable(r) && Instant(r) == Instant(s) && Pending(r) == Next(Pending(s), Instant(s), cb)
  {
    var t := s.Bottom()[0];
    assert TimerOk(s, t);
    RowsKnown(s);
    var u := Unlink(s, t);
    UnlinkKeeps(s, t);
    assert InvBut(u, {t}) by { forall v | v in u.Bottom() ensures TimerOk(u, v) { assert TimerOk(s, v); } }
    FirstPending(s);
    assert t !in u.Bottom();
    hide RowsOk, Pending, TimerOk, Unlink, InvBut, StopAll, Rearm;
    StopAllKeeps(u, Stops(cb, t), {t});
    StopAllDue(u, Stops(cb, t), {t});
    var s2 := StopAll(u, Stops(cb, t));
    assert t !in s2.Bottom();
    Rearmed(s2, t);
    SameInstants(s, Rearm(s2, t));
  }

  lemma SameInstants(s: State, r: State)
    requires Startable(s) && r.timers.Keys == s.timers.Keys
    requires forall v :: v in s.timers ==> r.timers[v].init == s.timers[v].init && r.timers[v].periodic == s.timers[v].periodic
    ensures Startable(r) && Instant(r) == Instant(s)
  {
  }

  /** The state after n rounds of the loop, or after fewer if it has ended. */
  ghost function Rounds(s: State, cb: map<nat, seq<nat>>, n: nat): State
    requires Inv(s) && Startable(s)
    decreases n
  {
    HeadDueIs(s);
    if n == 0 || !HeadDue(s) then s
    else
      FireFirstDue(s, cb);
      Rounds(FireFirst(s, cb), cb, n - 1)
  }

  lemma {:induction false} RoundsDue(s: State, cb: map<nat, seq<nat>>, n: nat)
    requires Inv(s) && Startable(s)
    ensures Inv(Rounds(s, cb, n)) && Startable(Rounds(s, cb, n))
    ensures Pending(Rounds(s, cb, n)) == After(Pending(s), Instant(s), cb, n)
    decreases n
  {
    hide Pending, RowsOk, FireFirst;
    HeadDueIs(s);
    RowsThere(s);
    if n > 0 && HeadDue(s) {
      FireFirstDue(s, cb);
      RoundsDue(FireFirst(s, cb), cb, n - 1);
    }
  }

  /** After n rounds nothing is due any more: the loop has ended. */
  ghost predicate Ended(s: State, cb: map<nat, seq<nat>>, n: nat)
    requires Inv(s) && Startable(s)
  {
    RoundsDue(s, cb, n);
    Rounds(s, cb, n).rows != [] && !HeadDue(Rounds(s, cb, n))
  }

  /** rt_timer_check ends if and only if each due periodic timer of period 0 that gets its turn is stopped by a timer that
      gets its own; `Fires` says who does, from the due timers and the callbacks alone. */
  lemma EndsExactly(s: State, cb: map<nat, seq<nat>>)
    requires Inv(s) && Startable(s)
    ensures (exists n: nat :: Ended(s, cb, n)) <==> AllStopped(Pending(s), Instant(s), cb)
  {
    forall n: nat ensures Ended(s, cb, n) <==> Over(Pending(s), Instant(s), cb, n) {
      RoundsDue(s, cb, n);
      HeadDueIs(Rounds(s, cb, n));
    }
    hide Over, Ended, AllStopped;
    QueueEndsExactly(Pending(s), Instant(s), cb);
  }

  /** With callbacks that stop nothing, it ends if and only if every due periodic timer has a period. */
  lemma EndsWithoutStops(s: State, cb: map<nat, seq<nat>>)
    requires Inv(s) && Startable(s) && forall u :: Stops(cb, u) == []
    ensures (exists n: nat :: Ended(s, cb, n))
       <==> forall t :: t in Pending(s) && t in s.timers && s.timers[t].periodic ==> s.timers[t].init > 0
  {
    EndsExactly(s, cb);
    FiresAll(Pending(s), cb);
  }

  lemma {:induction false} FiresAll(q: seq<nat>, cb: map<nat, seq<nat>>)
    requires forall u :: Stops(cb, u) == []
    ensures Fires(q, cb) == q
  {
    if q != [] {
      MinusNothing(q[1..]);
      FiresAll(q[1..], cb);
    }
  }

  /** A timer that nobody stops gets its turn. */
  lemma {:induction false} GetsTurn(q: seq<nat>, cb: map<nat, seq<nat>>, t: nat)
    requires t in q && NoStop(cb, t)
    ensures t in Fires(q, cb)
    decreases |q|
  {
    MinusLen(q[1..], Stops(cb, q[0]));
    if q[0] != t {
      assert t in q[1..];
      GetsTurn(Minus(q[1..], Stops(cb, q[0])), cb, t);
    }
  }

  /** Such states are within reach: in any state whatever, starting a periodic timer of period 0 that no callback stops
      makes the next rt_timer_check run for ever. */
  lemma ZeroPeriodSpins(s: State, t: nat, cb: map<nat, seq<nat>>)
    requires Inv(s) && Startable(s) && t in Instant(s) && NoStop(cb, t)
    ensures AllKnown(s.rows, s.due) && Inv(Start(s, t)) && Startable(Start(s, t)) && t in Pending(Start(s, t))
    ensures forall n: nat :: !Ended(Start(s, t), cb, n)
  {
    RowsThere(s);
    RowsKnown(s);
    StartKeeps(s, t, {});
    StartRows(s, t);
    var r := Start(s, t);
    PendingIs(r);
    assert t in Instant(r) && t in Pending(r);
    EndsExactly(r, cb);
    GetsTurn(Pending(r), cb, t);
    assert !StoppedIn(Pending(r), cb, t);
  }

  /** Where every periodic timer has a period, the completed check is where the rounds lead. */
  lemma {:induction false} CheckIsRounds(s: State, cb: map<nat, seq<nat>>) returns (n: nat)
    requires Inv(s) && Ready(s) && Startable(s)
    ensures n == |Check(s, cb).1| && Rounds(s, cb, n) == Check(s, cb).0 && Ended(s, cb, n)
    decreases |Pending(s)|
  {
    HeadDueIs(s);
    n := 0;
    if HeadDue(s) {
      FireFirstKeeps(s, cb);
      FireFirstDue(s, cb);
      n := CheckIsRounds(FireFirst(s, cb), cb);
      n := n + 1;
    }
  }
}
