/** timer.c: wrapped ticks, and the rows of the timer list as sequences. */
module Timers {
  // Ticks have 32 bits and wrap around; a row is compared with the one below it, and with stable sorted insertion.

  import opened Seqs

  const WRAP := 0x1_0000_0000       // rt_tick_t has 32 bits
  const HALF := 0x7FFF_FFFF         // RT_TICK_MAX / 2
  const FAN := 4                    // RT_TIMER_SKIP_LIST_MASK + 1

  // ---------------------------------------------------------------- comparing ticks

  function Minus(a: int, b: int): nat { (a - b) % WRAP }

  /** The test that ends the search of rt_timer_start: tick a is later than tick b. */
  predicate LaterTick(a: nat, b: nat) { Minus(a, b) != 0 && Minus(a, b) < HALF }

  /** The test of rt_timer_check: the tick count has reached the timeout. */
  predicate Reached(tick: nat, timeout: nat) { Minus(tick, timeout) < HALF }

  lemma MinusOf(x: nat, y: nat)
    requires -WRAP < x - y < WRAP
    ensures Minus(x % WRAP, y % WRAP) == if x >= y then x - y else x - y + WRAP
  {
  }

  /** The comparison gives the true order of two times exactly when the first is less than half a turn ahead and
      at most half a turn and two ticks behind. */
  lemma LaterExactly(x: nat, y: nat)
    requires -WRAP < x - y < WRAP
    ensures (LaterTick(x % WRAP, y % WRAP) <==> x > y) <==> (x - y < HALF && y - x <= HALF + 2)
  {
    MinusOf(x, y);
  }

  /** With a deadline four ticks overdue in the list, a timer that was given the longest time goes before it. */
  lemma FourTicksLate()
    ensures var now := 100;
      var overdue, next := now - 4, now + (HALF - 1);
      overdue < next && LaterTick(overdue % WRAP, next % WRAP)
  {
  }

  lemma ReachedExactly(now: nat, due: nat)
    requires due < now + HALF && now < due + HALF
    ensures Reached(now % WRAP, due % WRAP) <==> due <= now
  {
    MinusOf(now, due);
  }

  // ---------------------------------------------------------------- rows

  predicate Known(q: seq<nat>, due: map<nat, nat>) { forall t :: t in q ==> t in due }

  /** Deadlines do not decrease along a row. */
  predicate Sorted(q: seq<nat>, due: map<nat, nat>)
    requires Known(q, due)
  {
    forall i, j :: 0 <= i < j < |q| ==> due[q[i]] <= due[q[j]]
  }

  /** The reference: insert t behind everything that is due no later. */
  function Insert(q: seq<nat>, t: nat, due: map<nat, nat>): (r: seq<nat>)
    requires Known(q, due) && t in due
    ensures |r| == |q| + 1 && forall x :: x in r <==> x in q || x == t
  {
    if q == [] || due[q[0]] > due[t] then [t] + q else [q[0]] + Insert(q[1..], t, due)
  }

  /** a is a subsequence of b. */
  predicate SubRow(a: seq<nat>, b: seq<nat>) {
    a == [] || (b != [] && if a[0] == b[0] then SubRow(a[1..], b[1..]) else SubRow(a, b[1..]))
  }

  lemma {:induction false} SubRowMembers(a: seq<nat>, b: seq<nat>)
    requires SubRow(a, b)
    ensures forall t :: t in a ==> t in b
  {
    if a != [] {
      assert a == [a[0]] + a[1..];
      if a[0] == b[0] { SubRowMembers(a[1..], b[1..]); } else { SubRowMembers(a, b[1..]); }
    }
  }

  lemma {:induction false} SubRowTail(a: seq<nat>, b: seq<nat>)
    requires SubRow(a, b) && a != []
    ensures SubRow(a[1..], b)
  {
    if a[0] == b[0] {
      SubRowSkip(a[1..], b);
    } else {
      SubRowTail(a, b[1..]);
      SubRowSkip(a[1..], b);
    }
  }

  lemma {:induction false} SubRowSkip(a: seq<nat>, b: seq<nat>)
    requires b != [] && SubRow(a, b[1..])
    ensures SubRow(a, b)
  {
    if a != [] && a[0] == b[0] { SubRowTail(a, b[1..]); }
  }

  lemma SortedTail(q: seq<nat>, due: map<nat, nat>)
    requires Known(q, due) && Sorted(q, due) && q != []
    ensures Known(q[1..], due) && Sorted(q[1..], due)
    ensures forall x :: x in q ==> due[q[0]] <= due[x]
  {
    forall x | x in q ensures due[q[0]] <= due[x] {
      var k :| 0 <= k < |q| && q[k] == x;
    }
  }

  lemma SortedCons(x: nat, q: seq<nat>, due: map<nat, nat>)
    requires x in due && Known(q, due) && Sorted(q, due) && forall y :: y in q ==> due[x] <= due[y]
    ensures Known([x] + q, due) && Sorted([x] + q, due)
  {
    var r := [x] + q;
    forall i, j | 0 <= i < j < |r| ensures due[r[i]] <= due[r[j]] { assert r[j] in q; }
  }

  lemma {:induction false} InsertSorted(q: seq<nat>, t: nat, due: map<nat, nat>)
    requires Known(q, due) && t in due && Sorted(q, due)
    ensures Sorted(Insert(q, t, due), due)
  {
    if q == [] {
    } else {
      SortedTail(q, due);
      if due[q[0]] > due[t] {
        SortedCons(t, q, due);
      } else {
        InsertSorted(q[1..], t, due);
        SortedCons(q[0], Insert(q[1..], t, due), due);
      }
    }
  }

  lemma {:induction false} InsertDistinct(q: seq<nat>, t: nat, due: map<nat, nat>)
    requires Known(q, due) && t in due && Distinct(q) && t !in q
    ensures Distinct(Insert(q, t, due))
  {
    if q != [] && due[q[0]] <= due[t] {
      assert Distinct(q[1..]) && q[0] !in q[1..];
      InsertDistinct(q[1..], t, due);
      var r := Insert(q[1..], t, due);
      assert q[0] !in r;
    }
  }

  /** Insertion into a row and into the row below keep the one a sublist of the other. */
  lemma {:induction false} InsertBoth(a: seq<nat>, b: seq<nat>, t: nat, due: map<nat, nat>)
    requires Known(a, due) && Known(b, due) && t in due && Sorted(b, due) && SubRow(a, b)
    ensures SubRow(Insert(a, t, due), Insert(b, t, due))
  {
    if b != [] {
      SubRowMembers(a, b);
      SortedTail(b, due);
      if due[b[0]] > due[t] {
        if a != [] { assert a[0] in b; }
        assert Insert(a, t, due) == [t] + a && ([t] + a)[1..] == a && ([t] + b)[1..] == b;
      } else if a != [] && a[0] == b[0] {
        InsertBoth(a[1..], b[1..], t, due);
        assert Insert(a, t, due)[1..] == Insert(a[1..], t, due) && Insert(b, t, due)[1..] == Insert(b[1..], t, due);
      } else {
        InsertBoth(a, b[1..], t, due);
        assert Insert(b, t, due)[1..] == Insert(b[1..], t, due);
        SubRowSkip(Insert(a, t, due), Insert(b, t, due));
      }
    }
  }

  /** A row that does not take the timer stays a sublist of a row that does. */
  lemma {:induction false} InsertBelow(a: seq<nat>, b: seq<nat>, t: nat, due: map<nat, nat>)
    requires Known(b, due) && t in due && SubRow(a, b)
    ensures SubRow(a, Insert(b, t, due))
  {
    var r := Insert(b, t, due);
    if b == [] || due[b[0]] > due[t] {
      assert r[1..] == b;
      SubRowSkip(a, r);
    } else {
      assert r[1..] == Insert(b[1..], t, due);
      if a != [] {
        if a[0] == b[0] { InsertBelow(a[1..], b[1..], t, due); } else { InsertBelow(a, b[1..], t, due); }
      }
    }
  }

  lemma {:induction false} RemoveBoth(a: seq<nat>, b: seq<nat>, t: nat)
    requires SubRow(a, b)
    ensures SubRow(Purge(a, t), Purge(b, t))
  {
    if a != [] {
      if a[0] == b[0] {
        RemoveBoth(a[1..], b[1..], t);
        if a[0] != t {
          assert Purge(a, t)[1..] == Purge(a[1..], t) && Purge(b, t)[1..] == Purge(b[1..], t);
        }
      } else {
        RemoveBoth(a, b[1..], t);
        if b[0] != t {
          assert Purge(b, t)[1..] == Purge(b[1..], t);
          SubRowSkip(Purge(a, t), Purge(b, t));
        }
      }
    }
  }

  lemma {:induction false} RemoveKeeps(q: seq<nat>, t: nat, due: map<nat, nat>)
    requires Known(q, due)
    ensures Known(Purge(q, t), due)
    ensures Sorted(q, due) ==> Sorted(Purge(q, t), due)
    ensures Distinct(q) ==> Distinct(Purge(q, t))
  {
    if q != [] {
      RemoveKeeps(q[1..], t, due);
      if Sorted(q, due) {
        SortedTail(q, due);
        if q[0] != t { SortedCons(q[0], Purge(q[1..], t), due); }
      }
      if Distinct(q) { assert Distinct(q[1..]) && q[0] !in q[1..]; }
    }
  }

  /** The place rt_timer_start looks for: everything before it is due no later, what follows is due later. */
  predicate SplitsAt(q: seq<nat>, k: nat, t: nat, due: map<nat, nat>)
    requires Known(q, due) && t in due
  {
    k <= |q| && (forall i :: 0 <= i < k ==> due[q[i]] <= due[t]) && (k < |q| ==> due[q[k]] > due[t])
  }

  /** Inserting at such a place is the reference insertion: equal deadlines stay first in, first out. */
  lemma {:induction false} InsertIsSplice(q: seq<nat>, k: nat, t: nat, due: map<nat, nat>)
    requires Known(q, due) && t in due && SplitsAt(q, k, t, due)
    ensures Insert(q, t, due) == q[..k] + [t] + q[k..]
  {
    if k > 0 {
      var u := q[1..];
      assert forall i :: 0 <= i < |u| ==> u[i] == q[i + 1];
      InsertIsSplice(u, k - 1, t, due);
      assert Insert(q, t, due) == [q[0]] + Insert(u, t, due);
      Spliced(q, k, t);
    } else {
      assert Insert(q, t, due) == [t] + q;
      assert q[..0] + [t] + q[0..] == [t] + q;
    }
  }

  lemma Spliced(q: seq<nat>, k: nat, t: nat)
    requires 0 < k <= |q|
    ensures [q[0]] + (q[1..][..k - 1] + [t] + q[1..][k - 1..]) == q[..k] + [t] + q[k..]
  {
  }
}
