/** ipc.c: the queue of suspended threads of an IPC object, first-come or by priority. */
module WaitQueue {
  import opened Seqs

  /** Every waiting thread has a priority. */
  predicate Known(q: seq<nat>, prio: map<nat, nat>) { forall t :: t in q ==> t in prio }

  /** The more urgent (smaller) priorities come first. */
  predicate Sorted(q: seq<nat>, prio: map<nat, nat>)
    requires Known(q, prio)
  {
    forall i, j :: 0 <= i < j < |q| ==> prio[q[i]] <= prio[q[j]]
  }

  /** Where rt_ipc_list_suspend puts a thread in a priority queue: before the first less urgent one. */
  function Place(q: seq<nat>, t: nat, prio: map<nat, nat>): (k: nat)
    requires Known(q, prio) && t in prio
    ensures k <= |q| && (forall i :: 0 <= i < k ==> prio[q[i]] <= prio[t]) && (k < |q| ==> prio[t] < prio[q[k]])
  {
    if q == [] || prio[t] < prio[q[0]] then 0 else 1 + Place(q[1..], t, prio)
  }

  /** rt_ipc_list_suspend */
  function Enqueue(q: seq<nat>, t: nat, prio: map<nat, nat>, byPriority: bool): seq<nat>
    requires Known(q, prio) && t in prio
  {
    var k := if byPriority then Place(q, t, prio) else |q|;
    q[..k] + [t] + q[k..]
  }

  /** t has joined q at place k: last of a first-come queue, and of those as urgent as itself in a priority queue. */
  predicate JoinsAt(q: seq<nat>, t: nat, prio: map<nat, nat>, byPriority: bool, r: seq<nat>, k: nat)
    requires Known(q, prio) && t in prio
  {
    && k <= |q| && r == q[..k] + [t] + q[k..]
    && (!byPriority ==> k == |q|)
    && (byPriority && Sorted(q, prio) ==>
          (forall i :: 0 <= i < k ==> prio[q[i]] <= prio[t]) && (forall i :: k <= i < |q| ==> prio[t] < prio[q[i]]))
  }

  ghost predicate Joins(q: seq<nat>, t: nat, prio: map<nat, nat>, byPriority: bool, r: seq<nat>)
    requires Known(q, prio) && t in prio
  {
    exists k: nat :: JoinsAt(q, t, prio, byPriority, r, k)
  }

  lemma EnqueueKeeps(q: seq<nat>, t: nat, prio: map<nat, nat>, byPriority: bool)
    requires Known(q, prio) && t in prio
    ensures var r := Enqueue(q, t, prio, byPriority);
      |r| == |q| + 1 && Known(r, prio) && forall x :: x in r <==> x in q || x == t
    ensures Distinct(q) && t !in q ==> Distinct(Enqueue(q, t, prio, byPriority))
    ensures byPriority && Sorted(q, prio) ==> Sorted(Enqueue(q, t, prio, byPriority), prio)
  {
    var r := Enqueue(q, t, prio, byPriority);
    var k := if byPriority then Place(q, t, prio) else |q|;
    assert r[k] == t;
    forall x | x in q ensures x in r {
      var i :| 0 <= i < |q| && q[i] == x;
      assert r[if i < k then i else i + 1] == x;
    }
    if byPriority && Sorted(q, prio) { EnqueueSorted(q, t, prio); }
  }

  lemma EnqueueJoins(q: seq<nat>, t: nat, prio: map<nat, nat>, byPriority: bool)
    requires Known(q, prio) && t in prio
    ensures Joins(q, t, prio, byPriority, Enqueue(q, t, prio, byPriority))
  {
    var k := if byPriority then Place(q, t, prio) else |q|;
    assert JoinsAt(q, t, prio, byPriority, Enqueue(q, t, prio, byPriority), k);
  }

  lemma EnqueueSorted(q: seq<nat>, t: nat, prio: map<nat, nat>)
    requires Known(q, prio) && t in prio && Sorted(q, prio) && Known(Enqueue(q, t, prio, true), prio)
    ensures Sorted(Enqueue(q, t, prio, true), prio)
  {
    SpliceSorted(q, Place(q, t, prio), t, prio);
  }

  lemma SpliceSorted(q: seq<nat>, k: nat, t: nat, prio: map<nat, nat>)
    requires Known(q, prio) && t in prio && Sorted(q, prio) && k <= |q| && Known(q[..k] + [t] + q[k..], prio)
    requires (forall i :: 0 <= i < k ==> prio[q[i]] <= prio[t]) && (k < |q| ==> prio[t] < prio[q[k]])
    ensures Sorted(q[..k] + [t] + q[k..], prio)
  {
    var r := q[..k] + [t] + q[k..];
    forall i, j | 0 <= i < j < |r| ensures prio[r[i]] <= prio[r[j]] {
      if j > k { assert r[j] == q[j - 1]; }
      if i > k { assert r[i] == q[i - 1]; }
      if i == k && j - 1 > k { assert prio[q[k]] <= prio[q[j - 1]]; }
    }
  }

  lemma TailKeeps(q: seq<nat>, prio: map<nat, nat>)
    requires q != [] && Known(q, prio)
    ensures Known(q[1..], prio)
    ensures Sorted(q, prio) ==> Sorted(q[1..], prio) && forall x :: x in q ==> prio[q[0]] <= prio[x]
    ensures Distinct(q) ==> Distinct(q[1..]) && forall x :: x in q[1..] <==> x in q && x != q[0]
  {
    assert forall k :: 0 <= k < |q[1..]| ==> q[1..][k] == q[k + 1];
    if Sorted(q, prio) {
      forall x | x in q ensures prio[q[0]] <= prio[x] { var k :| 0 <= k < |q| && q[k] == x; }
    }
    if Distinct(q) {
      forall x ensures x in q[1..] <==> x in q && x != q[0] {
        if x in q && x != q[0] { var k :| 0 <= k < |q| && q[k] == x; assert q[1..][k - 1] == x; }
      }
    }
  }

  lemma {:induction false} LeaveKeeps(q: seq<nat>, t: nat, prio: map<nat, nat>)
    requires Known(q, prio)
    ensures Known(Purge(q, t), prio) && (Distinct(q) ==> Distinct(Purge(q, t)))
    ensures Sorted(q, prio) ==> Sorted(Purge(q, t), prio)
    ensures t !in q ==> Purge(q, t) == q
    ensures Distinct(q) && t in q ==> |Purge(q, t)| + 1 == |q|
  {
    if q != [] {
      TailKeeps(q, prio);
      LeaveKeeps(q[1..], t, prio);
      if q[0] != t { ConsKeeps(q[0], Purge(q[1..], t), prio); }
    }
  }

  /** t has left q, and the others keep their order. */
  ghost predicate Left(q: seq<nat>, t: nat, r: seq<nat>) {
    t !in r && ((t !in q && r == q) || exists k: nat :: LeftAt(q, t, r, k))
  }

  predicate LeftAt(q: seq<nat>, t: nat, r: seq<nat>, k: nat) { k < |q| && q[k] == t && r == q[..k] + q[k + 1..] }

  lemma LeaveIsLeft(q: seq<nat>, t: nat)
    requires Distinct(q)
    ensures Left(q, t, Purge(q, t))
  {
    if t in q {
      var k :| 0 <= k < |q| && q[k] == t;
      LeaveSplice(q, t, k);
      assert LeftAt(q, t, Purge(q, t), k);
    } else {
      PurgeAbsent(q, t);
    }
  }

  lemma {:induction false} LeaveSplice(q: seq<nat>, t: nat, k: nat)
    requires Distinct(q) && k < |q| && q[k] == t
    ensures Purge(q, t) == q[..k] + q[k + 1..]
  {
    if k == 0 {
      PurgeAbsent(q[1..], t);
    } else {
      LeaveSplice(q[1..], t, k - 1);
      assert q[..k] == [q[0]] + q[1..][..k - 1] && q[1..][k..] == q[k + 1..];
    }
  }

  lemma ConsKeeps(x: nat, r: seq<nat>, prio: map<nat, nat>)
    requires Known(r, prio) && x in prio
    ensures Known([x] + r, prio) && (x !in r && Distinct(r) ==> Distinct([x] + r))
    ensures Sorted(r, prio) && (forall y :: y in r ==> prio[x] <= prio[y]) ==> Sorted([x] + r, prio)
  {
    var c := [x] + r;
    assert forall i :: 0 < i < |c| ==> c[i] == r[i - 1] && c[i] in r;
  }

  /** Changing the priority of a thread that does not wait leaves the order alone. */
  lemma OtherPriority(q: seq<nat>, prio: map<nat, nat>, t: nat, p: nat)
    requires Known(q, prio) && t in prio && t !in q
    ensures Sorted(q, prio) <==> Sorted(q, prio[t := p])
  {
  }

  /** The loop of rt_ipc_list_suspend. */
  method Suspend(q: seq<nat>, t: nat, prio: map<nat, nat>, byPriority: bool) returns (r: seq<nat>)
    requires Known(q, prio) && t in prio
    ensures r == Enqueue(q, t, prio, byPriority)
  {
    if !byPriority {
      assert q[..|q|] + [t] + q[|q|..] == q + [t];
      return q + [t];
    }
    var n := 0;
    assert q[0..] == q;
    while n != |q|
      invariant 0 <= n <= |q|
      invariant Place(q, t, prio) == n + Place(q[n..], t, prio)
      decreases |q| - n
    {
      assert q[n..][0] == q[n] && q[n..][1..] == q[n + 1..];
      if prio[t] < prio[q[n]] { return q[..n] + [t] + q[n..]; }
      n := n + 1;
    }
    assert q[..|q|] + [t] + q[|q|..] == q + [t];
    return q + [t];
  }
}
