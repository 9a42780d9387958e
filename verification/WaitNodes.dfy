/** ipc.c: the wait queues on their linked nodes, and what they are as sequences of threads. */
module WaitNodes {
  import opened Seqs
  import opened RtList
  import opened WaitQueue

  /** `rt_list_entry`: the thread whose `tlist` a node is. */
  type Entries = map<Node, nat>

  ghost predicate HasEntries(nodes: seq<Node>, entry: Entries) { forall n :: n in nodes ==> n in entry }

  /** The threads that the nodes stand for. */
  ghost function Threads(nodes: seq<Node>, entry: Entries): (q: seq<nat>)
    requires HasEntries(nodes, entry)
    ensures |q| == |nodes| && forall i :: 0 <= i < |q| ==> q[i] == entry[nodes[i]]
  {
    seq(|nodes|, i requires 0 <= i < |nodes| => entry[nodes[i]])
  }

  /** The queue behind the list head. */
  ghost predicate Queue(head: Node, nodes: seq<Node>, entry: Entries, prio: map<nat, nat>)
    reads [head] + nodes
  {
    Ring([head] + nodes) && HasEntries(nodes, entry) && Known(Threads(nodes, entry), prio)
  }

  /** The nodes with n in place k. */
  ghost function Spliced(nodes: seq<Node>, n: Node, k: nat): seq<Node>
    requires k <= |nodes|
  {
    nodes[..k] + [n] + nodes[k..]
  }

  /** `rt_list_insert_before(cur, n)`, where cur is the node at place k, or the head behind the last one. */
  method InsertAt(head: Node, cur: Node, n: Node, ghost nodes: seq<Node>, ghost k: nat)
    requires Ring([head] + nodes) && n != head && n !in nodes && k <= |nodes|
    requires cur == if k < |nodes| then nodes[k] else head
    modifies [head] + nodes, n
    ensures Ring([head] + Spliced(nodes, n, k))
  {
    TurnTo(head, nodes, k);
    ghost var ring, turned := [head] + nodes, Turned(head, nodes, k);
    forall i | 0 <= i < |turned| ensures turned[i] in ring { assert turned[i] in turned; }
    InsertBefore(cur, n, turned);
    TurnBack(head, nodes, n, k);
  }

  /** The ring, seen from the node at place k, or from the head. */
  ghost function Turned(head: Node, nodes: seq<Node>, k: nat): seq<Node>
    requires k <= |nodes|
  {
    nodes[k..] + [head] + nodes[..k]
  }

  lemma TurnTo(head: Node, nodes: seq<Node>, k: nat)
    requires Ring([head] + nodes) && k <= |nodes|
    ensures Ring(Turned(head, nodes, k)) && forall m :: m in Turned(head, nodes, k) <==> m == head || m in nodes
  {
    var ring := [head] + nodes;
    if k < |nodes| {
      RotateKeepsRing(ring, k + 1);
      assert Rotate(ring, k + 1) == Turned(head, nodes, k);
    } else {
      assert Turned(head, nodes, k) == ring;
    }
    assert nodes == nodes[..k] + nodes[k..];
  }

  lemma TurnBack(head: Node, nodes: seq<Node>, n: Node, k: nat)
    requires k <= |nodes| && Ring(Turned(head, nodes, k) + [n])
    ensures Ring([head] + Spliced(nodes, n, k))
  {
    var ring := Turned(head, nodes, k) + [n];
    RotateKeepsRing(ring, |nodes| - k);
    assert Rotate(ring, |nodes| - k) == [head] + (nodes[..k] + [n] + nodes[k..]);
  }

  /** The insertion of rt_ipc_list_suspend, over the nodes: on the threads it is Enqueue. */
  method SuspendNode(head: Node, n: Node, entry: Entries, prio: map<nat, nat>, byPriority: bool, ghost nodes: seq<Node>)
    returns (ghost k: nat)
    requires Queue(head, nodes, entry, prio) && n != head && n !in nodes && n in entry && entry[n] in prio
    modifies [head] + nodes, n
    ensures k <= |nodes| && Ring([head] + Spliced(nodes, n, k)) && HasEntries(Spliced(nodes, n, k), entry)
    ensures Threads(Spliced(nodes, n, k), entry) == Enqueue(Threads(nodes, entry), entry[n], prio, byPriority)
  {
    var cur := head;
    k := |nodes|;
    if byPriority { cur, k := FindPlace(head, entry[n], entry, prio, nodes); }
    InsertAt(head, cur, n, nodes, k);
    SplicedThreads(nodes, n, k, entry);
  }

  lemma SplicedThreads(nodes: seq<Node>, n: Node, k: nat, entry: Entries)
    requires HasEntries(nodes, entry) && n in entry && k <= |nodes|
    ensures HasEntries(Spliced(nodes, n, k), entry)
    ensures var q := Threads(nodes, entry); Threads(Spliced(nodes, n, k), entry) == q[..k] + [entry[n]] + q[k..]
  {
    var r := Spliced(nodes, n, k);
    forall m | m in r ensures m in entry {}
    var q := Threads(nodes, entry);
    assert Threads(r, entry) == q[..k] + [entry[n]] + q[k..];
  }

  /** The loop of rt_ipc_list_suspend. */
  method FindPlace(head: Node, t: nat, entry: Entries, prio: map<nat, nat>, ghost nodes: seq<Node>)
    returns (cur: Node, ghost k: nat)
    requires Queue(head, nodes, entry, prio) && t in prio
    ensures k <= |nodes| && cur == (if k < |nodes| then nodes[k] else head)
    ensures k == Place(Threads(nodes, entry), t, prio)
  {
    ghost var q := Threads(nodes, entry);
    cur := head.next;
    k := 0;
    NextOf(head, nodes, 0);
    hide Ring;
    while cur != head
      invariant k <= |nodes| && cur == if k < |nodes| then nodes[k] else head
      invariant forall i :: 0 <= i < k ==> prio[q[i]] <= prio[t]
      decreases |nodes| - k
    {
      assert q[k] == entry[cur] && q[k] in q;
      if prio[t] < prio[entry[cur]] { break; }
      NextOf(head, nodes, k + 1);
      assert ([head] + nodes)[k + 1] == nodes[k];
      cur := cur.next;
      k := k + 1;
    }
    PlaceIs(q, t, prio, k);
  }

  /** The successor of the node in place k - 1, or of the head. */
  lemma NextOf(head: Node, nodes: seq<Node>, k: nat)
    requires Ring([head] + nodes) && k <= |nodes|
    ensures ([head] + nodes)[k].next == if k < |nodes| then nodes[k] else head
    ensures head !in nodes
  {
    var ring := [head] + nodes;
    assert ring[k].next == ring[After(k, |ring|)];
    forall i | 0 <= i < |nodes| ensures nodes[i] != head { assert ring[i + 1] != ring[0]; }
  }

  /** The first place before a less urgent thread is the one that rt_ipc_list_suspend looks for. */
  lemma {:induction false} PlaceIs(q: seq<nat>, t: nat, prio: map<nat, nat>, k: nat)
    requires Known(q, prio) && t in prio && k <= |q|
    requires (forall i :: 0 <= i < k ==> prio[q[i]] <= prio[t]) && (k < |q| ==> prio[t] < prio[q[k]])
    ensures Place(q, t, prio) == k
  {
    if k > 0 { PlaceIs(q[1..], t, prio, k - 1); }
  }

  /** rt_ipc_list_resume: the first node leaves the queue. */
  method ResumeFirst(head: Node, ghost nodes: seq<Node>) returns (n: Node)
    requires Ring([head] + nodes) && nodes != []
    modifies [head] + nodes
    ensures n == nodes[0] && Ring([n]) && Ring([head] + nodes[1..])
  {
    NextOf(head, nodes, 0);
    n := head.next;
    Remove(n, [head] + nodes, 1);
    assert ([head] + nodes)[..1] + ([head] + nodes)[2..] == [head] + nodes[1..];
  }

  /** rt_thread_timeout, or rt_thread_resume, of the thread in place k: on the threads it is leaving the queue. */
  method LeaveQueue(head: Node, n: Node, entry: Entries, ghost nodes: seq<Node>, ghost k: nat)
    requires Ring([head] + nodes) && HasEntries(nodes, entry) && k < |nodes| && nodes[k] == n
    modifies [head] + nodes
    ensures Ring([n]) && Ring([head] + (nodes[..k] + nodes[k + 1..]))
    ensures HasEntries(nodes[..k] + nodes[k + 1..], entry)
    ensures LeftAt(Threads(nodes, entry), entry[n], Threads(nodes[..k] + nodes[k + 1..], entry), k)
  {
    Remove(n, [head] + nodes, k + 1);
    assert ([head] + nodes)[..k + 1] + ([head] + nodes)[k + 2..] == [head] + (nodes[..k] + nodes[k + 1..]);
    ghost var q := Threads(nodes, entry);
    assert Threads(nodes[..k] + nodes[k + 1..], entry) == q[..k] + q[k + 1..];
  }
}
