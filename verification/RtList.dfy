/** rtservice.h: the intrusive circular lists, with their pointers. */
module RtList {
  // Most modules use sequences for these lists.  Here the pointer code itself is shown to do on a ring of nodes what the
  // sequence operations do, including the case the scheduler relies on: removing a node that is in no list is harmless.
  // WaitNodes takes this further for wait queues.

  import opened Seqs

  /** `rt_list_t` */
  class Node {
    var next: Node
    var prev: Node

    /** rt_list_init: a node alone in its own ring. */
    constructor ()
      ensures next == this && prev == this
      ensures Ring([this])
    {
      next, prev := this, this;
    }
  }

  function After(i: int, n: int): int
    requires 0 <= i < n
  {
    if i + 1 == n then 0 else i + 1
  }

  /** The nodes of `ring`, in this order, are linked in a circle, and `prev` inverts `next`. */
  ghost predicate Ring(ring: seq<Node>)
    reads ring
  {
    && ring != []
    && (forall i, j :: 0 <= i < j < |ring| ==> ring[i] != ring[j])
    && (forall i :: 0 <= i < |ring| ==> ring[i].next == ring[After(i, |ring|)])
    && (forall i :: 0 <= i < |ring| ==> ring[After(i, |ring|)].prev == ring[i])
  }

  lemma RotateKeepsRing(ring: seq<Node>, k: nat)
    requires Ring(ring) && k < |ring|
    ensures Ring(Rotate(ring, k))
  {
    var r, n := Rotate(ring, k), |ring|;
    forall i | 0 <= i < n
      ensures r[i].next == r[After(i, n)] && r[After(i, n)].prev == r[i]
    {
      var i' := if i + k < n then i + k else i + k - n;
      assert r[i] == ring[i'] && r[After(i, n)] == ring[After(i', n)];
    }
  }

  /** rt_list_insert_after, on a list whose head (or any member) is `ring[0]`. */
  method InsertAfter(l: Node, n: Node, ghost ring: seq<Node>)
    requires Ring(ring) && ring[0] == l && n !in ring
    modifies ring, n
    ensures Ring([l, n] + ring[1..])
  {
    l.next.prev := n;
    n.next := l.next;
    l.next := n;
    n.prev := l;
    ghost var r := [l, n] + ring[1..];
    assert forall i :: 2 <= i < |r| ==> r[i] == ring[i - 1];
  }

  /** rt_list_insert_before: seen from its head, a list gains n at its end. */
  method InsertBefore(l: Node, n: Node, ghost ring: seq<Node>)
    requires Ring(ring) && ring[0] == l && n !in ring
    modifies ring, n
    ensures Ring(ring + [n])
  {
    ghost var last := ring[|ring| - 1];
    assert After(|ring| - 1, |ring|) == 0 && l.prev == last;
    l.prev.next := n;
    n.prev := l.prev;
    l.prev := n;
    n.next := l;
  }

  /** rt_list_remove, with the ring written from the removed node on. */
  method Unlink(n: Node, ghost ring: seq<Node>)
    requires Ring(ring) && ring[0] == n
    modifies ring
    ensures Ring([n])
    ensures |ring| > 1 ==> Ring(ring[1..])
  {
    ghost var len := |ring|;
    assert After(len - 1, len) == 0 && n.prev == ring[len - 1] && n.next == ring[After(0, len)];
    n.next.prev := n.prev;
    n.prev.next := n.next;
    n.next, n.prev := n, n;
    ghost var r := ring[1..];
    forall i | 0 <= i < len - 1
      ensures r[i].next == r[After(i, len - 1)] && r[After(i, len - 1)].prev == r[i]
    {
      assert r[i] == ring[i + 1];
    }
  }

  /** rt_list_remove of a node at place k of a list: the others stay linked in their order, and
      the node is left alone.  A node that was alone stays as it is. */
  method Remove(n: Node, ghost ring: seq<Node>, ghost k: nat)
    requires Ring(ring) && k < |ring| && ring[k] == n
    modifies ring
    ensures Ring([n])
    ensures |ring| > 1 ==> Ring(ring[..k] + ring[k + 1..])
  {
    RotateKeepsRing(ring, k);
    ghost var turned := Rotate(ring, k);
    Unlink(n, turned);
    if |ring| > 1 {
      assert turned[1..] == ring[k + 1..] + ring[..k];
      ghost var back := |ring| - 1 - k;
      assert Rotate(turned[1..], back) == ring[..k] + ring[k + 1..];
      if back < |ring| - 1 { RotateKeepsRing(turned[1..], back); }
    }
  }

  /** rt_list_isempty, as the ring says it. */
  method IsEmpty(l: Node, ghost ring: seq<Node>) returns (b: bool)
    requires Ring(ring) && ring[0] == l
    ensures b <==> |ring| == 1
  {
    b := l.next == l;
    assert l.next == ring[After(0, |ring|)];
  }

  /** rt_list_len counts the members behind the head. */
  method Len(l: Node, ghost ring: seq<Node>) returns (len: nat)
    requires Ring(ring) && ring[0] == l
    ensures len == |ring| - 1
  {
    len := 0;
    var p := l;
    while p.next != l
      invariant len < |ring| && p == ring[len]
      decreases |ring| - len
    {
      assert p.next == ring[After(len, |ring|)];
      p := p.next;
      len := len + 1;
    }
    assert p.next == ring[After(len, |ring|)];
  }
}
