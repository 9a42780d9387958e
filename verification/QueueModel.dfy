/** ipc.c: the message queue, its slots and their chains. */
module QueueModel {
  // Sending takes a free slot in one critical section, copies outside, and links the slot in a second one; receiving
  // unlinks a slot, copies, and frees it in a second critical section.

  import opened Seqs
  import opened Wrappers
  import opened WaitQueue

  type Ptr = Option<nat>

  /** `struct rt_messagequeue` with its slots: `next` and the payload of each. */
  datatype Queue = Queue(next: map<nat, Ptr>, text: map<nat, nat>, free: Ptr, head: Ptr, tail: Ptr, entry: int)

  function First(q: seq<nat>): Ptr { if q == [] then None else Some(q[0]) }

  function Last(q: seq<nat>): Ptr { if q == [] then None else Some(q[|q| - 1]) }

  ghost predicate LinkAt(next: map<nat, Ptr>, q: seq<nat>, i: nat)
    requires i < |q|
  {
    q[i] in next && next[q[i]] == if i + 1 < |q| then Some(q[i + 1]) else None
  }

  /** The list that starts at h is q. */
  ghost predicate Chain(next: map<nat, Ptr>, h: Ptr, q: seq<nat>) {
    h == First(q) && forall i :: 0 <= i < |q| ==> LinkAt(next, q, i)
  }

  lemma ChainFrame(next: map<nat, Ptr>, next': map<nat, Ptr>, h: Ptr, q: seq<nat>)
    requires Chain(next, h, q) && forall x :: x in q && x in next ==> x in next' && next'[x] == next[x]
    ensures Chain(next', h, q)
  {
    forall i | 0 <= i < |q| ensures LinkAt(next', q, i) { assert LinkAt(next, q, i); }
  }

  lemma ChainTail(next: map<nat, Ptr>, h: Ptr, q: seq<nat>)
    requires Chain(next, h, q) && q != []
    ensures q[0] in next && Chain(next, next[q[0]], q[1..])
  {
    assert LinkAt(next, q, 0);
    forall i | 0 <= i < |q| - 1 ensures LinkAt(next, q[1..], i) { assert LinkAt(next, q, i + 1); }
  }

  lemma ChainCons(next: map<nat, Ptr>, h: Ptr, q: seq<nat>, x: nat)
    requires Chain(next, h, q) && x !in q && x in next && next[x] == h
    ensures Chain(next, Some(x), [x] + q)
  {
    forall i | 0 <= i < |q| + 1 ensures LinkAt(next, [x] + q, i) { if i > 0 { assert LinkAt(next, q, i - 1); } }
  }

  lemma ChainSnoc(next: map<nat, Ptr>, h: Ptr, q: seq<nat>, x: nat, next': map<nat, Ptr>)
    requires Chain(next, h, q) && Distinct(q) && x !in q && x in next && next[x] == None
    requires next' == if q == [] then next else next[q[|q| - 1] := Some(x)]
    ensures Chain(next', if q == [] then Some(x) else h, q + [x])
  {
    var r := q + [x];
    forall i | 0 <= i < |r| ensures LinkAt(next', r, i) { if i < |q| { assert LinkAt(next, q, i); } }
  }

  // ---------------------------------------------------------------- the critical sections

  /** Claim a free slot. */
  function PopFree(m: Queue): Queue
    requires m.free.Some? && m.free.value in m.next
  {
    m.(free := m.next[m.free.value])
  }

  /** Between the critical sections of rt_mq_send and rt_mq_urgent: the slot is private. */
  function Fill(m: Queue, x: nat, v: nat, urgent: bool): Queue {
    m.(text := m.text[x := v], next := if urgent then m.next else m.next[x := None])
  }

  /** Link slot x behind the last message, or before the first. */
  function Link(m: Queue, x: nat, urgent: bool): Queue
    requires m.tail.Some? ==> m.tail.value in m.next
  {
    if urgent then
      m.(next := m.next[x := m.head], head := Some(x), tail := if m.tail == None then Some(x) else m.tail,
         entry := m.entry + 1)
    else
      m.(next := if m.tail.Some? then m.next[m.tail.value := Some(x)] else m.next, tail := Some(x),
         head := if m.head == None then Some(x) else m.head, entry := m.entry + 1)
  }

  /** Unlink the first message. */
  function PopHead(m: Queue): Queue
    requires m.head.Some? && m.head.value in m.next
  {
    m.(head := m.next[m.head.value], tail := if m.tail == m.head then None else m.tail, entry := m.entry - 1)
  }

  function PushFree(m: Queue, x: nat): Queue { m.(next := m.next[x := m.free], free := Some(x)) }

  /** The first n messages go to the free list, one by one. */
  function Drain(m: Queue, n: nat): Queue
    decreases n
  {
    if n == 0 || m.head.None? || m.head.value !in m.next then m
    else Drain(PushFree(m.(head := m.next[m.head.value], tail := if m.tail == m.head then None else m.tail), m.head.value), n - 1)
  }

  function Reversed(q: seq<nat>): seq<nat> { if q == [] then [] else Reversed(q[1..]) + [q[0]] }

  // ---------------------------------------------------------------- lists and slots

  /** `freeList` and `queued` are the slots on the two lists, in order. */
  ghost predicate ListsOk(m: Queue, freeList: seq<nat>, queued: seq<nat>) {
    && Chain(m.next, m.free, freeList) && Chain(m.next, m.head, queued) && m.tail == Last(queued)
    && Distinct(freeList) && Distinct(queued) && (forall x :: x in freeList ==> x !in queued)
    && m.entry == |queued| && (forall x :: x in queued ==> x in m.text)
  }

  /** The messages in the queue, first to last. */
  function Messages(m: Queue, queued: seq<nat>): seq<nat>
    requires forall x :: x in queued ==> x in m.text
  {
    seq(|queued|, i requires 0 <= i < |queued| => m.text[queued[i]])
  }

  lemma PopFreeOk(m: Queue, freeList: seq<nat>, queued: seq<nat>)
    requires ListsOk(m, freeList, queued)
    ensures m.free.None? <==> freeList == []
    ensures freeList != [] ==> m.free == Some(freeList[0]) && freeList[0] in m.next && freeList[0] !in freeList[1..]
    ensures freeList != [] ==> freeList[0] !in queued && ListsOk(PopFree(m), freeList[1..], queued)
  {
    if freeList != [] { ChainTail(m.next, m.free, freeList); }
  }

  lemma FillOk(m: Queue, freeList: seq<nat>, queued: seq<nat>, x: nat, v: nat, urgent: bool)
    requires ListsOk(m, freeList, queued) && x !in freeList && x !in queued
    ensures ListsOk(Fill(m, x, v, urgent), freeList, queued) && Messages(Fill(m, x, v, urgent), queued) == Messages(m, queued)
  {
    ChainFrame(m.next, Fill(m, x, v, urgent).next, m.free, freeList);
    ChainFrame(m.next, Fill(m, x, v, urgent).next, m.head, queued);
  }

  /** rt_mq_send appends, rt_mq_urgent prepends. */
  lemma LinkOk(m: Queue, freeList: seq<nat>, queued: seq<nat>, x: nat, urgent: bool)
    requires ListsOk(m, freeList, queued) && x !in freeList && x !in queued && x in m.next && x in m.text
    requires !urgent ==> m.next[x] == None
    ensures m.tail.Some? ==> m.tail.value in m.next
    ensures var q := if urgent then [x] + queued else queued + [x];
      ListsOk(Link(m, x, urgent), freeList, q)
      && Messages(Link(m, x, urgent), q) == if urgent then [m.text[x]] + Messages(m, queued) else Messages(m, queued) + [m.text[x]]
  {
    if queued != [] { assert LinkAt(m.next, queued, |queued| - 1); }
    var r := Link(m, x, urgent);
    if urgent {
      ChainFrame(m.next, r.next, m.head, queued);
      ChainCons(r.next, m.head, queued, x);
    } else {
      ChainSnoc(m.next, m.head, queued, x, r.next);
    }
    ChainFrame(m.next, r.next, m.free, freeList);
  }

  /** rt_mq_recv takes the first message. */
  lemma PopHeadOk(m: Queue, freeList: seq<nat>, queued: seq<nat>)
    requires ListsOk(m, freeList, queued)
    ensures m.head.None? <==> queued == []
    ensures m.tail.None? <==> queued == []
    ensures queued != [] ==> m.head == Some(queued[0]) && queued[0] in m.next && queued[0] in m.text
    ensures queued != [] ==> queued[0] !in queued[1..] && queued[0] !in freeList && ListsOk(PopHead(m), freeList, queued[1..])
    ensures queued != [] ==> Messages(m, queued) == [m.text[queued[0]]] + Messages(PopHead(m), queued[1..])
  {
    if queued != [] {
      ChainTail(m.next, m.head, queued);
      if |queued| > 1 { assert queued[|queued| - 1] != queued[0]; }
    }
  }

  lemma PushFreeOk(m: Queue, freeList: seq<nat>, queued: seq<nat>, x: nat)
    requires ListsOk(m, freeList, queued) && x !in freeList && x !in queued
    ensures ListsOk(PushFree(m, x), [x] + freeList, queued) && Messages(PushFree(m, x), queued) == Messages(m, queued)
  {
    var r := PushFree(m, x);
    ChainFrame(m.next, r.next, m.free, freeList);
    ChainCons(r.next, m.free, freeList, x);
    ChainFrame(m.next, r.next, m.head, queued);
  }

  /** A reset moves all queued slots to the free list. */
  lemma {:induction false} DrainOk(m: Queue, freeList: seq<nat>, queued: seq<nat>)
    requires ListsOk(m.(entry := |queued|), freeList, queued)
    ensures var r := Drain(m, |queued|);
      ListsOk(r.(entry := 0), Reversed(queued) + freeList, []) && r.text == m.text && r.entry == m.entry
    decreases |queued|
  {
    if queued != [] {
      var x := queued[0];
      PopHeadOk(m.(entry := |queued|), freeList, queued);
      var m1 := PopHead(m.(entry := |queued|));
      PushFreeOk(m1, freeList, queued[1..], x);
      var m2 := PushFree(m.(head := m.next[x], tail := if m.tail == m.head then None else m.tail), x);
      assert m2.(entry := |queued[1..]|) == PushFree(m1, x);
      DrainOk(m2, [x] + freeList, queued[1..]);
      assert Reversed(queued) + freeList == Reversed(queued[1..]) + ([x] + freeList);
    } else {
      assert Reversed(queued) + freeList == freeList;
    }
  }
}
