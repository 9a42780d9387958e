/** ipc.c: the message queue as a step system; every critical section and every copy outside one is a step. */
module QueueRuns {
  import opened Seqs
  import opened Wrappers
  import opened WaitQueue
  import opened QueueModel

  /** The slots in flight: `claimed` by a sender that has not copied yet, `filled` with a payload that is to be linked
      (urgently or not), `taken` by a receiver that copies out; `place` says the same for each slot.  `woken` are the receivers that were resumed and have
      not run yet.  The multisets count all messages ever linked, unlinked by receivers, and dropped by resets. */
  datatype Place = Free | Queued | Claimed | Filled | Taken

  datatype State = State(m: Queue, max: nat, place: map<nat, Place>, freeList: seq<nat>, queued: seq<nat>,
                         claimed: set<nat>, filled: map<nat, (nat, bool)>, taken: map<nat, nat>,
                         prio: map<nat, nat>, byPriority: bool, receivers: seq<nat>, woken: set<nat>,
                         linked: multiset<nat>, popped: multiset<nat>, dropped: multiset<nat>)

  datatype Step =
    | DoClaim                          // first section of rt_mq_send and rt_mq_urgent
    | DoFill(x: nat, v: nat, urgent: bool)
    | DoLink(x: nat)                   // second section
    | DoRecv(t: nat, wait: bool)       // one pass through the loop of rt_mq_recv, and its first section
    | DoFree(x: nat)                   // its second section
    | DoTimeOut(t: nat)
    | DoReset

  // ---------------------------------------------------------------- the invariant

  /** Every slot is in exactly one place: on the free list, in the queue, or in flight in one of three ways. */
  ghost predicate Slots(s: State) {
    && s.m.next.Keys == s.place.Keys
    && (forall x :: x in s.freeList <==> At(s, x, Free)) && (forall x :: x in s.queued <==> At(s, x, Queued))
    && (forall x :: x in s.claimed <==> At(s, x, Claimed)) && (forall x :: x in s.filled <==> At(s, x, Filled))
    && (forall x :: x in s.taken <==> At(s, x, Taken))
  }

  predicate At(s: State, x: nat, p: Place) { x in s.place && s.place[x] == p }

  function InFlight(s: State): nat { |s.claimed| + |s.filled| + |s.taken| }

  /** What is in flight is not disturbed. */
  ghost predicate FlightOk(s: State) {
    && (forall x :: x in s.filled ==> x in s.m.text && s.m.text[x] == s.filled[x].0)
    && (forall x :: x in s.filled && !s.filled[x].1 ==> x in s.m.next && s.m.next[x] == None)
    && (forall x :: x in s.taken ==> x in s.m.text && s.m.text[x] == s.taken[x])
  }

  ghost predicate WaitOk(s: State) {
    && Known(s.receivers, s.prio) && Distinct(s.receivers) && (forall t :: t in s.receivers ==> t !in s.woken)
    && (s.byPriority ==> Sorted(s.receivers, s.prio))
    && (s.receivers != [] ==> s.m.entry <= |s.woken|)
  }

  ghost predicate Inv(s: State) {
    && ListsOk(s.m, s.freeList, s.queued) && Slots(s) && FlightOk(s) && WaitOk(s)
    && |s.freeList| + s.m.entry + InFlight(s) == s.max
    && s.linked == s.popped + s.dropped + multiset(Messages(s.m, s.queued))
  }

  predicate Enabled(s: State, e: Step) {
    match e
    case DoClaim => true
    case DoFill(x, _, _) => x in s.claimed
    case DoLink(x) => x in s.filled
    case DoRecv(t, _) => t in s.prio && t !in s.receivers
    case DoFree(x) => x in s.taken
    case DoTimeOut(t) => t in s.receivers
    case DoReset => true
  }

  // ---------------------------------------------------------------- the steps

  ghost function Claim(s: State): State
    requires Inv(s)
  {
    PopFreeOk(s.m, s.freeList, s.queued);
    if s.m.free.None? then s
    else s.(m := PopFree(s.m), freeList := s.freeList[1..], claimed := s.claimed + {s.m.free.value},
              place := s.place[s.m.free.value := Claimed])
  }

  function FillSlot(s: State, x: nat, v: nat, urgent: bool): State {
    s.(m := Fill(s.m, x, v, urgent), claimed := s.claimed - {x}, filled := s.filled[x := (v, urgent)],
       place := s.place[x := Filled])
  }

  ghost function LinkSlot(s: State, x: nat): State
    requires Inv(s) && x in s.filled
  {
    LinkOk(s.m, s.freeList, s.queued, x, s.filled[x].1);
    var (v, urgent) := s.filled[x];
    s.(m := Link(s.m, x, urgent), queued := if urgent then [x] + s.queued else s.queued + [x], filled := s.filled - {x},
       place := s.place[x := Queued], linked := s.linked + multiset{v},
       receivers := if s.receivers == [] then [] else s.receivers[1..],
       woken := if s.receivers == [] then s.woken else s.woken + {s.receivers[0]})
  }

  ghost function Recv(s: State, t: nat, wait: bool): State
    requires Inv(s) && t in s.prio
  {
    PopHeadOk(s.m, s.freeList, s.queued);
    if s.m.entry == 0 then
      if wait then s.(woken := s.woken - {t}, receivers := Enqueue(s.receivers, t, s.prio, s.byPriority))
      else s.(woken := s.woken - {t})
    else
      var x := s.m.head.value;
      s.(m := PopHead(s.m), queued := s.queued[1..], taken := s.taken[x := s.m.text[x]], woken := s.woken - {t},
         place := s.place[x := Taken], popped := s.popped + multiset{s.m.text[x]})
  }

  function FreeSlot(s: State, x: nat): State {
    s.(m := PushFree(s.m, x), freeList := [x] + s.freeList, taken := s.taken - {x}, place := s.place[x := Free])
  }

  ghost function ResetAll(s: State): State
    requires Inv(s)
  {
    s.(m := Drain(s.m, |s.queued|).(entry := 0), freeList := Reversed(s.queued) + s.freeList, queued := [], receivers := [],
       place := map x | x in s.place :: if s.place[x] == Queued then Free else s.place[x],
       dropped := s.dropped + multiset(Messages(s.m, s.queued)))
  }

  ghost function Do(s: State, e: Step): State
    requires Inv(s) && Enabled(s, e)
  {
    match e
    case DoClaim => Claim(s)
    case DoFill(x, v, urgent) => FillSlot(s, x, v, urgent)
    case DoLink(x) => LinkSlot(s, x)
    case DoRecv(t, wait) => Recv(s, t, wait)
    case DoFree(x) => FreeSlot(s, x)
    case DoTimeOut(t) => s.(receivers := Purge(s.receivers, t))
    case DoReset => ResetAll(s)
  }

  // ---------------------------------------------------------------- every step keeps it

  lemma ClaimKeeps(s: State)
    requires Inv(s)
    ensures Inv(Claim(s))
  {
    hide WaitOk, ListsOk, Slots, FlightOk;
    PopFreeOk(s.m, s.freeList, s.queued);
    if s.freeList != [] {
      ClaimRest(s);
      assert Messages(Claim(s).m, s.queued) == Messages(s.m, s.queued);
    }
  }

  lemma ClaimRest(s: State)
    requires Inv(s) && s.freeList != []
    ensures Slots(Claim(s)) && FlightOk(Claim(s)) && WaitOk(Claim(s)) && |Claim(s).claimed| == |s.claimed| + 1
  {
    PopFreeOk(s.m, s.freeList, s.queued);
    hide ListsOk, WaitOk, Slots, FlightOk;
    Split(s.freeList);
    SameWait(s, Claim(s));
    ClaimSlots(s, Claim(s), s.freeList[0]);
  }

  /** Slot x leaves the free list for a sender. */
  lemma ClaimSlots(s: State, r: State, x: nat)
    requires Slots(s) && FlightOk(s) && x in s.freeList
    requires x !in r.freeList && forall y :: y in s.freeList <==> y in r.freeList || y == x
    requires r.place == s.place[x := Claimed] && r.queued == s.queued && r.claimed == s.claimed + {x}
    requires r.filled == s.filled && r.taken == s.taken && r.m.next == s.m.next && r.m.text == s.m.text
    ensures Slots(r) && FlightOk(r) && |r.claimed| == |s.claimed| + 1
  {
    assert At(s, x, Free);
    assert x !in s.claimed;
  }

  lemma SameWait(s: State, r: State)
    requires WaitOk(s) && r.receivers == s.receivers && r.prio == s.prio && r.woken == s.woken && r.byPriority == s.byPriority
    requires r.m.entry <= s.m.entry
    ensures WaitOk(r)
  {
  }

  lemma Split(q: seq<nat>)
    requires q != []
    ensures forall x :: x in q <==> x == q[0] || x in q[1..]
  {
    assert q == [q[0]] + q[1..];
  }

  lemma FillKeeps(s: State, x: nat, v: nat, urgent: bool)
    requires Inv(s) && x in s.claimed
    ensures Inv(FillSlot(s, x, v, urgent))
  {
    hide WaitOk, ListsOk, FlightOk, Chain, Slots;
    ClaimedPlace(s, x);
    FillOk(s.m, s.freeList, s.queued, x, v, urgent);
    MapGrows(s.filled, x, (v, urgent));
    SameWait(s, FillSlot(s, x, v, urgent));
    FillFlight(s, x, v, urgent);
  }

  lemma ClaimedPlace(s: State, x: nat)
    requires Slots(s) && x in s.claimed
    ensures x !in s.freeList && x !in s.queued && x !in s.filled && x in s.m.next
    ensures forall v, u :: Slots(FillSlot(s, x, v, u))
  {
    assert At(s, x, Claimed);
    forall v, u ensures Slots(FillSlot(s, x, v, u)) {}
  }

  lemma FillFlight(s: State, x: nat, v: nat, urgent: bool)
    requires FlightOk(s) && Slots(s) && x in s.claimed
    ensures FlightOk(FillSlot(s, x, v, urgent))
  {
    assert At(s, x, Claimed);
  }

  lemma MapGrows<T>(m: map<nat, T>, x: nat, v: T)
    requires x !in m
    ensures |m[x := v]| == |m| + 1
  {
    assert m[x := v].Keys == m.Keys + {x};
    assert |m| == |m.Keys| && |m[x := v]| == |m[x := v].Keys|;
  }

  lemma MapShrinks<T>(m: map<nat, T>, x: nat)
    requires x in m
    ensures |m - {x}| == |m| - 1
  {
    assert (m - {x}).Keys == m.Keys - {x};
    assert |m| == |m.Keys| && |m - {x}| == |(m - {x}).Keys|;
  }

  lemma LinkKeeps(s: State, x: nat)
    requires Inv(s) && x in s.filled
    ensures Inv(LinkSlot(s, x))
  {
    hide WaitOk, ListsOk, Slots, FlightOk, Chain, Messages;
    LinkFacts(s, x);
    LinkOk(s.m, s.freeList, s.queued, x, s.filled[x].1);
    MapShrinks(s.filled, x);
    var r := LinkSlot(s, x);
    OneMore(Messages(s.m, s.queued), s.filled[x].0, s.filled[x].1);
    WakeKeeps(s, r);
    LinkRest(s, x);
  }

  lemma OneMore(q: seq<nat>, v: nat, urgent: bool)
    ensures multiset(if urgent then [v] + q else q + [v]) == multiset(q) + multiset{v}
  {
  }

  lemma LinkFacts(s: State, x: nat)
    requires Slots(s) && FlightOk(s) && x in s.filled
    ensures x !in s.freeList && x !in s.queued && x in s.m.next && x in s.m.text && s.m.text[x] == s.filled[x].0
    ensures !s.filled[x].1 ==> s.m.next[x] == None
  {
    assert At(s, x, Filled);
  }

  lemma LinkRest(s: State, x: nat)
    requires Inv(s) && x in s.filled
    ensures Slots(LinkSlot(s, x)) && FlightOk(LinkSlot(s, x))
  {
    hide ListsOk, WaitOk, Slots, FlightOk, Link;
    LinkFacts(s, x);
    QueueEnds(s);
    LinkNext(s.m, s.queued, x, s.filled[x].1);
    LinkSlots(s, LinkSlot(s, x), x);
  }

  lemma QueueEnds(s: State)
    requires ListsOk(s.m, s.freeList, s.queued)
    ensures Chain(s.m.next, s.m.head, s.queued) && s.m.tail == Last(s.queued)
  {
  }

  /** A filled slot becomes part of the queue. */
  lemma LinkSlots(s: State, r: State, x: nat)
    requires Slots(s) && FlightOk(s) && x in s.filled && r.place == s.place[x := Queued]
    requires r.freeList == s.freeList && r.claimed == s.claimed && r.taken == s.taken && r.filled == s.filled - {x}
    requires forall y :: y in r.queued <==> y in s.queued || y == x
    requires r.m.text == s.m.text && r.m.next.Keys == s.m.next.Keys
    requires forall y :: y in s.m.next && y != x && y !in s.queued ==> y in r.m.next && r.m.next[y] == s.m.next[y]
    ensures Slots(r) && FlightOk(r)
  {
    assert At(s, x, Filled);
    forall y | y in r.filled || y in r.taken ensures y !in s.queued && y != x && y in s.m.next {
      assert At(s, y, Filled) || At(s, y, Taken);
    }
  }

  lemma LinkNext(m: Queue, queued: seq<nat>, x: nat, urgent: bool)
    requires Chain(m.next, m.head, queued) && m.tail == Last(queued) && x in m.next
    ensures m.tail.Some? ==> m.tail.value in m.next && m.tail.value in queued
    ensures Link(m, x, urgent).text == m.text
    ensures forall y :: y in m.next && y != x && y !in queued ==> y in Link(m, x, urgent).next && Link(m, x, urgent).next[y] == m.next[y]
    ensures Link(m, x, urgent).next.Keys == m.next.Keys
  {
    if queued != [] { assert LinkAt(m.next, queued, |queued| - 1); }
  }

  /** One message more and, if somebody waits, one woken receiver more. */
  lemma WakeKeeps(s: State, r: State)
    requires WaitOk(s) && r.prio == s.prio && r.byPriority == s.byPriority && r.m.entry == s.m.entry + 1
    requires r.receivers == if s.receivers == [] then [] else s.receivers[1..]
    requires r.woken == if s.receivers == [] then s.woken else s.woken + {s.receivers[0]}
    ensures WaitOk(r)
  {
    if s.receivers != [] {
      TailKeeps(s.receivers, s.prio);
      assert s.receivers[0] in s.receivers;
    }
  }

  lemma RecvKeeps(s: State, t: nat, wait: bool)
    requires Inv(s) && t in s.prio && t !in s.receivers
    ensures Inv(Recv(s, t, wait))
  {
    hide WaitOk, Slots, FlightOk, Chain, Enqueue, Messages;
    PopHeadOk(s.m, s.freeList, s.queued);
    var r := Recv(s, t, wait);
    WaitKeeps(s, t, wait);
    if s.m.entry > 0 {
      OneFewer(Messages(s.m, s.queued), s.m.text[s.queued[0]], Messages(r.m, r.queued));
      RecvRest(s, t, wait);
    } else {
      SameSlots(s, r);
    }
  }

  lemma OneFewer(q: seq<nat>, v: nat, r: seq<nat>)
    requires q == [v] + r
    ensures multiset(q) == multiset{v} + multiset(r)
  {
  }

  lemma SameSlots(s: State, r: State)
    requires Slots(s) && FlightOk(s) && r.m == s.m && r.place == s.place && r.freeList == s.freeList && r.queued == s.queued
    requires r.claimed == s.claimed && r.filled == s.filled && r.taken == s.taken
    ensures Slots(r) && FlightOk(r)
  {
  }

  lemma RecvRest(s: State, t: nat, wait: bool)
    requires Inv(s) && t in s.prio && s.m.entry > 0
    ensures var r := Recv(s, t, wait); Slots(r) && FlightOk(r) && |r.taken| == |s.taken| + 1
  {
    PopHeadOk(s.m, s.freeList, s.queued);
    assert s.queued != [];
    hide ListsOk, WaitOk, Slots, FlightOk;
    Split(s.queued);
    RecvSlots(s, Recv(s, t, wait), s.queued[0]);
  }

  /** The first slot of the queue passes to a receiver. */
  lemma RecvSlots(s: State, r: State, x: nat)
    requires Slots(s) && FlightOk(s) && x in s.queued && x in s.m.text && r.place == s.place[x := Taken]
    requires x !in r.queued && forall y :: y in s.queued <==> y in r.queued || y == x
    requires r.freeList == s.freeList && r.claimed == s.claimed && r.filled == s.filled
    requires r.taken == s.taken[x := s.m.text[x]] && r.m.next == s.m.next && r.m.text == s.m.text
    ensures Slots(r) && FlightOk(r) && |r.taken| == |s.taken| + 1
  {
    assert At(s, x, Queued);
    MapGrows(s.taken, x, s.m.text[x]);
  }

  lemma WaitKeeps(s: State, t: nat, wait: bool)
    requires Inv(s) && t in s.prio && t !in s.receivers
    ensures WaitOk(Recv(s, t, wait))
  {
    hide Chain, Slots, FlightOk;
    EnqueueKeeps(s.receivers, t, s.prio, s.byPriority);
    if t in s.woken { assert s.woken == (s.woken - {t}) + {t}; } else { assert s.woken - {t} == s.woken; }
    PopHeadOk(s.m, s.freeList, s.queued);
  }

  lemma FreeKeeps(s: State, x: nat)
    requires Inv(s) && x in s.taken
    ensures Inv(FreeSlot(s, x))
  {
    hide WaitOk, ListsOk, FlightOk, Chain;
    assert At(s, x, Taken);
    PushFreeOk(s.m, s.freeList, s.queued, x);
    MapShrinks(s.taken, x);
    SameWait(s, FreeSlot(s, x));
    FreeFlight(s, x);
  }

  lemma TakenPlace(s: State, x: nat)
    requires Slots(s) && FlightOk(s) && x in s.taken
    ensures x !in s.freeList && x !in s.queued && x in s.m.text && s.m.text[x] == s.taken[x]
  {
    assert At(s, x, Taken);
  }

  lemma FreeFlight(s: State, x: nat)
    requires FlightOk(s) && Slots(s) && x in s.taken
    ensures FlightOk(FreeSlot(s, x))
  {
    assert At(s, x, Taken);
  }

  lemma ResetKeeps(s: State)
    requires Inv(s)
    ensures Inv(ResetAll(s))
  {
    hide WaitOk, Slots, FlightOk, Chain;
    assert s.m.(entry := |s.queued|) == s.m;
    DrainOk(s.m, s.freeList, s.queued);
    DrainNext(s.m, s.freeList, s.queued);
    ReversedIs(s.queued);
    var r := ResetAll(s);
    assert Messages(r.m, r.queued) == [];
    ResetRest(s, r);
  }

  lemma ResetRest(s: State, r: State)
    requires Slots(s) && FlightOk(s) && r.queued == [] && r.receivers == [] && r.claimed == s.claimed
    requires r.filled == s.filled && r.taken == s.taken && r.m.text == s.m.text
    requires r.place == map x | x in s.place :: if s.place[x] == Queued then Free else s.place[x]
    requires forall x :: x in r.freeList <==> x in s.queued || x in s.freeList
    requires r.m.next.Keys == s.m.next.Keys && forall y :: y in s.m.next && y !in s.queued ==> r.m.next[y] == s.m.next[y]
    ensures Slots(r) && FlightOk(r) && WaitOk(r)
  {
    forall x | x in s.filled ensures x !in s.queued { assert At(s, x, Filled); }
    forall x ensures x in r.freeList <==> At(r, x, Free) { assert At(r, x, Free) <==> At(s, x, Free) || At(s, x, Queued); }
    forall x ensures At(r, x, Claimed) <==> At(s, x, Claimed) {}
    forall x ensures At(r, x, Filled) <==> At(s, x, Filled) {}
    forall x ensures At(r, x, Taken) <==> At(s, x, Taken) {}
  }

  lemma {:induction false} ReversedIs(q: seq<nat>)
    ensures |Reversed(q)| == |q| && forall x :: x in Reversed(q) <==> x in q
  {
    if q != [] { ReversedIs(q[1..]); Split(q); }
  }

  /** Only the slots of the queue are written. */
  lemma {:induction false} DrainNext(m: Queue, freeList: seq<nat>, queued: seq<nat>)
    requires ListsOk(m.(entry := |queued|), freeList, queued)
    ensures Drain(m, |queued|).next.Keys == m.next.Keys
    ensures forall y :: y in m.next && y !in queued ==> Drain(m, |queued|).next[y] == m.next[y]
    decreases |queued|
  {
    if queued != [] {
      var x := queued[0];
      Split(queued);
      PopHeadOk(m.(entry := |queued|), freeList, queued);
      var m1 := PopHead(m.(entry := |queued|));
      PushFreeOk(m1, freeList, queued[1..], x);
      var m2 := PushFree(m.(head := m.next[x], tail := if m.tail == m.head then None else m.tail), x);
      assert m2.(entry := |queued[1..]|) == PushFree(m1, x);
      DrainNext(m2, [x] + freeList, queued[1..]);
    }
  }

  lemma StepKeeps(s: State, e: Step)
    requires Inv(s) && Enabled(s, e)
    ensures Inv(Do(s, e))
  {
    match e
    case DoClaim => ClaimKeeps(s);
    case DoFill(x, v, urgent) => FillKeeps(s, x, v, urgent);
    case DoLink(x) => LinkKeeps(s, x);
    case DoRecv(t, wait) => RecvKeeps(s, t, wait);
    case DoFree(x) => FreeKeeps(s, x);
    case DoTimeOut(t) => LeaveKeeps(s.receivers, t, s.prio);
    case DoReset => ResetKeeps(s);
  }

  // ---------------------------------------------------------------- what the queue promises

  /** The messages are a double-ended queue: linking appends, or prepends when urgent, and receiving pops the first; the
      payload a receiver copies out is the one that was linked. */
  lemma DequeSteps(s: State, e: Step)
    requires Inv(s) && Enabled(s, e) && Inv(Do(s, e))
    ensures var a, b := Messages(s.m, s.queued), Messages(Do(s, e).m, Do(s, e).queued);
      match e
      case DoLink(x) => b == if s.filled[x].1 then [s.filled[x].0] + a else a + [s.filled[x].0]
      case DoRecv(t, wait) =>
        if s.m.entry == 0 then a == b == []
        else a != [] && b == a[1..] && s.queued[0] in Do(s, e).taken && Do(s, e).taken[s.queued[0]] == a[0]
      case DoFree(x) => a == b && x in s.m.text && s.m.text[x] == s.taken[x]
      case DoReset => b == []
      case _ => a == b
  {
    hide Sorted, Known, Chain, Distinct, Slots, FlightOk, WaitOk;
    match e
    case DoClaim => PopFreeOk(s.m, s.freeList, s.queued);
    case DoFill(x, v, urgent) =>
      ClaimedPlace(s, x);
      FillOk(s.m, s.freeList, s.queued, x, v, urgent);
    case DoLink(x) =>
      LinkFacts(s, x);
      LinkOk(s.m, s.freeList, s.queued, x, s.filled[x].1);
    case DoRecv(t, wait) => PopHeadOk(s.m, s.freeList, s.queued);
    case DoFree(x) =>
      TakenPlace(s, x);
      PushFreeOk(s.m, s.freeList, s.queued, x);
    case DoTimeOut(t) =>
    case DoReset =>
  }

  ghost predicate Run(s: State, es: seq<Step>, r: State)
    requires Inv(s)
    decreases |es|
  {
    if es == [] then s == r
    else if !Enabled(s, es[0]) then false
    else
      StepKeeps(s, es[0]);
      Run(Do(s, es[0]), es[1..], r)
  }

  lemma {:induction false} RunKeepsInv(s: State, es: seq<Step>, r: State)
    requires Inv(s) && Run(s, es, r)
    ensures Inv(r)
    decreases |es|
  {
    if es != [] {
      StepKeeps(s, es[0]);
      RunKeepsInv(Do(s, es[0]), es[1..], r);
    }
  }

  /** The slots in the order rt_mq_init strings them together: the last one first. */
  function Countdown(n: nat): (q: seq<nat>)
    ensures |q| == n && forall i :: 0 <= i < n ==> q[i] == n - 1 - i
  {
    if n == 0 then [] else [n - 1] + Countdown(n - 1)
  }

  /** Slot 0 ends the list. */
  function FirstNext(x: nat): Ptr { if x == 0 then None else Some(x - 1) }

  predicate Initial(s: State) {
    && s.freeList == Countdown(s.max) && s.queued == [] && s.claimed == {} && s.filled == map[] && s.taken == map[]
    && s.m == Queue(map x | x in s.freeList :: FirstNext(x), map[], First(s.freeList), None, None, 0)
    && s.place == (map x | x in s.freeList :: FirstPlace(x))
    && s.receivers == [] && s.woken == {} && s.linked == s.popped == s.dropped == multiset{}
  }

  function FirstPlace(x: nat): Place { Free }

  lemma InitialInv(s: State)
    requires Initial(s)
    ensures Inv(s)
  {
    forall i | 0 <= i < s.max ensures LinkAt(s.m.next, s.freeList, i) { assert s.freeList[i] in s.freeList; }
    assert Messages(s.m, s.queued) == [];
    assert s.m.next.Keys == s.place.Keys;
  }

  /** At every interleaving: the slots add up, head and tail agree with the queue, no linked message is lost or
      duplicated except by resets, and no receiver sleeps while messages outnumber the woken receivers. */
  lemma Conserved(s: State, es: seq<Step>, r: State)
    requires Initial(s) && (InitialInv(s); Run(s, es, r))
    ensures Slots(r) && |r.freeList| + r.m.entry + InFlight(r) == r.max
    ensures (r.m.head == None <==> r.queued == []) && (r.m.tail == None <==> r.queued == []) && r.m.entry == |r.queued|
    ensures (forall x :: x in r.queued ==> x in r.m.text)
            && r.linked == r.popped + r.dropped + multiset(Messages(r.m, r.queued))
    ensures r.receivers != [] ==> r.m.entry <= |r.woken|
  {
    InitialInv(s);
    RunKeepsInv(s, es, r);
  }
}
