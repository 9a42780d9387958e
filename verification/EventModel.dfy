/** ipc.c: event flags, as a step system. */
module EventModel {
  // Threads wait for all or for any of some events; sending hands events to the waiters in queue order and may clear
  // them on the way.

  import opened Seqs
  import opened Wrappers
  import opened WaitQueue

  /** A word of event flags, as the set of its bits: `|` is union, `&` intersection, `& ~` difference. */
  type Flags = set<nat>

  /** What a thread waits for: `event_set`, and the option bits AND, OR and CLEAR of `event_info`. */
  datatype Wish = Wish(want: Flags, all: bool, any: bool, clear: bool)

  /** `struct rt_event` with the event fields of the threads. */
  datatype Event = Event(flags: Flags, queue: seq<nat>, wishes: map<nat, Wish>)

  predicate Satisfied(flags: Flags, w: Wish) {
    if w.all then flags * w.want == w.want else w.any && flags * w.want != {}
  }

  /** rt_event_recv insists on an event and on one of the two modes. */
  predicate ValidWish(w: Wish) { w.want != {} && (w.all || w.any) }

  /** The immediate branch of rt_event_recv: what is received, and the flags that stay. */
  function Receive(flags: Flags, w: Wish): Option<(Flags, Flags)> {
    if !Satisfied(flags, w) then None
    else Some((flags * w.want, if w.clear then flags - w.want else flags))
  }

  // ---------------------------------------------------------------- rt_event_send, as coded

  /** The thread's event_set after the loop has looked at it: an OR wish keeps only what arrived. */
  function Narrowed(flags: Flags, w: Wish): Wish { if w.all then w else w.(want := w.want * flags) }

  /** The loop over the waiters from position k on.  The threads it resumes are the last result, in order. */
  function SendFrom(e: Event, k: nat): (Event, seq<nat>)
    requires forall t :: t in e.queue ==> t in e.wishes
    decreases |e.queue| - k
  {
    if k >= |e.queue| then (e, [])
    else
      var t := e.queue[k];
      if !Satisfied(e.flags, e.wishes[t]) then SendFrom(e, k + 1)
      else
        var (r, woken) := SendFrom(Served(e, k), k);
        (r, [t] + woken)
  }

  /** The waiter at position k gets its events, which may clear them, and leaves the queue. */
  function Served(e: Event, k: nat): Event
    requires k < |e.queue| && e.queue[k] in e.wishes
  {
    var w := Narrowed(e.flags, e.wishes[e.queue[k]]);
    Event(if w.clear then e.flags - w.want else e.flags, e.queue[..k] + e.queue[k + 1..], e.wishes[e.queue[k] := w])
  }

  /** rt_event_send; false is the error return. */
  function Send(e: Event, bits: Flags): (Event, seq<nat>, bool)
    requires forall t :: t in e.queue ==> t in e.wishes
  {
    if bits == {} then (e, [], false)
    else
      var (r, woken) := SendFrom(e.(flags := e.flags + bits), 0);
      (r, woken, true)
  }

  // ---------------------------------------------------------------- the reference: everybody receives in turn

  /** Run the immediate branch of rt_event_recv for each waiter in queue order. */
  function Deliver(flags: Flags, q: seq<nat>, wishes: map<nat, Wish>): (Flags, seq<nat>, seq<(nat, Flags)>)
    requires forall t :: t in q ==> t in wishes
  {
    if q == [] then (flags, [], [])
    else match Receive(flags, wishes[q[0]])
      case None => var (f, rest, got) := Deliver(flags, q[1..], wishes); (f, [q[0]] + rest, got)
      case Some(x) => var (f, rest, got) := Deliver(x.1, q[1..], wishes); (f, rest, [(q[0], x.0)] + got)
  }

  /** For one satisfied waiter the loop and the immediate branch agree. */
  lemma SameRule(flags: Flags, w: Wish)
    requires Satisfied(flags, w)
    ensures Receive(flags, w) == Some((Narrowed(flags, w).want,
              if w.clear then flags - Narrowed(flags, w).want else flags))
  {
    assert flags - (w.want * flags) == flags - w.want;
    assert w.want * flags == flags * w.want;
  }

  function Threads(got: seq<(nat, Flags)>): seq<nat> { if got == [] then [] else [got[0].0] + Threads(got[1..]) }

  /** Each thread in `got` finds what it received in its event_set. */
  predicate Told(got: seq<(nat, Flags)>, wishes: map<nat, Wish>) {
    forall i :: 0 <= i < |got| ==> got[i].0 in wishes && wishes[got[i].0].want == got[i].1
  }

  /** The loop from position k on does what delivering to the waiters behind k does. */
  ghost predicate Agrees(e: Event, k: nat)
    requires (forall t :: t in e.queue ==> t in e.wishes) && k <= |e.queue|
  {
    var (r, woken) := SendFrom(e, k);
    var (f, rest, got) := Deliver(e.flags, e.queue[k..], e.wishes);
    && r.flags == f && r.queue == e.queue[..k] + rest && woken == Threads(got) && Told(got, r.wishes)
    && r.wishes.Keys == e.wishes.Keys && (forall t :: t in e.wishes && t !in woken ==> r.wishes[t] == e.wishes[t])
    && (forall t :: t in woken ==> t in e.queue[k..])
  }

  lemma {:induction false} SendIsDeliver(e: Event, k: nat)
    requires (forall t :: t in e.queue ==> t in e.wishes) && Distinct(e.queue) && k <= |e.queue|
    ensures Agrees(e, k)
    decreases |e.queue| - k
  {
    hide Satisfied, Narrowed, Agrees, Distinct;
    if k == |e.queue| {
      AgreesAtEnd(e);
    } else if !Satisfied(e.flags, e.wishes[e.queue[k]]) {
      SendIsDeliver(e, k + 1);
      AgreesSkip(e, k);
    } else {
      Shorter(e, k, Served(e, k));
      SendIsDeliver(Served(e, k), k);
      AgreesServe(e, k);
    }
  }

  lemma AgreesAtEnd(e: Event)
    requires forall t :: t in e.queue ==> t in e.wishes
    ensures Agrees(e, |e.queue|)
  {
    assert e.queue[|e.queue|..] == [] && e.queue[..|e.queue|] + [] == e.queue;
  }

  lemma AgreesSkip(e: Event, k: nat)
    requires (forall t :: t in e.queue ==> t in e.wishes) && k < |e.queue| && !Satisfied(e.flags, e.wishes[e.queue[k]])
    requires Agrees(e, k + 1)
    ensures Agrees(e, k)
  {
    hide Satisfied;
    var q := e.queue[k..];
    assert q[0] == e.queue[k] && q[1..] == e.queue[k + 1..];
    var rest := Deliver(e.flags, q[1..], e.wishes).1;
    assert e.queue[..k + 1] + rest == e.queue[..k] + ([q[0]] + rest);
    assert Deliver(e.flags, q, e.wishes).1 == [q[0]] + rest;
    assert forall t :: t in e.queue[k + 1..] ==> t in q;
  }

  lemma AgreesServe(e: Event, k: nat)
    requires (forall t :: t in e.queue ==> t in e.wishes) && Distinct(e.queue) && k < |e.queue|
    requires Satisfied(e.flags, e.wishes[e.queue[k]]) && (forall t :: t in Served(e, k).queue ==> t in e.wishes)
    requires k <= |Served(e, k).queue| && Agrees(Served(e, k), k)
    ensures Agrees(e, k)
  {
    var t, e1 := e.queue[k], Served(e, k);
    Shorter(e, k, e1);
    DeliverServed(e, k);
    hide Satisfied, Narrowed, Receive, Distinct, Deliver, Served;
    var got := Deliver(e.flags, e.queue[k..], e.wishes).2;
    var more := Deliver(e1.flags, e1.queue[k..], e1.wishes).2;
    ToldMore(got, more, SendFrom(e1, k).0.wishes, t, e1.wishes[t]);
  }

  lemma DeliverServed(e: Event, k: nat)
    requires (forall t :: t in e.queue ==> t in e.wishes) && Distinct(e.queue) && k < |e.queue|
    requires Satisfied(e.flags, e.wishes[e.queue[k]])
    ensures var e1 := Served(e, k);
      && k <= |e1.queue| && e.queue[k] in e1.wishes && (forall t :: t in e1.queue[k..] ==> t in e1.wishes && t in e.queue[k..])
      && e1.wishes.Keys == e.wishes.Keys && (forall t :: t in e.wishes && t != e.queue[k] ==> e1.wishes[t] == e.wishes[t])
      && Deliver(e.flags, e.queue[k..], e.wishes)
         == (var (f, rest, got) := Deliver(e1.flags, e1.queue[k..], e1.wishes);
             (f, rest, [(e.queue[k], e1.wishes[e.queue[k]].want)] + got))
  {
    var q, t, e1 := e.queue[k..], e.queue[k], Served(e, k);
    Shorter(e, k, e1);
    SameRule(e.flags, e.wishes[t]);
    hide Satisfied, Narrowed, Receive;
    assert q[0] == t && q[1..] == e1.queue[k..];
    assert t !in q[1..];
    SameWishes(e1.flags, q[1..], e.wishes, e1.wishes);
  }

  lemma Shorter(e: Event, k: nat, e1: Event)
    requires Distinct(e.queue) && k < |e.queue| && e1.queue == e.queue[..k] + e.queue[k + 1..]
    ensures Distinct(e1.queue) && e1.queue[k..] == e.queue[k + 1..] && e1.queue[..k] == e.queue[..k]
    ensures e.queue[k] !in e1.queue && (forall t :: t in e1.queue ==> t in e.queue)
  {
    assert forall i :: 0 <= i < |e1.queue| ==> e1.queue[i] == e.queue[if i < k then i else i + 1];
  }

  /** Delivery reads only the wishes of those in the queue. */
  lemma {:induction false} SameWishes(flags: Flags, q: seq<nat>, a: map<nat, Wish>, b: map<nat, Wish>)
    requires forall t :: t in q ==> t in a && t in b && a[t] == b[t]
    ensures Deliver(flags, q, a) == Deliver(flags, q, b)
  {
    if q != [] {
      assert q[0] in q;
      match Receive(flags, a[q[0]])
      case None => SameWishes(flags, q[1..], a, b);
      case Some(x) => SameWishes(x.1, q[1..], a, b);
    }
  }

  lemma ToldMore(got: seq<(nat, Flags)>, more: seq<(nat, Flags)>, wishes: map<nat, Wish>, t: nat, w: Wish)
    requires got == [(t, w.want)] + more && Told(more, wishes) && t in wishes && wishes[t].want == w.want
    ensures Told(got, wishes) && Threads(got) == [t] + Threads(more)
  {
    assert got[1..] == more;
  }

  // ---------------------------------------------------------------- who still waits

  /** Events only go away while they are handed out, and whoever is left is left for a reason. */
  lemma {:induction false} LeftUnsatisfied(flags: Flags, q: seq<nat>, wishes: map<nat, Wish>)
    requires forall t :: t in q ==> t in wishes
    ensures var (f, rest, got) := Deliver(flags, q, wishes);
      f <= flags && forall t :: t in rest ==> t in q && !Satisfied(f, wishes[t])
  {
    if q != [] {
      assert q[0] in q;
      match Receive(flags, wishes[q[0]])
      case None =>
        LeftUnsatisfied(flags, q[1..], wishes);
        StaysUnsatisfied(flags, Deliver(flags, q[1..], wishes).0, wishes[q[0]]);
      case Some(x) => LeftUnsatisfied(x.1, q[1..], wishes);
    }
  }

  lemma StaysUnsatisfied(a: Flags, b: Flags, w: Wish)
    requires b <= a && !Satisfied(a, w)
    ensures !Satisfied(b, w)
  {
    if w.all {
      assert b * w.want == w.want ==> a * w.want == w.want;
    } else {
      assert b * w.want <= a * w.want;
    }
  }

  lemma {:induction false} RestInOrder(flags: Flags, q: seq<nat>, wishes: map<nat, Wish>, prio: map<nat, nat>)
    requires (forall t :: t in q ==> t in wishes) && Known(q, prio) && Distinct(q)
    ensures var rest := Deliver(flags, q, wishes).1;
      Known(rest, prio) && Distinct(rest) && (Sorted(q, prio) ==> Sorted(rest, prio)) && forall t :: t in rest ==> t in q
  {
    if q != [] {
      TailKeeps(q, prio);
      assert q[0] in q;
      match Receive(flags, wishes[q[0]])
      case None =>
        RestInOrder(flags, q[1..], wishes, prio);
        ConsKeeps(q[0], Deliver(flags, q[1..], wishes).1, prio);
      case Some(x) => RestInOrder(x.1, q[1..], wishes, prio);
    }
  }

  // ---------------------------------------------------------------- the object over time

  datatype State = State(e: Event, prio: map<nat, nat>, byPriority: bool)

  datatype Code = Got(bits: Flags) | TimedOut | Refused | Blocked

  /** rt_event_recv, up to the point where the caller has its events, gives up or is suspended. */
  function Recv(s: State, t: nat, w: Wish, wait: bool): (Event, Code)
    requires Known(s.e.queue, s.prio) && t in s.prio
  {
    if w.want == {} then (s.e, Refused)
    else match Receive(s.e.flags, w)
      case Some(x) => (s.e.(flags := x.1), Got(x.0))
      case None =>
        if !wait then (s.e, TimedOut)
        else (s.e.(queue := Enqueue(s.e.queue, t, s.prio, s.byPriority), wishes := s.e.wishes[t := w]), Blocked)
  }

  /** No suspended thread's condition is met by the flags that are set. */
  ghost predicate Inv(s: State) {
    && Known(s.e.queue, s.prio) && Distinct(s.e.queue) && (s.byPriority ==> Sorted(s.e.queue, s.prio))
    && (forall t :: t in s.e.queue ==> t in s.e.wishes && ValidWish(s.e.wishes[t]) && !Satisfied(s.e.flags, s.e.wishes[t]))
  }

  datatype Step = DoSend(bits: Flags) | DoRecv(t: nat, w: Wish, wait: bool) | DoTimeOut(t: nat) | DoReset

  predicate Enabled(s: State, d: Step) {
    match d
    case DoSend(_) => true
    case DoRecv(t, w, _) => t in s.prio && t !in s.e.queue && (w.all || w.any)
    case DoTimeOut(t) => t in s.e.queue
    case DoReset => true
  }

  ghost function Do(s: State, d: Step): State
    requires Inv(s) && Enabled(s, d)
  {
    match d
    case DoSend(bits) => s.(e := Send(s.e, bits).0)
    case DoRecv(t, w, wait) => s.(e := Recv(s, t, w, wait).0)
    case DoTimeOut(t) => s.(e := s.e.(queue := Purge(s.e.queue, t)))
    case DoReset => s.(e := s.e.(queue := [], flags := {}))
  }

  /** rt_event_send sets the flags and then lets every waiter, in queue order, run the immediate branch of
      rt_event_recv: the same threads go, with the same received events, and the same flags are cleared. */
  lemma SendPromise(s: State, bits: Flags)
    requires Inv(s) && bits != {}
    ensures var (r, woken, ok) := Send(s.e, bits);
      var (f, rest, got) := Deliver(s.e.flags + bits, s.e.queue, s.e.wishes);
      && ok && r.flags == f && r.queue == rest && woken == Threads(got) && Told(got, r.wishes)
      && (forall t :: t in rest ==> t in r.wishes && !Satisfied(f, r.wishes[t]))
    ensures Inv(s.(e := Send(s.e, bits).0))
  {
    var e := s.e.(flags := s.e.flags + bits);
    var (f, rest, got) := Deliver(e.flags, e.queue, e.wishes);
    SendIsDeliver(e, 0);
    assert e.queue[0..] == e.queue && e.queue[..0] + rest == rest;
    LeftUnsatisfied(e.flags, e.queue, e.wishes);
    RestInOrder(e.flags, e.queue, e.wishes, s.prio);
    NotWoken(e.flags, e.queue, e.wishes);
  }

  /** Who stays was not woken. */
  lemma {:induction false} NotWoken(flags: Flags, q: seq<nat>, wishes: map<nat, Wish>)
    requires (forall t :: t in q ==> t in wishes) && Distinct(q)
    ensures var (f, rest, got) := Deliver(flags, q, wishes);
      && (forall t :: t in rest ==> t !in Threads(got)) && (forall t :: t in rest || t in Threads(got) ==> t in q)
  {
    if q != [] {
      assert q[0] in q && Distinct(q[1..]) && q[0] !in q[1..];
      match Receive(flags, wishes[q[0]])
      case None => NotWoken(flags, q[1..], wishes);
      case Some(x) =>
        NotWoken(x.1, q[1..], wishes);
        var more := Deliver(x.1, q[1..], wishes).2;
        assert ([(q[0], x.0)] + more)[1..] == more;
    }
  }

  lemma RecvKeeps(s: State, t: nat, w: Wish, wait: bool)
    requires Inv(s) && Enabled(s, DoRecv(t, w, wait))
    ensures Inv(Do(s, DoRecv(t, w, wait)))
  {
    EnqueueKeeps(s.e.queue, t, s.prio, s.byPriority);
    hide Enqueue, Sorted;
    var r := Do(s, DoRecv(t, w, wait));
    forall u | u in s.e.queue ensures !Satisfied(r.e.flags, s.e.wishes[u]) {
      StaysUnsatisfied(s.e.flags, r.e.flags, s.e.wishes[u]);
    }
  }

  lemma StepKeeps(s: State, d: Step)
    requires Inv(s) && Enabled(s, d)
    ensures Inv(Do(s, d))
  {
    hide Satisfied, Enqueue;
    match d
    case DoSend(bits) => if bits != {} { SendPromise(s, bits); }
    case DoRecv(t, w, wait) => RecvKeeps(s, t, w, wait);
    case DoTimeOut(t) => LeaveKeeps(s.e.queue, t, s.prio);
    case DoReset =>
  }

  ghost predicate Run(s: State, ds: seq<Step>, r: State)
    requires Inv(s)
    decreases |ds|
  {
    if ds == [] then s == r
    else if !Enabled(s, ds[0]) then false
    else
      StepKeeps(s, ds[0]);
      Run(Do(s, ds[0]), ds[1..], r)
  }

  /** After any sequence of sends, receives, time-outs and resets nobody waits for events that are there. */
  lemma {:induction false} NobodyMissesEvents(s: State, ds: seq<Step>, r: State)
    requires Inv(s) && Run(s, ds, r)
    ensures Inv(r) && forall t :: t in r.e.queue ==> t in r.e.wishes && !Satisfied(r.e.flags, r.e.wishes[t])
    decreases |ds|
  {
    if ds != [] {
      StepKeeps(s, ds[0]);
      NobodyMissesEvents(Do(s, ds[0]), ds[1..], r);
    }
  }
}
