/** ipc.c: what rt_event_send and rt_event_recv tell a thread, bit by bit, and which flags are lost by it. */
module EventPromise {
  import opened Wrappers
  import opened Seqs
  import opened WaitQueue
  import opened EventModel

  /** All events of an AND wish are set, or at least one of an OR wish. */
  ghost predicate Met(flags: Flags, w: Wish) {
    if w.all then w.want <= flags else w.any && exists b: nat :: b in w.want && b in flags
  }

  /** A bit is told if and only if it is set and was asked for; so an AND wish that is met is told all it asked for. */
  ghost predicate ExactlyTold(flags: Flags, w: Wish, bits: Flags) {
    && (forall b: nat :: b in bits <==> b in flags && b in w.want)
    && (w.all ==> forall b: nat :: b in w.want ==> b in bits)
  }

  /** A wish with CLEAR takes away the bits that it is told; others take nothing. */
  ghost predicate LeftOver(flags: Flags, w: Wish, bits: Flags, left: Flags) {
    forall b: nat :: b in left <==> b in flags && !(w.clear && b in bits)
  }

  lemma MetIsSatisfied(flags: Flags, w: Wish)
    ensures Met(flags, w) <==> Satisfied(flags, w)
  {
    if w.all {
      assert w.want <= flags <==> flags * w.want == w.want;
    } else if Met(flags, w) {
      var b: nat :| b in w.want && b in flags;
      assert b in flags * w.want;
    } else if flags * w.want != {} {
      var b :| b in flags * w.want;
      assert b in w.want && b in flags;
    }
  }

  lemma ReceiveTells(flags: Flags, w: Wish)
    ensures Receive(flags, w).Some? <==> Met(flags, w)
    ensures Receive(flags, w).Some? ==>
      var (bits, left) := Receive(flags, w).value; ExactlyTold(flags, w, bits) && LeftOver(flags, w, bits, left)
  {
    MetIsSatisfied(flags, w);
  }

  /** rt_event_recv: refused for no events, or told exactly what there is of them, or waiting with just this wish. */
  lemma RecvPromise(s: State, t: nat, w: Wish, wait: bool)
    requires Known(s.e.queue, s.prio) && t in s.prio
    ensures var (r, c) := Recv(s, t, w, wait);
      && (c == Refused <==> w.want == {})
      && (c.Got? <==> w.want != {} && Met(s.e.flags, w))
      && (c == Blocked ==> wait) && (c == TimedOut ==> !wait)
      && (c.Got? ==> ExactlyTold(s.e.flags, w, c.bits) && LeftOver(s.e.flags, w, c.bits, r.flags) && r == s.e.(flags := r.flags))
      && (c == Refused || c == TimedOut ==> r == s.e)
      && (c == Blocked ==> r == Event(s.e.flags, r.queue, s.e.wishes[t := w]) && Joins(s.e.queue, t, s.prio, s.byPriority, r.queue))
  {
    ReceiveTells(s.e.flags, w);
    EnqueueJoins(s.e.queue, t, s.prio, s.byPriority);
    hide Receive, Joins, Enqueue, ExactlyTold, LeftOver, Met;
  }

  /** The waiters of q, in order, with `flags` set before the first: who is met gets exactly what is set at that moment of
      what it asked for, and goes; the others stay.  In the end `left` is set. */
  ghost predicate HandsOut(flags: Flags, q: seq<nat>, wishes: map<nat, Wish>, left: Flags, rest: seq<nat>, got: seq<(nat, Flags)>) {
    if q == [] then left == flags && rest == [] && got == []
    else
      && q[0] in wishes
      && var w := wishes[q[0]];
        if Met(flags, w) then
          && got != [] && got[0].0 == q[0] && ExactlyTold(flags, w, got[0].1)
          && exists f :: LeftOver(flags, w, got[0].1, f) && HandsOut(f, q[1..], wishes, left, rest, got[1..])
        else rest != [] && rest[0] == q[0] && HandsOut(flags, q[1..], wishes, left, rest[1..], got)
  }

  lemma {:induction false} DeliverHandsOut(flags: Flags, q: seq<nat>, wishes: map<nat, Wish>)
    requires forall t :: t in q ==> t in wishes
    ensures var (left, rest, got) := Deliver(flags, q, wishes); HandsOut(flags, q, wishes, left, rest, got)
  {
    if q != [] {
      var w := wishes[q[0]];
      ReceiveTells(flags, w);
      hide Receive, Met, ExactlyTold, LeftOver;
      var (left, rest, got) := Deliver(flags, q, wishes);
      match Receive(flags, w)
      case None =>
        DeliverHandsOut(flags, q[1..], wishes);
        assert rest[1..] == Deliver(flags, q[1..], wishes).1;
      case Some(x) =>
        DeliverHandsOut(x.1, q[1..], wishes);
        assert got[1..] == Deliver(x.1, q[1..], wishes).2;
    }
  }

  /** rt_event_send: refused without effect for no events; otherwise the events join those that are set, and are handed out
      in queue order; the threads that go find what they were told in their `event_set`, and nobody else's wish changes. */
  lemma SendHandsOut(s: State, bits: Flags) returns (got: seq<(nat, Flags)>)
    requires Inv(s)
    ensures var (r, woken, ok) := Send(s.e, bits);
      if bits == {} then r == s.e && woken == [] && !ok && got == []
      else
        && ok && HandsOut(s.e.flags + bits, s.e.queue, s.e.wishes, r.flags, r.queue, got)
        && woken == Threads(got) && Told(got, r.wishes)
        && forall t :: t in s.e.wishes && t !in woken ==> t in r.wishes && r.wishes[t] == s.e.wishes[t]
  {
    got := [];
    if bits != {} {
      var e := s.e.(flags := s.e.flags + bits);
      SendIsDeliver(e, 0);
      DeliverHandsOut(e.flags, e.queue, e.wishes);
      got := Deliver(e.flags, e.queue, e.wishes).2;
      hide HandsOut, SendFrom, Deliver;
      assert e.queue[0..] == e.queue && e.queue[..0] + Send(s.e, bits).0.queue == Send(s.e, bits).0.queue;
      assert e.queue[..0] + Deliver(e.flags, e.queue, e.wishes).1 == Deliver(e.flags, e.queue, e.wishes).1;
    }
  }

  /** Some thread with CLEAR was told b. */
  predicate TakenBy(got: seq<(nat, Flags)>, wishes: map<nat, Wish>, b: nat) {
    exists i :: 0 <= i < |got| && got[i].0 in wishes && wishes[got[i].0].clear && b in got[i].1
  }

  /** Nobody is told an event that was neither set nor sent, or that it did not ask for; and the events that are lost are
      exactly those told to threads with CLEAR. */
  lemma {:induction false} NothingInvented(flags: Flags, q: seq<nat>, wishes: map<nat, Wish>, left: Flags, rest: seq<nat>, got: seq<(nat, Flags)>)
    requires HandsOut(flags, q, wishes, left, rest, got)
    ensures forall i :: 0 <= i < |got| ==>
      got[i].0 in q && got[i].0 in wishes && got[i].1 <= flags && got[i].1 <= wishes[got[i].0].want
      && (wishes[got[i].0].all ==> got[i].1 == wishes[got[i].0].want)
    ensures forall b: nat :: b in left <==> b in flags && !TakenBy(got, wishes, b)
  {
    if q != [] {
      var w := wishes[q[0]];
      if Met(flags, w) {
        var f :| LeftOver(flags, w, got[0].1, f) && HandsOut(f, q[1..], wishes, left, rest, got[1..]);
        NothingInvented(f, q[1..], wishes, left, rest, got[1..]);
        FirstTaken(got, wishes);
        forall i | 0 <= i < |got|
          ensures got[i].0 in q && got[i].0 in wishes && got[i].1 <= flags && got[i].1 <= wishes[got[i].0].want
          ensures wishes[got[i].0].all ==> got[i].1 == wishes[got[i].0].want
        {
          if i > 0 { assert got[i] == got[1..][i - 1]; }
        }
      } else {
        NothingInvented(flags, q[1..], wishes, left, rest[1..], got);
      }
    }
  }

  lemma FirstTaken(got: seq<(nat, Flags)>, wishes: map<nat, Wish>)
    requires got != [] && got[0].0 in wishes
    ensures forall b: nat :: TakenBy(got, wishes, b) <==> (wishes[got[0].0].clear && b in got[0].1) || TakenBy(got[1..], wishes, b)
  {
    forall b: nat
      ensures TakenBy(got, wishes, b) <==> (wishes[got[0].0].clear && b in got[0].1) || TakenBy(got[1..], wishes, b)
    {
      if TakenBy(got[1..], wishes, b) {
        var i :| 0 <= i < |got[1..]| && got[1..][i].0 in wishes && wishes[got[1..][i].0].clear && b in got[1..][i].1;
        assert got[i + 1] == got[1..][i];
      }
      if TakenBy(got, wishes, b) {
        var i :| 0 <= i < |got| && got[i].0 in wishes && wishes[got[i].0].clear && b in got[i].1;
        if i > 0 { assert got[1..][i - 1] == got[i]; }
      }
    }
  }
}
