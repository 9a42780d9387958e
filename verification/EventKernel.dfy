/** ipc.c as it runs: the loop of rt_event_send over the suspended threads, and rt_event_recv. */
module EventKernel {
  import opened WaitQueue
  import opened EventModel

  class EventObject {
    const byPriority: bool
    var flags: Flags               // set
    var queue: seq<nat>            // parent.suspend_thread
    var wishes: map<nat, Wish>     // event_set and event_info of the threads

    ghost function View(): Event
      reads this
    {
      Event(flags, queue, wishes)
    }

    /** rt_event_init */
    constructor (flag: bool)
      ensures View() == Event({}, [], map[]) && byPriority == flag
    {
      byPriority := flag;
      flags, queue, wishes := {}, [], map[];
    }

    /** rt_event_send; the threads it resumes are listed in order. */
    method SendEvents(bits: Flags) returns (woken: seq<nat>, ok: bool)
      requires forall t :: t in queue ==> t in wishes
      modifies this
      ensures (View(), woken, ok) == Send(old(View()), bits)
    {
      if bits == {} { return [], false; }
      flags := flags + bits;
      ghost var e0 := View();
      woken := [];
      var n := 0;
      while n != |queue|
        invariant n <= |queue| && forall t :: t in queue ==> t in wishes
        invariant SendFrom(e0, 0).0 == SendFrom(View(), n).0 && SendFrom(e0, 0).1 == woken + SendFrom(View(), n).1
        decreases |queue| - n
      {
        var t := queue[n];
        var status := false;
        ghost var e := View();
        if wishes[t].all {
          if wishes[t].want * flags == wishes[t].want { status := true; }
        } else if wishes[t].any {
          if wishes[t].want * flags != {} {
            wishes := wishes[t := wishes[t].(want := wishes[t].want * flags)];
            status := true;
          }
        }
        SameTest(e, n);
        if status {
          if wishes[t].clear { flags := flags - wishes[t].want; }
          queue := queue[..n] + queue[n + 1..];
          ghost var before := woken;
          woken := woken + [t];
          ServedIs(e, n, View());
          assert before + ([t] + SendFrom(View(), n).1) == woken + SendFrom(View(), n).1;
        } else {
          n := n + 1;
        }
      }
      assert woken + [] == woken;
      return woken, true;
    }

    /** rt_event_recv, up to the point where the caller has its events, gives up or is suspended. */
    method RecvEvents(prio: map<nat, nat>, t: nat, w: Wish, wait: bool) returns (c: Code)
      requires Known(queue, prio) && t in prio && (w.all || w.any)
      modifies this
      ensures (View(), c) == Recv(State(old(View()), prio, byPriority), t, w, wait)
    {
      if w.want == {} { return Refused; }
      var status := false;
      if w.all {
        if flags * w.want == w.want { status := true; }
      } else if w.any {
        if flags * w.want != {} { status := true; }
      }
      if status {
        var recved := flags * w.want;
        if w.clear { flags := flags - w.want; }
        return Got(recved);
      }
      if !wait { return TimedOut; }
      wishes := wishes[t := w];
      queue := Suspend(queue, t, prio, byPriority);
      return Blocked;
    }

    /** rt_event_control with RT_IPC_CMD_RESET; the threads sent away are listed in order. */
    method ResetEvents() returns (gone: seq<nat>)
      modifies this
      ensures View() == Event({}, [], old(wishes)) && gone == old(queue)
    {
      gone := [];
      while queue != []
        invariant View() == old(View()).(queue := queue) && gone + queue == old(queue)
        decreases |queue|
      {
        gone := gone + [queue[0]];
        queue := queue[1..];
      }
      flags := {};
    }
  }

  /** The test in the loop is the condition of the wish. */
  lemma SameTest(e: Event, n: nat)
    requires n < |e.queue| && e.queue[n] in e.wishes
    ensures var w := e.wishes[e.queue[n]];
      Satisfied(e.flags, w) <==> (w.all && w.want * e.flags == w.want) || (!w.all && w.any && w.want * e.flags != {})
  {
    var w := e.wishes[e.queue[n]];
    assert w.want * e.flags == e.flags * w.want;
  }

  lemma ServedIs(e: Event, n: nat, r: Event)
    requires (forall t :: t in e.queue ==> t in e.wishes) && n < |e.queue| && Satisfied(e.flags, e.wishes[e.queue[n]])
    requires r.queue == e.queue[..n] + e.queue[n + 1..]
    requires var t := e.queue[n]; var w := Narrowed(e.flags, e.wishes[t]);
      r.wishes == e.wishes[t := w] && r.flags == if w.clear then e.flags - w.want else e.flags
    ensures r == Served(e, n) && (forall t :: t in r.queue ==> t in r.wishes)
    ensures SendFrom(e, n) == (SendFrom(r, n).0, [e.queue[n]] + SendFrom(r, n).1)
  {
  }
}
