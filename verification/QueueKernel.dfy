/** ipc.c as it runs: the slot pointers of a message queue, one critical section a method. */
module QueueKernel {
  import opened Wrappers
  import opened WaitQueue
  import opened QueueModel
  import QueueRuns

  datatype Code = Queued(slot: nat) | Got(slot: nat) | Full | Empty | Blocked | Done

  class MessageQueue {
    const max: nat               // max_msgs
    const byPriority: bool
    var next: map<nat, Ptr>
    var text: map<nat, nat>
    var free: Ptr                // msg_queue_free
    var head: Ptr                // msg_queue_head
    var tail: Ptr                // msg_queue_tail
    var entry: int
    var receivers: seq<nat>      // parent.suspend_thread

    ghost function View(): Queue
      reads this
    {
      Queue(next, text, free, head, tail, entry)
    }

    /** rt_mq_init: string all slots together. */
    constructor (slots: nat, flag: bool)
      ensures max == slots && receivers == [] && ListsOk(View(), QueueRuns.Countdown(slots), [])
    {
      max, byPriority := slots, flag;
      head, tail, entry, text, receivers := None, None, 0, map[], [];
      var links: map<nat, Ptr> := map[];
      var first: Ptr := None;
      var temp := 0;
      while temp < slots
        invariant 0 <= temp <= slots
        invariant Chain(links, first, QueueRuns.Countdown(temp))
      {
        ghost var before := links;
        links := links[temp := first];
        ChainFrame(before, links, first, QueueRuns.Countdown(temp));
        ChainCons(links, first, QueueRuns.Countdown(temp), temp);
        first := Some(temp);
        temp := temp + 1;
      }
      next, free := links, first;
    }

    /** The first section of rt_mq_send and rt_mq_urgent. */
    method Claim() returns (c: Code)
      requires free.Some? ==> free.value in next
      modifies `free
      ensures old(free).None? ==> c == Full && View() == old(View())
      ensures old(free).Some? ==> c == Queued(old(free).value) && View() == PopFree(old(View()))
    {
      if free.None? { return Full; }
      var msg := free.value;
      free := next[msg];
      return Queued(msg);
    }

    /** Between the sections: copy the payload into the claimed slot. */
    method FillSlot(msg: nat, v: nat, urgent: bool)
      modifies `next, `text
      ensures View() == Fill(old(View()), msg, v, urgent)
    {
      if !urgent { next := next[msg := None]; }
      text := text[msg := v];
    }

    /** The second section of rt_mq_send. */
    method LinkLast(msg: nat) returns (woken: Option<nat>)
      requires tail.Some? ==> tail.value in next
      modifies this
      ensures View() == Link(old(View()), msg, false)
      ensures woken == First(old(receivers)) && receivers == if old(receivers) == [] then [] else old(receivers)[1..]
    {
      if tail.Some? { next := next[tail.value := Some(msg)]; }
      tail := Some(msg);
      if head.None? { head := Some(msg); }
      entry := entry + 1;
      woken := Wake();
    }

    /** The second section of rt_mq_urgent. */
    method LinkFirst(msg: nat) returns (woken: Option<nat>)
      requires tail.Some? ==> tail.value in next
      modifies this
      ensures View() == Link(old(View()), msg, true)
      ensures woken == First(old(receivers)) && receivers == if old(receivers) == [] then [] else old(receivers)[1..]
    {
      next := next[msg := head];
      head := Some(msg);
      if tail.None? { tail := Some(msg); }
      entry := entry + 1;
      woken := Wake();
    }

    /** Resume the first suspended receiver. */
    method Wake() returns (woken: Option<nat>)
      modifies `receivers
      ensures woken == First(old(receivers)) && receivers == if old(receivers) == [] then [] else old(receivers)[1..]
    {
      if receivers == [] { return None; }
      woken := Some(receivers[0]);
      receivers := receivers[1..];
    }

    /** One pass through the loop of rt_mq_recv and, if there is a message, its first section. */
    method RecvPass(prio: map<nat, nat>, t: nat, wait: bool) returns (c: Code)
      requires Known(receivers, prio) && t in prio && (entry != 0 ==> head.Some? && head.value in next)
      modifies this
      ensures old(entry) == 0 ==> View() == old(View()) && c == if wait then Blocked else Empty
      ensures old(entry) == 0 && wait ==> receivers == Enqueue(old(receivers), t, prio, byPriority)
      ensures old(entry) != 0 || !wait ==> receivers == old(receivers)
      ensures old(entry) != 0 ==> View() == PopHead(old(View())) && c == Got(old(head).value)
    {
      if entry == 0 {
        if !wait { return Empty; }
        receivers := Suspend(receivers, t, prio, byPriority);
        return Blocked;
      }
      var msg := head.value;
      head := next[msg];
      if tail == Some(msg) { tail := None; }
      entry := entry - 1;
      return Got(msg);
    }

    /** The copy and the second section of rt_mq_recv. */
    method FreeSlot(msg: nat) returns (v: nat)
      requires msg in text
      modifies `next, `free
      ensures v == old(text)[msg] && View() == PushFree(old(View()), msg)
    {
      v := text[msg];
      next := next[msg := free];
      free := Some(msg);
    }

    /** rt_mq_control with RT_IPC_CMD_RESET. */
    method ResetQueue(ghost freeList: seq<nat>, ghost queued: seq<nat>)
      requires ListsOk(View(), freeList, queued)
      modifies this
      ensures View() == Drain(old(View()), |queued|).(entry := 0) && receivers == []
    {
      receivers := [];
      ghost var rest, freed := queued, freeList;
      PopHeadOk(View(), freed, rest);
      assert View().(entry := |rest|) == View();
      hide ListsOk;
      while head.Some?
        invariant entry == old(entry) && receivers == [] && text == old(text)
        invariant ListsOk(View().(entry := |rest|), freed, rest) && (head.None? <==> rest == [])
        invariant Drain(old(View()), |queued|) == Drain(View(), |rest|)
        decreases |rest|
      {
        PopHeadOk(View().(entry := |rest|), freed, rest);
        ghost var m1 := PopHead(View().(entry := |rest|));
        ghost var x := rest[0];
        PushFreeOk(m1, freed, rest[1..], x);
        var msg := head.value;
        head := next[msg];
        if tail == Some(msg) { tail := None; }
        next := next[msg := free];
        free := Some(msg);
        assert View().(entry := |rest[1..]|) == PushFree(m1, x);
        rest, freed := rest[1..], [x] + freed;
        PopHeadOk(View().(entry := |rest|), freed, rest);
      }
      entry := 0;
    }
  }
}
