/** ipc.c as it runs: the mailbox ring in an array, and one pass through the loops of its blocking calls. */
module MailboxKernel {
  import opened Wrappers
  import opened WaitQueue
  import opened MailboxModel

  class Mailbox {
    const pool: array<nat>       // msg_pool
    const byPriority: bool
    var entry: nat
    var inOffset: nat
    var outOffset: nat
    var receivers: seq<nat>      // parent.suspend_thread
    var senders: seq<nat>        // suspend_sender_thread

    ghost function View(): Box
      reads this, pool
    {
      Box(pool[..], entry, inOffset, outOffset, receivers, senders, byPriority)
    }

    /** rt_mb_init */
    constructor (buffer: array<nat>, flag: bool)
      ensures pool == buffer && BoxOk(View()) && Contents(View()) == [] && receivers == [] && senders == []
    {
      pool, byPriority := buffer, flag;
      entry, inOffset, outOffset, receivers, senders := 0, 0, 0, [], [];
    }

    /** rt_mb_send_wait, from entering the critical section to leaving it or being suspended. */
    method SendPass(prio: map<nat, nat>, t: nat, v: nat, wait: bool) returns (woken: Option<nat>, c: Code)
      requires BoxOk(View()) && Known(senders, prio) && t in prio
      modifies this, pool
      ensures (View(), woken, c) == Send(old(View()), prio, t, v, wait)
    {
      if entry == pool.Length {
        if !wait { return None, Full; }
        senders := Suspend(senders, t, prio, byPriority);
        return None, Blocked;
      }
      pool[inOffset] := v;
      inOffset := inOffset + 1;
      if inOffset >= pool.Length { inOffset := 0; }
      entry := entry + 1;
      if receivers != [] {
        woken := Some(receivers[0]);
        receivers := receivers[1..];
        return woken, Sent;
      }
      return None, Sent;
    }

    /** rt_mb_recv, likewise. */
    method RecvPass(prio: map<nat, nat>, t: nat, wait: bool) returns (woken: Option<nat>, c: Code)
      requires BoxOk(View()) && Known(receivers, prio) && t in prio
      modifies this
      ensures (View(), woken, c) == Recv(old(View()), prio, t, wait)
    {
      if entry == 0 {
        if !wait { return None, Empty; }
        receivers := Suspend(receivers, t, prio, byPriority);
        return None, Blocked;
      }
      var v := pool[outOffset];
      outOffset := outOffset + 1;
      if outOffset >= pool.Length { outOffset := 0; }
      entry := entry - 1;
      if senders != [] {
        woken := Some(senders[0]);
        senders := senders[1..];
        return woken, Got(v);
      }
      return None, Got(v);
    }

    /** rt_ipc_list_resume_all on the suspended receivers ... */
    method ResumeReceivers() returns (gone: seq<nat>)
      modifies `receivers
      ensures receivers == [] && gone == old(receivers)
    {
      gone := [];
      while receivers != []
        invariant gone + receivers == old(receivers)
        decreases |receivers|
      {
        gone := gone + [receivers[0]];
        receivers := receivers[1..];
      }
    }

    /** ... and on the suspended senders. */
    method ResumeSenders() returns (gone: seq<nat>)
      modifies `senders
      ensures senders == [] && gone == old(senders)
    {
      gone := [];
      while senders != []
        invariant gone + senders == old(senders)
        decreases |senders|
      {
        gone := gone + [senders[0]];
        senders := senders[1..];
      }
    }

    /** rt_mb_control with RT_IPC_CMD_RESET; the result lists the threads sent away, in order. */
    method ResetBox() returns (gone: seq<nat>)
      modifies this
      ensures View() == Reset(old(View())) && gone == old(receivers) + old(senders)
    {
      gone := ResumeReceivers();
      var more := ResumeSenders();
      gone := gone + more;
      entry, inOffset, outOffset := 0, 0, 0;
    }
  }
}
