/** ipc.c: the mailbox, as a step system. */
module MailboxModel {
  // A step is one critical section of rt_mb_send_wait, rt_mb_recv, of a thread time-out or of a reset; threads that were
  // woken run again at any later time.

  import opened Seqs
  import opened Wrappers
  import opened WaitQueue

  /** `struct rt_mailbox`: the ring, the suspended receivers and the suspended senders. */
  datatype Box = Box(pool: seq<nat>, entry: nat, inOff: nat, outOff: nat, receivers: seq<nat>, senders: seq<nat>,
                     byPriority: bool)
  {
    function Size(): nat { |pool| }
  }

  /** Blocked: the caller was suspended.  Full and Empty are the error returns of calls that do not wait. */
  datatype Code = Sent | Got(value: nat) | Full | Empty | Blocked

  function Advance(off: nat, size: nat): nat { if off + 1 >= size then 0 else off + 1 }

  /** Position i of the ring, counted from the oldest mail. */
  function At(b: Box, i: nat): nat { if b.outOff + i >= b.Size() then b.outOff + i - b.Size() else b.outOff + i }

  ghost predicate BoxOk(b: Box) {
    && b.entry <= b.Size() && (b.outOff < b.Size() || (b.Size() == 0 && b.outOff == 0))
    && b.inOff == if b.outOff + b.entry >= b.Size() then b.outOff + b.entry - b.Size() else b.outOff + b.entry
  }

  /** The mails in the ring, oldest first. */
  ghost function Contents(b: Box): seq<nat>
    requires BoxOk(b)
  {
    seq(b.entry, i requires 0 <= i < b.entry => b.pool[At(b, i)])
  }

  /** The offsets obey in == (out + entry) mod size. */
  lemma OffsetsModulo(b: Box)
    requires BoxOk(b) && b.Size() > 0
    ensures b.inOff == (b.outOff + b.entry) % b.Size()
  {
    if b.outOff + b.entry >= b.Size() { assert (b.outOff + b.entry - b.Size()) % b.Size() == (b.outOff + b.entry) % b.Size() by { ModSub(b.outOff + b.entry, b.Size()); } }
  }

  lemma ModSub(x: nat, n: nat)
    requires n > 0 && n <= x < 2 * n
    ensures x % n == x - n
  {
    assert x == n * 1 + (x - n);
  }

  /** One pass through the body of rt_mb_send_wait; the woken receiver, if any, is the second result. */
  function Send(b: Box, prio: map<nat, nat>, t: nat, v: nat, wait: bool): (Box, Option<nat>, Code)
    requires BoxOk(b) && Known(b.senders, prio) && t in prio
  {
    if b.entry == b.Size() then
      if wait then (b.(senders := Enqueue(b.senders, t, prio, b.byPriority)), None, Blocked) else (b, None, Full)
    else
      var b1 := b.(pool := b.pool[b.inOff := v], inOff := Advance(b.inOff, b.Size()), entry := b.entry + 1);
      if b1.receivers != [] then (b1.(receivers := b1.receivers[1..]), Some(b1.receivers[0]), Sent) else (b1, None, Sent)
  }

  /** One pass through the body of rt_mb_recv; the second result is the woken sender. */
  function Recv(b: Box, prio: map<nat, nat>, t: nat, wait: bool): (Box, Option<nat>, Code)
    requires BoxOk(b) && Known(b.receivers, prio) && t in prio
  {
    if b.entry == 0 then
      if wait then (b.(receivers := Enqueue(b.receivers, t, prio, b.byPriority)), None, Blocked) else (b, None, Empty)
    else
      var v := b.pool[b.outOff];
      var b1 := b.(outOff := Advance(b.outOff, b.Size()), entry := b.entry - 1);
      if b1.senders != [] then (b1.(senders := b1.senders[1..]), Some(b1.senders[0]), Got(v)) else (b1, None, Got(v))
  }

  /** rt_mb_control with RT_IPC_CMD_RESET: everybody who waits is sent away with an error, all mails are dropped. */
  function Reset(b: Box): Box { b.(receivers := [], senders := [], entry := 0, inOff := 0, outOff := 0) }

  // ---------------------------------------------------------------- the ring is a bounded queue

  /** w is the first of the threads in q, which leaves; nobody if q is empty. */
  predicate Wakes(q: seq<nat>, w: Option<nat>, r: seq<nat>) {
    if w.Some? then q == [w.value] + r else q == r == []
  }

  /** A full mailbox refuses; otherwise the mail goes behind the others. */
  lemma SendIsAppend(b: Box, prio: map<nat, nat>, t: nat, v: nat, wait: bool)
    requires BoxOk(b) && Known(b.senders, prio) && t in prio
    ensures var (r, w, c) := Send(b, prio, t, v, wait);
      && BoxOk(r) && r.Size() == b.Size() && (c == Sent <==> |Contents(b)| < b.Size())
      && Contents(r) == Contents(b) + (if c == Sent then [v] else [])
      && (c == Blocked ==> wait) && (c != Sent ==> c == if wait then Blocked else Full)
      && (if c == Sent then Wakes(b.receivers, w, r.receivers) else w == None && r.receivers == b.receivers)
      && (if c == Blocked then Joins(b.senders, t, prio, b.byPriority, r.senders) else r.senders == b.senders)
  {
    hide Joins, Enqueue;
    var (r, w, c) := Send(b, prio, t, v, wait);
    if c == Sent {
      assert At(b, b.entry) == b.inOff;
      forall i | 0 <= i < b.entry ensures At(b, i) != b.inOff {}
      assert Contents(r) == Contents(b) + [v];
    } else {
      if wait { EnqueueJoins(b.senders, t, prio, b.byPriority); }
      assert Contents(r) == Contents(b);
    }
  }

  /** An empty mailbox refuses; otherwise the oldest mail comes out. */
  lemma RecvIsPop(b: Box, prio: map<nat, nat>, t: nat, wait: bool)
    requires BoxOk(b) && Known(b.receivers, prio) && t in prio
    ensures var (r, w, c) := Recv(b, prio, t, wait);
      && BoxOk(r) && r.Size() == b.Size() && (c.Got? <==> Contents(b) != [])
      && (c.Got? ==> Contents(b) == [c.value] + Contents(r))
      && (!c.Got? ==> r.entry == b.entry && Contents(r) == Contents(b) && c == if wait then Blocked else Empty)
      && (if c.Got? then Wakes(b.senders, w, r.senders) else w == None && r.senders == b.senders)
      && (if c == Blocked then Joins(b.receivers, t, prio, b.byPriority, r.receivers) else r.receivers == b.receivers)
  {
    hide Joins, Enqueue;
    var (r, w, c) := Recv(b, prio, t, wait);
    if c.Got? {
      assert forall i :: 0 <= i < r.entry ==> At(r, i) == At(b, i + 1);
      assert Contents(b) == [c.value] + Contents(r);
    } else {
      if wait { EnqueueJoins(b.receivers, t, prio, b.byPriority); }
      assert Contents(r) == Contents(b);
    }
  }

  // ---------------------------------------------------------------- threads around the box

  /** `wokenR` and `wokenS`: receivers and senders that were resumed and have not run yet.  `accepted` are the mails
      put in and `received` those taken out, since the last reset dropped what was left. */
  datatype State = State(box: Box, prio: map<nat, nat>, wokenR: set<nat>, wokenS: set<nat>,
                         accepted: seq<nat>, received: seq<nat>)

  datatype Step =
    | DoSend(t: nat, v: nat, wait: bool)     // a first or a repeated pass
    | DoRecv(t: nat, wait: bool)
    | DoTimeOut(t: nat)
    | DoReset

  /** Wakeups are not lost: receivers wait only while every mail has a woken receiver coming for it, and senders
      only while every free place has a woken sender coming. */
  ghost predicate NoneForgotten(s: State) {
    && (s.box.receivers != [] ==> s.box.entry <= |s.wokenR|)
    && (s.box.senders != [] ==> s.box.Size() - s.box.entry <= |s.wokenS|)
  }

  ghost predicate Inv(s: State) {
    && BoxOk(s.box) && s.accepted == s.received + Contents(s.box)
    && Known(s.box.receivers, s.prio) && Known(s.box.senders, s.prio)
    && Distinct(s.box.receivers) && Distinct(s.box.senders)
    && (forall t :: t in s.box.receivers ==> t !in s.wokenR) && (forall t :: t in s.box.senders ==> t !in s.wokenS)
    && (s.box.byPriority ==> Sorted(s.box.receivers, s.prio) && Sorted(s.box.senders, s.prio))
    && NoneForgotten(s)
  }

  predicate Enabled(s: State, e: Step) {
    match e
    case DoSend(t, _, _) => t in s.prio && t !in s.box.senders && t !in s.box.receivers && t !in s.wokenR
    case DoRecv(t, _) => t in s.prio && t !in s.box.senders && t !in s.box.receivers && t !in s.wokenS
    case DoTimeOut(t) => t in s.box.senders || t in s.box.receivers
    case DoReset => true
  }

  function Adding(x: set<nat>, w: Option<nat>): set<nat> { if w.Some? then x + {w.value} else x }

  ghost function Do(s: State, e: Step): State
    requires Inv(s) && Enabled(s, e)
  {
    match e
    case DoSend(t, v, wait) =>
      var (b, w, c) := Send(s.box, s.prio, t, v, wait);
      s.(box := b, wokenS := s.wokenS - {t}, wokenR := Adding(s.wokenR, w),
         accepted := if c == Sent then s.accepted + [v] else s.accepted)
    case DoRecv(t, wait) =>
      var (b, w, c) := Recv(s.box, s.prio, t, wait);
      s.(box := b, wokenR := s.wokenR - {t}, wokenS := Adding(s.wokenS, w),
         received := if c.Got? then s.received + [c.value] else s.received)
    case DoTimeOut(t) =>
      s.(box := s.box.(senders := Purge(s.box.senders, t), receivers := Purge(s.box.receivers, t)))
    case DoReset => s.(box := Reset(s.box), accepted := s.received)
  }

  lemma SendKeeps(s: State, t: nat, v: nat, wait: bool)
    requires Inv(s) && Enabled(s, DoSend(t, v, wait))
    ensures Inv(Do(s, DoSend(t, v, wait)))
  {
    hide Enqueue, Sorted, Contents, NoneForgotten;
    SendIsAppend(s.box, s.prio, t, v, wait);
    EnqueueKeeps(s.box.senders, t, s.prio, s.box.byPriority);
    if s.box.receivers != [] { TailKeeps(s.box.receivers, s.prio); }
    var r := Do(s, DoSend(t, v, wait));
    assert r.accepted == r.received + Contents(r.box);
    SendForgets(s, t, v, wait);
  }

  lemma SendForgets(s: State, t: nat, v: nat, wait: bool)
    requires Inv(s) && Enabled(s, DoSend(t, v, wait))
    ensures NoneForgotten(Do(s, DoSend(t, v, wait)))
  {
    hide Enqueue, Sorted, Contents, Known, Distinct;
    OneLess(s.wokenS, t);
    if s.box.receivers != [] { assert s.box.receivers[0] in s.box.receivers; }
  }

  lemma OneLess(x: set<nat>, t: nat)
    ensures |x - {t}| >= |x| - 1
  {
    if t in x { assert x == (x - {t}) + {t}; } else { assert x - {t} == x; }
  }

  lemma RecvKeeps(s: State, t: nat, wait: bool)
    requires Inv(s) && Enabled(s, DoRecv(t, wait))
    ensures Inv(Do(s, DoRecv(t, wait)))
  {
    hide Enqueue, Sorted, Contents, NoneForgotten;
    RecvIsPop(s.box, s.prio, t, wait);
    EnqueueKeeps(s.box.receivers, t, s.prio, s.box.byPriority);
    if s.box.senders != [] { TailKeeps(s.box.senders, s.prio); }
    var r := Do(s, DoRecv(t, wait));
    assert r.accepted == r.received + Contents(r.box);
    RecvForgets(s, t, wait);
  }

  lemma RecvForgets(s: State, t: nat, wait: bool)
    requires Inv(s) && Enabled(s, DoRecv(t, wait))
    ensures NoneForgotten(Do(s, DoRecv(t, wait)))
  {
    hide Enqueue, Sorted, Contents, Known, Distinct;
    OneLess(s.wokenR, t);
    if s.box.senders != [] { assert s.box.senders[0] in s.box.senders; }
  }

  lemma TimeOutKeeps(s: State, t: nat)
    requires Inv(s) && Enabled(s, DoTimeOut(t))
    ensures Inv(Do(s, DoTimeOut(t)))
  {
    hide Sorted;
    LeaveKeeps(s.box.senders, t, s.prio);
    LeaveKeeps(s.box.receivers, t, s.prio);
    assert Contents(Do(s, DoTimeOut(t)).box) == Contents(s.box);
  }

  lemma StepKeeps(s: State, e: Step)
    requires Inv(s) && Enabled(s, e)
    ensures Inv(Do(s, e))
  {
    match e
    case DoSend(t, v, wait) => SendKeeps(s, t, v, wait);
    case DoRecv(t, wait) => RecvKeeps(s, t, wait);
    case DoTimeOut(t) => TimeOutKeeps(s, t);
    case DoReset => assert Contents(Reset(s.box)) == [];
  }

  // ---------------------------------------------------------------- runs

  ghost predicate Run(s: State, es: seq<Step>, r: State)
    requires Inv(s)
    decreases |es|
  {
    if es == [] then s == r
    else if !Enabled(s, es[0]) then false
    else
      StepKeeps(s, es[0]);
      Run(Do(s, es[0]), es[1..], r)
  }

  lemma {:induction false} RunKeepsInv(s: State, es: seq<Step>, r: State)
    requires Inv(s) && Run(s, es, r)
    ensures Inv(r)
    decreases |es|
  {
    if es != [] {
      StepKeeps(s, es[0]);
      RunKeepsInv(Do(s, es[0]), es[1..], r);
    }
  }

  /** rt_mb_init */
  predicate Initial(s: State) {
    && s.box.entry == 0 && s.box.inOff == 0 && s.box.outOff == 0 && s.box.receivers == [] && s.box.senders == []
    && s.wokenR == {} && s.wokenS == {} && s.accepted == [] && s.received == []
  }

  lemma InitialInv(s: State)
    requires Initial(s)
    ensures Inv(s)
  {
    assert Contents(s.box) == [];
  }

  /** In every reachable state what was received, followed by what is in the ring, is what was sent, in order; and
      once all woken threads have run, receivers wait only at an empty box and senders only at a full one. */
  lemma FirstInFirstOut(s: State, es: seq<Step>, r: State)
    requires Initial(s) && (InitialInv(s); Run(s, es, r))
    ensures BoxOk(r.box) && r.accepted == r.received + Contents(r.box) && |Contents(r.box)| <= r.box.Size()
    ensures NoneForgotten(r)
    ensures r.wokenR == {} && r.box.receivers != [] ==> Contents(r.box) == []
    ensures r.wokenS == {} && r.box.senders != [] ==> |Contents(r.box)| == r.box.Size()
  {
    InitialInv(s);
    RunKeepsInv(s, es, r);
  }
}
