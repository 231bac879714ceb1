/**
  End to end: any run of a message queue, carried out on its control block, on the bytes of its ring and
  on the two wait lists through the tasks.
*/
module QueueExecution {
  import opened Sequences
  import opened Traces
  import opened Selection
  import opened MessageQueue
  import opened QueueObject
  import opened QueueSafety
  import opened QueueCalls
  import opened QueueDelivery
  import opened QueueContents
  import opened TaskTable
  import QueueCapacity
  import SlotRing
  import Slots
  import WaitLists

  // ---------------------------------------------------------------- blocked messages

  /** A waiting sender's message has passed the length check. */
  ghost predicate MessagesFit(s: State) {
    forall t :: Sending(At(s, t)) ==> |At(s, t).m| <= s.cb.msgLen
  }

  lemma StepKeepsFit(s: State, e: Event)
    requires MessagesFit(s)
    ensures MessagesFit(Step(s, e).s)
  {
    hide Linked, Without, SignalForMyTask, Loop, Repoll, MsgQReceive;
    if QueueCapacity.IsReaders(e) {
      QueueCapacity.ReaderStep(s, e);
    }
    var s' := Step(s, e).s;
    forall t | Sending(At(s', t))
      ensures |At(s', t).m| <= s'.cb.msgLen
    {
      assert Sending(At(s, t)) ==> |At(s, t).m| <= s.cb.msgLen;
      assert Sending(At(s, e.t)) ==> |At(s, e.t).m| <= s.cb.msgLen;
    }
  }

  lemma SelectedFits(s: State, t: Task)
    requires MessagesFit(s) && At(s, t).Selected?
    ensures |At(s, t).m| <= s.cb.msgLen
  {}

  // ---------------------------------------------------------------- what sections do to the ring

  lemma ReplayOne(l: Log, o: Obs)
    requires l.ring.Valid()
    ensures Replay(l, []) == l && Replay(l, [o]) == Apply(l, o)
  {
    assert [o][..0] == [];
  }

  /** What a sender's section shows: at most that its message was accepted. */
  lemma SendReplays(l: Log, cb: Block, t: Task, m: Message, w: Wait, urgent: bool)
    requires l.ring.Valid()
    ensures var r := MsgQSend(cb, t, m, w, urgent);
            Replay(l, r.obs) == l.(ring := if r.obs == [Accepted(m, true)] then SlotRing.Prepend(l.ring, m)
                                           else if r.obs == [Accepted(m, false)] then SlotRing.Append(l.ring, m)
                                           else l.ring)
  {
    hide Replay, Linked;
    ReplayOne(l, Failed(t));
    ReplayOne(l, Accepted(m, urgent));
    ReplayOne(l, Accepted(m, false));
  }

  /** A receiver's section shows a message exactly if it takes one. */
  lemma ReceiverReplays(l: Log, q: seq<Message>, obs: seq<Obs>, q': seq<Message>)
    requires l.ring.Valid() && l.ring.count == |q| && Shows(q, obs, q')
    requires forall i :: 0 <= i < |obs| ==> !obs[i].Accepted?
    ensures Replay(l, obs) ==
            if |q'| == |q| then l else Log(SlotRing.Drop(l.ring), l.out + [l.ring.slots[l.ring.first]])
  {
    if obs != [] {
      assert obs[..|obs| - 1] == if |obs| == 1 then [] else [obs[0]];
      ReplayPended(l, obs[0]);
    }
  }

  lemma LoopReplays(l: Log, cb: Block, prio: map<Task, int>, t: Task, w: Wait, expired: bool)
    requires l.ring.Valid() && l.ring.count == |cb.q|
    ensures var r := Loop(cb, prio, t, w, expired);
            && !r.broadcast
            && Replay(l, r.obs) == if |r.cb.q| == |cb.q| then l
                                   else Log(SlotRing.Drop(l.ring), l.out + [l.ring.slots[l.ring.first]])
  {
    hide Replay, SignalForMyTask, Without;
    LoopShows(cb, prio, t, w, expired, false);
    ReceiverReplays(l, cb.q, Loop(cb, prio, t, w, expired).obs, Loop(cb, prio, t, w, expired).cb.q);
  }

  lemma ReceiveReplays(l: Log, cb: Block, prio: map<Task, int>, t: Task, buflen: nat, w: Wait)
    requires l.ring.Valid() && l.ring.count == |cb.q|
    ensures var r := MsgQReceive(cb, prio, t, buflen, w);
            && !r.broadcast
            && Replay(l, r.obs) == if |r.cb.q| == |cb.q| then l
                                   else Log(SlotRing.Drop(l.ring), l.out + [l.ring.slots[l.ring.first]])
  {
    hide Replay, Loop, Linked;
    var linked := cb.(readers := Linked(cb.readers, t));
    LoopReplays(l, linked, prio, t, w, false);
    ReplayOne(l, Failed(t));
    ReplayPended(l, Pended(t));
    ReplayConcat(l, [Pended(t)], Loop(linked, prio, t, w, false).obs);
  }

  // ---------------------------------------------------------------- execution

  class Execution {
    const queue: Queue
    var pc: map<Task, Pc>
    var delivered: seq<Message>

    ghost function Now(): State
      requires queue.readers in queue.tasks.lines && queue.writers in queue.tasks.lines
      reads this, queue, queue.tasks
    {
      State(queue.View(), pc, queue.tasks.prio)
    }

    /** What the ring stores, and what has been delivered. */
    ghost function Contents(): Log
      reads this, queue.ring
    {
      Log(queue.ring.slots, delivered)
    }

    ghost predicate Valid()
      reads this, queue, queue.ring, queue.ring.extent, queue.tasks, queue.tasks.heads, queue.tasks.all
    {
      queue.Valid() && Inv(Now()) && MessagesFit(Now())
    }

    /** The task is one of the table, and on no list of another object. */
    ghost predicate MayUse(t: Task)
      reads queue.tasks
    {
      && t < |queue.tasks.task|
      && forall m :: m in queue.tasks.lines && t in queue.tasks.lines[m] ==> m == queue.readers || m == queue.writers
    }

    constructor (queue: Queue)
      requires queue.Valid() && queue.q == [] && queue.View().readers == [] && queue.View().writers == []
      ensures Valid() && this.queue == queue && delivered == [] && Now() == State(queue.View(), map[], queue.tasks.prio)
    {
      this.queue, pc, delivered := queue, map[], [];
    }

    function PcOf(t: Task): Pc
      reads this
    {
      if t in pc then pc[t] else Idle
    }

    /** A task is where its section left it; a broadcast wakes every sleeper. */
    method Leave(t: Task, p: Pc, broadcast: bool)
      modifies this`pc
      ensures pc == (if broadcast then map u | u in old(pc) :: Woken(old(pc)[u]) else old(pc))[t := p]
    {
      if broadcast {
        pc := map u | u in pc :: Woken(pc[u]);
      }
      pc := pc[t := p];
    }

    /** Task `t` has gone through one critical section, with this outcome. */
    twostate predicate Does(t: Task, r: Section)
      reads this, queue, queue.ring, queue.ring.extent, queue.tasks, queue.tasks.heads, queue.tasks.all
    {
      && old(queue.Valid()) && queue.Valid() && queue.OthersKept()
      && Now() == Commit(old(Now()), t, r).s && Contents() == Replay(old(Contents()), r.obs)
      && (old(queue.tasks.Honest()) ==> queue.tasks.Honest())
    }

    method PerformSend(t: Task, m: Message, w: Wait, urgent: bool)
      requires Valid() && MayUse(t) && PcOf(t).Idle?
      modifies this`pc, queue`q, queue.ring, queue.ring.extent
      modifies queue.tasks`lines, queue.tasks.heads`first, queue.tasks.all`nxtSusp, queue.tasks.all`state
      ensures Does(t, MsgQSend(old(Now()).cb, t, m, w, urgent))
    {
      hide MsgQSend, Replay, Inv, MessagesFit, Tasks.Woven, Tasks.Honest, Slots.Encodes;
      OnNoList(t);
      SendReplays(Contents(), queue.View(), t, m, w, urgent);
      var p, broadcast := queue.Send(t, m, w, urgent);
      Leave(t, p, broadcast);
    }

    /** A task that is in no call is on no list. */
    lemma OnNoList(t: Task)
      requires Valid() && MayUse(t) && PcOf(t).Idle?
      ensures forall m :: m in queue.tasks.lines ==> t !in queue.tasks.lines[m]
    {
      assert At(Now(), t) == PcOf(t);
      assert t in queue.View().readers <==> Receiving(At(Now(), t));
      assert t in queue.View().writers <==> Sending(At(Now(), t));
    }

    method PerformPost(t: Task, m: Message, urgent: bool)
      requires Valid() && MayUse(t) && |m| <= queue.ring.g.msgLen
      modifies this`pc, queue`q, queue.ring, queue.ring.extent
      modifies queue.tasks`lines, queue.tasks.heads`first, queue.tasks.all`nxtSusp, queue.tasks.all`state
      ensures Does(t, PostAfterWait(old(Now()).cb, t, m, urgent))
    {
      hide Without, Replay, Inv, MessagesFit, Tasks.Woven, Tasks.Honest, Slots.Encodes;
      ReplayOne(Contents(), Accepted(m, urgent));
      queue.Post(t, m, urgent);
      Leave(t, Idle, true);
    }

    method PerformTimeOut(t: Task)
      requires Valid() && MayUse(t)
      modifies this`pc, queue`q, queue.ring, queue.ring.extent
      modifies queue.tasks`lines, queue.tasks.heads`first, queue.tasks.all`nxtSusp, queue.tasks.all`state
      ensures Does(t, SendTimesOut(old(Now()).cb, t))
    {
      hide Without, Replay, Inv, MessagesFit, Tasks.Woven, Tasks.Honest, Slots.Encodes;
      ReplayOne(Contents(), Failed(t));
      queue.TimeOut(t);
      Leave(t, Idle, false);
    }

    /** The caller's buffer. */
    method NewBuffer(buflen: nat) returns (buf: array<Byte>)
      ensures fresh(buf) && buf.Length == buflen
    {
      buf := new Byte[buflen](_ => 0);
    }

    /** Notes what came out of the queue, if anything. */
    method Deliver(buf: array<Byte>, msglen: int)
      requires msglen <= buf.Length
      modifies this`delivered
      ensures delivered == old(delivered) + if msglen >= 0 then [buf[..msglen]] else []
    {
      if msglen >= 0 {
        delivered := delivered + [buf[..msglen]];
      }
    }

    method PerformReceive(t: Task, buflen: nat, w: Wait)
      requires Valid() && MayUse(t) && PcOf(t).Idle?
      modifies this, queue`q, queue.ring, queue.ring.extent
      modifies queue.tasks`lines, queue.tasks.heads`first, queue.tasks.all`nxtSusp, queue.tasks.all`state
      ensures Does(t, MsgQReceive(old(Now()).cb, old(Now()).prio, t, buflen, w))
    {
      hide MsgQReceive, Replay, Inv, MessagesFit, Tasks.Woven, Tasks.Honest, Slots.Encodes;
      hide SlotRing.Drop, SlotRing.Ring.Valid;
      OnNoList(t);
      ReceiveReplays(Contents(), queue.View(), queue.tasks.prio, t, buflen, w);
      var buf := NewBuffer(buflen);
      var p, msglen := queue.Receive(t, buf, w);
      Deliver(buf, msglen);
      Leave(t, p, false);
    }

    /** A receiver looks at the queue again. */
    method PerformTurn(t: Task, w: Wait, expired: bool)
      requires Valid() && MayUse(t)
      modifies this, queue`q, queue.ring, queue.ring.extent
      modifies queue.tasks`lines, queue.tasks.heads`first, queue.tasks.all`nxtSusp, queue.tasks.all`state
      ensures Does(t, Loop(old(Now()).cb, old(Now()).prio, t, w, expired))
    {
      hide Loop, Replay, Inv, MessagesFit, Tasks.Woven, Tasks.Honest, Slots.Encodes;
      hide SlotRing.Drop, SlotRing.Ring.Valid;
      LoopReplays(Contents(), queue.View(), queue.tasks.prio, t, w, expired);
      var buf := NewBuffer(queue.ring.g.msgLen);
      var p, msglen := queue.Turn(t, buf, w, expired);
      Deliver(buf, msglen);
      Leave(t, p, false);
    }

    /** A polling receiver finds its deadline past. */
    method PerformLate(t: Task, w: Wait, expired: bool)
      requires Valid() && MayUse(t)
      modifies this`pc, queue`q, queue.ring, queue.ring.extent
      modifies queue.tasks`lines, queue.tasks.heads`first, queue.tasks.all`nxtSusp, queue.tasks.all`state
      ensures Does(t, SleepOrLeave(old(Now()).cb, t, w, expired))
    {
      hide Loop, Replay, Without, Inv, MessagesFit, Tasks.Woven, Tasks.Honest, Slots.Encodes;
      ReplayOne(Contents(), GaveUp(t));
      var p := queue.GoToSleep(t, w, expired);
      Leave(t, p, false);
    }

    /** One event: what it does to lists and bytes is the step of the machine, and what that shows. */
    method Perform(e: Event)
      requires Valid() && MayUse(e.t) && !e.SetPriority?
      modifies this, queue`q, queue.ring, queue.ring.extent
      modifies queue.tasks`lines, queue.tasks.heads`first, queue.tasks.all`nxtSusp, queue.tasks.all`state
      ensures Valid() && queue.OthersKept() && Now() == Step(old(Now()), e).s
      ensures Contents() == Replay(old(Contents()), Step(old(Now()), e).obs)
      ensures old(queue.tasks.Honest()) ==> queue.tasks.Honest()
    {
      hide Replay, MsgQSend, MsgQReceive, Loop, PostAfterWait, SendTimesOut, SignalForMyTask;
      hide SleepOrLeave, Inv, MessagesFit, Tasks.Woven, Tasks.Honest, Slots.Encodes;
      StepKeepsInv(Now(), e);
      StepKeepsFit(Now(), e);
      ReplayOne(Contents(), Failed(e.t));
      var p := PcOf(e.t);
      if e.Receive? {
        if p.Idle? { PerformReceive(e.t, e.buflen, e.w); }
      } else if e.Resume? {
        if p.Polling? && !p.w.Forever? && e.late {
          PerformLate(e.t, p.w, p.expired);
        } else if p.Awake? || p.Polling? {
          PerformTurn(e.t, p.w, p.expired);
        }
      } else if e.Send? {
        if p.Idle? { PerformSend(e.t, e.m, e.w, e.urgent); }
      } else if e.Post? {
        if p.Selected? {
          SelectedFits(Now(), e.t);
          PerformPost(e.t, p.m, p.urgent);
        }
      } else if e.SendExpire? {
        if p.Blocked? && p.sw.Timed? { PerformTimeOut(e.t); }
      } else if e.Test? {
        if p.Blocked? {
          var yes := queue.HasSpaceFor(e.t);
          if yes { pc := pc[e.t := Selected(p.m, p.urgent)]; }
        }
      } else if p.Asleep? {
        if e.Wake? {
          pc := pc[e.t := Awake(p.w, false)];
        } else if !p.w.Forever? {
          pc := pc[e.t := Awake(p.w, true)];
        }
      }
    }

    /** One event, on a queue that is the only object around. */
    method PerformOrSet(e: Event)
      requires Valid() && MayUse(e.t)
      modifies this, queue`q, queue.ring, queue.ring.extent
      modifies queue.tasks, queue.tasks.heads`first, queue.tasks.all
      ensures Valid() && queue.tasks.lines.Keys == old(queue.tasks.lines.Keys) && Now() == Step(old(Now()), e).s
      ensures Contents() == Replay(old(Contents()), Step(old(Now()), e).obs)
      ensures old(queue.tasks.Honest()) ==> queue.tasks.Honest()
    {
      hide Replay, MsgQSend, MsgQReceive, Loop, Repoll, PostAfterWait, SendTimesOut, SignalForMyTask;
      if e.SetPriority? {
        StepKeepsInv(Now(), e);
        StepKeepsFit(Now(), e);
        ReplayOne(Contents(), Failed(e.t));
        queue.tasks.SetPriority(e.t, e.p);
      } else {
        Perform(e);
      }
    }
  }

  /** A new queue, with its waiting tasks on these two lists. */
  method OneQueue(tasks: Tasks, readers: WaitLists.Head, writers: WaitLists.Head,
                  header: nat, n: nat, msgLen: nat, byPriority: bool) returns (x: Execution)
    requires 4 <= header && 1 <= msgLen < 0x1_0000_0000
    requires tasks.Valid() && readers in tasks.heads && writers in tasks.heads && readers != writers
    requires tasks.lines[readers] == [] && tasks.lines[writers] == []
    ensures x.Valid() && x.queue.tasks == tasks && x.queue.readers == readers && x.queue.writers == writers
    ensures x.Now() == State(MsgQCreate(n, msgLen, byPriority), map[], tasks.prio)
    ensures x.queue.ring.g.n == n && x.Contents() == Replayed(n, [])
    ensures fresh(x) && fresh(x.queue) && fresh(x.queue.ring) && fresh(x.queue.ring.extent)
  {
    hide Inv, MessagesFit, Replay, SlotRing.Empty, Tasks.Woven, Slots.Encodes;
    ReplayOne(Log(SlotRing.Empty(n), []), Failed(0));
    var queue := new Queue(tasks, readers, writers, header, n, msgLen, byPriority);
    x := new Execution(queue);
  }

  /** A new queue among `tasks` new tasks. */
  method NewQueue(tasks: nat, header: nat, n: nat, msgLen: nat, byPriority: bool) returns (x: Execution)
    requires 4 <= header && 1 <= msgLen < 0x1_0000_0000
    ensures x.Valid() && x.queue.tasks.Honest() && |x.queue.tasks.task| == tasks
    ensures x.queue.tasks.heads == {x.queue.readers, x.queue.writers}
    ensures x.Now() == Start(MsgQCreate(n, msgLen, byPriority)) && x.Contents() == Replayed(n, [])
    ensures fresh(x) && fresh(x.queue) && fresh(x.queue.ring) && fresh(x.queue.ring.extent)
    ensures fresh(x.queue.tasks) && fresh(x.queue.tasks.heads) && fresh(x.queue.tasks.all)
  {
    hide Inv, MessagesFit, Replay, Tasks.Woven, Slots.Encodes;
    var readers := new WaitLists.Head();
    var writers := new WaitLists.Head();
    var table := new Tasks(tasks, {readers, writers});
    x := OneQueue(table, readers, writers, header, n, msgLen, byPriority);
  }

  /** The bytes copied out to receivers, and those still in the ring, are these messages. */
  ghost predicate AllAccountedFor(x: Execution, msgs: seq<Message>)
    requires x.queue.ring.slots.Valid()
    reads x, x.queue.ring
  {
    multiset(x.delivered) + multiset(x.queue.ring.slots.Stored()) == multiset(msgs)
  }

  /**
    Every run, carried out on bytes and lists.  Whatever the traffic, the object goes through the states
    of the step machine, and the PEND bits are true.  As long as the queue is never over-full, what comes
    out is what the machine says, and the messages that callers sent and were told OK about are delivered
    or stored, byte for byte; for normal messages on a FIFO queue, in order.
  */
  method Execute(tasks: nat, header: nat, n: nat, msgLen: nat, byPriority: bool, evs: seq<Event>) returns (x: Execution)
    requires 4 <= header && 1 <= msgLen < 0x1_0000_0000
    requires forall i :: 0 <= i < |evs| ==> evs[i].t < tasks
    ensures var cb := MsgQCreate(n, msgLen, byPriority);
            var r := Run(Start(cb), evs);
            && x.Valid() && x.queue.tasks.Honest() && x.Now() == r.s && x.Contents() == Replayed(n, r.obs)
            && (NeverOverfull(cb, evs) ==>
                  x.delivered == Pick(r.obs, MessageOut) && AllAccountedFor(x, Posted(Start(cb), evs)))
            && (n >= 1 && !byPriority && (forall i :: 0 <= i < |evs| ==> PlainEvent(evs[i])) ==>
                  x.delivered + x.queue.ring.slots.Stored() == Posted(Start(cb), evs))
  {
    hide Step, Pick, Replay, NeverOverfull, Posted;
    ghost var cb := MsgQCreate(n, msgLen, byPriority);
    x := NewQueue(tasks, header, n, msgLen, byPriority);
    for i := 0 to |evs|
      invariant x.Valid() && x.queue.tasks.Honest() && |x.queue.tasks.task| == tasks
      invariant x.queue.tasks.heads == {x.queue.readers, x.queue.writers}
      invariant fresh(x) && fresh(x.queue) && fresh(x.queue.ring) && fresh(x.queue.ring.extent)
      invariant fresh(x.queue.tasks) && fresh(x.queue.tasks.heads) && fresh(x.queue.tasks.all)
      invariant x.Now() == Run(Start(cb), evs[..i]).s
      invariant x.Contents() == Replayed(n, Run(Start(cb), evs[..i]).obs)
    {
      assert evs[..i + 1][..i] == evs[..i];
      ghost var r := Run(Start(cb), evs[..i]);
      ReplayConcat(Log(SlotRing.Empty(n), []), r.obs, Step(r.s, evs[i]).obs);
      x.PerformOrSet(evs[i]);
    }
    assert evs[..|evs|] == evs;
    RingFollows(cb, evs);
    AcceptedIsPosted(Start(cb), evs);
    if NeverOverfull(cb, evs) {
      ConservedWhileItFits(n, msgLen, byPriority, evs);
    }
    if n >= 1 && !byPriority && forall i :: 0 <= i < |evs| ==> PlainEvent(evs[i]) {
      FifoHandOff(n, msgLen, evs);
      PlainFits(n, msgLen, evs);
    }
  }

  lemma PlainFits(n: nat, msgLen: nat, evs: seq<Event>)
    requires n >= 1 && forall i :: 0 <= i < |evs| ==> PlainEvent(evs[i])
    ensures NeverOverfull(MsgQCreate(n, msgLen, false), evs)
  {
    QueueCapacity.FitsExactlyWhen(n, msgLen, false, true, false);
    AllowedFits(n, msgLen, false, true, false, evs);
  }
}
