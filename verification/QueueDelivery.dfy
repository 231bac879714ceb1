/** Which message goes to which receiver. */
module QueueDelivery {
  import opened Sequences
  import opened Traces
  import opened Selection
  import opened MessageQueue
  import opened QueueSafety
  import opened QueueCalls
  import QueueCapacity

  // ---------------------------------------------------------------- reading a trace

  function MessageOut(o: Obs): Option<Message> { if o.Fetched? then Some(o.m) else None }

  function Fetcher(o: Obs): Option<Task> { if o.Fetched? then Some(o.t) else None }

  function Pender(o: Obs): Option<Task> { if o.Pended? then Some(o.t) else None }

  // ---------------------------------------------------------------- FIFO queues, normal messages

  /** Normal messages, and receivers that wait for ever. */
  predicate PlainEvent(e: Event) {
    (e.Send? ==> !e.urgent) && (e.Receive? ==> e.w.Forever?)
  }

  ghost predicate Plain(s: State) {
    && !s.cb.byPriority
    && forall t :: && (Sending(At(s, t)) ==> !At(s, t).urgent)
                   && (Receiving(At(s, t)) ==> At(s, t).w.Forever?)
  }

  /** What one section does to the line of receivers and to the line of messages. */
  ghost predicate Hands(cb: Block, obs: seq<Obs>, cb': Block) {
    && Pick(obs, Fetcher) + cb'.readers == cb.readers + Pick(obs, Pender)
    && Pick(obs, MessageOut) + cb'.q == cb.q + Pick(obs, MessageIn)
  }

  lemma HandsNothing(cb: Block, cb': Block)
    requires cb'.readers == cb.readers && cb'.q == cb.q
    ensures Hands(cb, [], cb')
  {}

  lemma HandsOne(cb: Block, o: Obs, cb': Block)
    requires match o
             case Pended(t) => cb'.readers == cb.readers + [t] && cb'.q == cb.q
             case Fetched(t, m) => [t] + cb'.readers == cb.readers && [m] + cb'.q == cb.q
             case Accepted(m, _) => cb'.readers == cb.readers && cb'.q == cb.q + [m]
             case GaveUp(_) => cb'.readers == cb.readers && cb'.q == cb.q
             case Failed(_) => cb'.readers == cb.readers && cb'.q == cb.q
    ensures Hands(cb, [o], cb')
  {
    PickOne(o, Fetcher);
    PickOne(o, Pender);
    PickOne(o, MessageOut);
    PickOne(o, MessageIn);
  }

  lemma LoopHands(cb: Block, prio: map<Task, int>, t: Task, expired: bool, late: bool)
    requires !cb.byPriority
    ensures Hands(cb, Loop(cb, prio, t, Forever, expired).obs, Loop(cb, prio, t, Forever, expired).cb)
    ensures Hands(cb, Repoll(cb, prio, t, Forever, expired, late).obs, Repoll(cb, prio, t, Forever, expired, late).cb)
  {
    hide Hands, Position;
    HandsNothing(cb, cb);
    if cb.q != [] && SignalForMyTask(cb.readers, cb.byPriority, prio, t) {
      HandsOne(cb, Fetched(t, cb.q[0]), Fetch(cb, t).cb);
    }
  }

  lemma ReceiveHands(cb: Block, prio: map<Task, int>, t: Task, buflen: nat)
    requires !cb.byPriority && t !in cb.readers
    ensures var r := MsgQReceive(cb, prio, t, buflen, Forever); Hands(cb, r.obs, r.cb)
  {
    if buflen < cb.msgLen {
      HandsOne(cb, Failed(t), cb);
    } else {
      var linked := cb.(readers := cb.readers + [t]);
      var r := Loop(linked, prio, t, Forever, false);
      LoopHands(linked, prio, t, false, false);
      HandsOne(cb, Pended(t), linked);
      HandsBoth(cb, [Pended(t)], linked, r.obs, r.cb);
    }
  }

  lemma HandsBoth(cb: Block, a: seq<Obs>, cb1: Block, b: seq<Obs>, cb2: Block)
    requires Hands(cb, a, cb1) && Hands(cb1, b, cb2)
    ensures Hands(cb, a + b, cb2)
  {
    PickConcat(a, b, Fetcher);
    PickConcat(a, b, Pender);
    PickConcat(a, b, MessageOut);
    PickConcat(a, b, MessageIn);
    Swap(Pick(a, Fetcher), cb1.readers, cb.readers, Pick(a, Pender), Pick(b, Fetcher), cb2.readers, Pick(b, Pender));
    Swap(Pick(a, MessageOut), cb1.q, cb.q, Pick(a, MessageIn), Pick(b, MessageOut), cb2.q, Pick(b, MessageIn));
  }

  lemma Swap<T>(out: seq<T>, mid: seq<T>, line: seq<T>, into: seq<T>, out': seq<T>, end: seq<T>, into': seq<T>)
    requires out + mid == line + into && out' + end == mid + into'
    ensures out + out' + end == line + (into + into')
  {
    assert out + out' + end == out + (out' + end) == out + (mid + into') == out + mid + into';
    assert line + into + into' == line + (into + into');
  }

  lemma SendHands(cb: Block, t: Task, m: Message, w: Wait)
    ensures var r := MsgQSend(cb, t, m, w, false); Hands(cb, r.obs, r.cb)
    ensures var r := PostAfterWait(cb, t, m, false); Hands(cb, r.obs, r.cb)
    ensures Hands(cb, SendTimesOut(cb, t).obs, SendTimesOut(cb, t).cb)
  {
    hide Hands;
    HandsNothing(cb, WaitToSend(cb, t, m, w, false).cb);
    HandsOne(cb, Failed(t), cb);
    HandsOne(cb, Failed(t), SendTimesOut(cb, t).cb);
    HandsOne(cb, Accepted(m, false), PostTo(cb, m, false).cb);
    HandsOne(cb, Accepted(m, false), PostAfterWait(cb, t, m, false).cb);
  }

  lemma StepHands(s: State, e: Event)
    requires Inv(s) && Plain(s) && PlainEvent(e)
    ensures Hands(s.cb, Step(s, e).obs, Step(s, e).s.cb)
  {
    hide Hands, MsgQSend, MsgQReceive, Loop, Repoll, PostAfterWait, SendTimesOut;
    var p := At(s, e.t);
    assert e.t in s.cb.readers <==> Receiving(p);
    HandsNothing(s.cb, s.cb);
    match e
    case Send(t, m, w, _) => SendHands(s.cb, t, m, w);
    case Post(t) => if p.Selected? { SendHands(s.cb, t, p.m, NoWait); }
    case SendExpire(t) => if p.Blocked? { SendHands(s.cb, t, p.m, NoWait); }
    case Receive(t, buflen, _) => if p.Idle? { ReceiveHands(s.cb, s.prio, t, buflen); }
    case Resume(t, late) => if p.Awake? || p.Polling? { LoopHands(s.cb, s.prio, t, p.expired, late); }
    case _ =>
  }

  /** Every section of a plain run leaves its task in a plain place. */
  lemma StepKeepsPlain(s: State, e: Event)
    requires Plain(s) && PlainEvent(e)
    ensures Plain(Step(s, e).s)
  {
    hide SignalForMyTask, Linked, Without;
    var s' := Step(s, e).s;
    forall t
      ensures Sending(At(s', t)) ==> !At(s', t).urgent
      ensures Receiving(At(s', t)) ==> At(s', t).w.Forever?
    {
      assert (Sending(At(s, t)) ==> !At(s, t).urgent) && (Receiving(At(s, t)) ==> At(s, t).w.Forever?);
      assert (Sending(At(s, e.t)) ==> !At(s, e.t).urgent) && (Receiving(At(s, e.t)) ==> At(s, e.t).w.Forever?);
    }
  }

  lemma {:induction false} RunHands(n: nat, msgLen: nat, evs: seq<Event>)
    requires forall i :: 0 <= i < |evs| ==> PlainEvent(evs[i])
    ensures var r := Run(Start(MsgQCreate(n, msgLen, false)), evs);
            Plain(r.s) && Hands(MsgQCreate(n, msgLen, false), r.obs, r.s.cb)
  {
    var cb := MsgQCreate(n, msgLen, false);
    if evs != [] {
      hide Hands;
      var front, e := evs[..|evs| - 1], evs[|evs| - 1];
      var r := Run(Start(cb), front);
      RunHands(n, msgLen, front);
      QueueSafety.RunKeepsInv(n, msgLen, false, front);
      StepHands(r.s, e);
      StepKeepsPlain(r.s, e);
      HandsBoth(cb, r.obs, r.s.cb, Step(r.s, e).obs, Step(r.s, e).s.cb);
    }
  }

  /**
    FIFO hand-off over whole runs: the k-th fetch delivers the message of the k-th call of msgQSend to be
    accepted to the k-th task that pended, under every interleaving of direct and blocked senders;
    whoever and whatever is left over waits in that order, and the ring is never over-full.
  */
  lemma FifoHandOff(n: nat, msgLen: nat, evs: seq<Event>)
    requires n >= 1 && forall i :: 0 <= i < |evs| ==> PlainEvent(evs[i])
    ensures var r := Run(Start(MsgQCreate(n, msgLen, false)), evs);
            && Pick(r.obs, Fetcher) + r.s.cb.readers == Pick(r.obs, Pender)
            && Pick(r.obs, MessageOut) + r.s.cb.q == Posted(Start(MsgQCreate(n, msgLen, false)), evs)
            && |r.s.cb.q| <= n + 1
  {
    AcceptedIsPosted(Start(MsgQCreate(n, msgLen, false)), evs);
    RunHands(n, msgLen, evs);
    QueueCapacity.BlockedSendersFit(n, msgLen, evs);
    var r := Run(Start(MsgQCreate(n, msgLen, false)), evs);
    assert [] + Pick(r.obs, Pender) == Pick(r.obs, Pender);
    assert [] + Pick(r.obs, MessageIn) == Pick(r.obs, MessageIn);
  }
}
