/** Calls of msgQSend from beginning to end: what is accepted is what somebody sent. */
module QueueCalls {
  import opened Sequences
  import opened Traces
  import opened Selection
  import opened MessageQueue
  import opened QueueSafety
  import opened QueueCapacity

  function MessageIn(o: Obs): Option<Message> { if o.Accepted? then Some(o.m) else None }

  /** At event `i` the task called msgQSend with this message, and it has been inside that call since. */
  ghost predicate Inside(s: State, evs: seq<Event>, i: nat, t: Task, m: Message, w: Wait, urgent: bool) {
    && i < |evs| && evs[i] == Send(t, m, w, urgent) && At(Run(s, evs[..i]).s, t).Idle?
    && forall k :: i < k <= |evs| ==> Carries(At(Run(s, evs[..k]).s, t), m, w, urgent)
  }

  /** The task waits to send this message. */
  predicate Carries(p: Pc, m: Message, w: Wait, urgent: bool) {
    p == Blocked(m, urgent, w) || p == Selected(m, urgent)
  }

  /** A task waits to send only what it called msgQSend with. */
  lemma StepCarries(s: State, e: Event, t: Task)
    requires Sending(At(Step(s, e).s, t))
    ensures var p, p' := At(s, t), At(Step(s, e).s, t);
            if p.Idle? then e.Send? && e.t == t && p' == Blocked(e.m, e.urgent, e.w)
            else Sending(p) && (p' == p || (p.Blocked? && p' == Selected(p.m, p.urgent)))
  {
    hide Linked, Without, SignalForMyTask, Priorities;
  }

  lemma {:induction false} CallOf(s: State, evs: seq<Event>, t: Task) returns (i: nat, w: Wait)
    requires s.pc == map[] && Sending(At(Run(s, evs).s, t))
    ensures var p := At(Run(s, evs).s, t); Inside(s, evs, i, t, p.m, w, p.urgent)
  {
    hide Step;
    var front, e := evs[..|evs| - 1], evs[|evs| - 1];
    var p := At(Run(s, evs).s, t);
    StepCarries(Run(s, front).s, e, t);
    assert evs[..|evs|] == evs;
    if At(Run(s, front).s, t).Idle? {
      i, w := |evs| - 1, e.w;
    } else {
      i, w := CallOf(s, front, t);
      assert evs[..i] == front[..i] && front[..|front|] == front;
      assert Carries(At(Run(s, front).s, t), At(Run(s, front).s, t).m, w, At(Run(s, front).s, t).urgent);
      assert Carries(p, p.m, w, p.urgent);
      forall k | i < k <= |evs|
        ensures Carries(At(Run(s, evs[..k]).s, t), p.m, w, p.urgent)
      {
        assert k < |evs| ==> evs[..k] == front[..k];
      }
    }
  }

  // ---------------------------------------------------------------- what a step accepts

  /** The message of the call that this step answers: one just made, or one the task is waiting in. */
  function Brought(s: State, e: Event): Message {
    if e.Send? then e.m else if Sending(At(s, e.t)) then At(s, e.t).m else []
  }

  /** A step accepts at most one message, which is the one that its task brought. */
  lemma StepAccepts(s: State, e: Event, o: Obs)
    requires o in Step(s, e).obs && o.Accepted?
    ensures Step(s, e).obs == [o] && o.m == Brought(s, e)
    ensures if e.Send? then
              At(s, e.t).Idle? && (o.urgent == e.urgent || (!o.urgent && s.cb.n == 0 && s.cb.readers != []))
            else At(s, e.t) == Selected(o.m, o.urgent)
  {
    hide Linked, Without, SignalForMyTask, Priorities;
  }

  /** After `evs`, the event `e` accepts `o`, which ends the call made by event `i`. */
  ghost predicate Answers(cb: Block, evs: seq<Event>, e: Event, o: Obs, i: nat, t: Task, w: Wait, urgent: bool) {
    && o in Step(Run(Start(cb), evs).s, e).obs && o.Accepted? && t == e.t
    && if i == |evs| then e == Send(t, o.m, w, urgent) else Inside(Start(cb), evs, i, t, o.m, w, urgent)
  }

  /**
    Every message accepted is, byte for byte, the message of a call of msgQSend, inside which the task has
    been since; and it is accepted with the priority asked for, except that a queue of length zero with
    somebody waiting takes it as a normal one.
  */
  lemma FindSend(cb: Block, evs: seq<Event>, e: Event, o: Obs) returns (i: nat, t: Task, w: Wait, urgent: bool)
    requires o in Step(Run(Start(cb), evs).s, e).obs && o.Accepted?
    ensures Answers(cb, evs, e, o, i, t, w, urgent)
    ensures var s := Run(Start(cb), evs).s;
            o.urgent == urgent || (!o.urgent && i == |evs| && s.cb.n == 0 && s.cb.readers != [])
  {
    hide Run, Step, Inside;
    var s := Run(Start(cb), evs).s;
    StepAccepts(s, e, o);
    t := e.t;
    if e.Send? {
      i, w, urgent := |evs|, e.w, e.urgent;
    } else {
      i, w := CallOf(Start(cb), evs, t);
      urgent := o.urgent;
      InsideBounds(Start(cb), evs, i, t, o.m, w, urgent);
    }
  }

  lemma InsideBounds(s: State, evs: seq<Event>, i: nat, t: Task, m: Message, w: Wait, urgent: bool)
    requires Inside(s, evs, i, t, m, w, urgent)
    ensures i < |evs|
  {}

  // ---------------------------------------------------------------- accounts

  /** The last call of msgQSend that a free task made. */
  function LastSend(s: State, evs: seq<Event>, t: Task): Option<Event> {
    if evs == [] then None
    else
      var front, e := evs[..|evs| - 1], evs[|evs| - 1];
      if e.Send? && e.t == t && At(Run(s, front).s, t).Idle? then Some(e) else LastSend(s, front, t)
  }

  lemma {:induction false} WaitsWithLastSend(s: State, evs: seq<Event>, t: Task)
    requires s.pc == map[] && Sending(At(Run(s, evs).s, t))
    ensures var e, p := LastSend(s, evs, t), At(Run(s, evs).s, t);
            e.Some? && e.value.Send? && Carries(p, e.value.m, e.value.w, e.value.urgent)
  {
    hide Step;
    var front, e := evs[..|evs| - 1], evs[|evs| - 1];
    StepCarries(Run(s, front).s, e, t);
    if !At(Run(s, front).s, t).Idle? {
      WaitsWithLastSend(s, front, t);
    }
  }

  /**
    The messages that callers of msgQSend have been told OK about, in the order in which that happened,
    taken from the calls.
  */
  function Posted(s: State, evs: seq<Event>): seq<Message> {
    if evs == [] then []
    else
      var front, e := evs[..|evs| - 1], evs[|evs| - 1];
      var r := Run(s, front).s;
      Posted(s, front) +
      if Pick(Step(r, e).obs, MessageIn) == [] then []
      else if e.Send? then [e.m]
      else
        match LastSend(s, front, e.t)
        case Some(Send(_, m, _, _)) => [m]
        case _ => []
  }

  lemma StepPosts(s: State, e: Event)
    ensures Pick(Step(s, e).obs, MessageIn) == [] || Pick(Step(s, e).obs, MessageIn) == [Brought(s, e)]
    ensures Pick(Step(s, e).obs, MessageIn) != [] ==> e.Send? || Sending(At(s, e.t))
  {
    hide Step, Pick;
    var obs := Step(s, e).obs;
    if o :| o in obs && o.Accepted? {
      StepAccepts(s, e, o);
      PickOne(o, MessageIn);
    } else {
      NothingAccepted(obs);
    }
  }

  lemma {:induction false} NothingAccepted(obs: seq<Obs>)
    requires forall o :: o in obs ==> !o.Accepted?
    ensures Pick(obs, MessageIn) == []
  {
    if obs != [] {
      assert obs[|obs| - 1] in obs;
      forall o | o in obs[..|obs| - 1]
        ensures !o.Accepted?
      {
        assert o in obs;
      }
      NothingAccepted(obs[..|obs| - 1]);
    }
  }

  /** What a run shows as accepted is what callers sent. */
  lemma {:induction false} AcceptedIsPosted(s: State, evs: seq<Event>)
    requires s.pc == map[]
    ensures Pick(Run(s, evs).obs, MessageIn) == Posted(s, evs)
  {
    hide Step, Pick;
    PickOne(Failed(0), MessageIn);
    if evs != [] {
      var front, e := evs[..|evs| - 1], evs[|evs| - 1];
      var r := Run(s, front);
      AcceptedIsPosted(s, front);
      StepPosts(r.s, e);
      PickConcat(r.obs, Step(r.s, e).obs, MessageIn);
      if !e.Send? && Sending(At(r.s, e.t)) {
        WaitsWithLastSend(s, front, e.t);
      }
      assert Pick(r.obs, MessageIn) + [] == Pick(r.obs, MessageIn);
    }
  }

  // ---------------------------------------------------------------- no message vanishes

  function MessageOf(p: Pc): Message {
    if Sending(p) then p.m else []
  }

  /** The messages that waiting senders have with them, in the order of the line. */
  function Held(s: State): (r: seq<Message>)
    ensures |r| == |s.cb.writers|
  {
    seq(|s.cb.writers|, i requires 0 <= i < |s.cb.writers| => MessageOf(At(s, s.cb.writers[i])))
  }

  /** A step that ends a call of msgQSend: its message is accepted, or refused. */
  predicate Refuses(s: State, e: Event) {
    (e.Send? || e.SendExpire?) && Step(s, e).obs == [Failed(e.t)]
  }

  predicate Accepts(s: State, e: Event) {
    |Step(s, e).obs| == 1 && Step(s, e).obs[0].Accepted?
  }

  function Asks(s: State, e: Event): seq<Message> {
    if e.Send? && At(s, e.t).Idle? then [e.m] else []
  }

  function Ends(s: State, e: Event): seq<Message> {
    if Accepts(s, e) || Refuses(s, e) then [Brought(s, e)] else []
  }

  /** Taking one message out of a row. */
  lemma RowWithout(a: seq<Message>, b: seq<Message>, p: nat)
    requires p < |a| && |b| == |a| - 1 && forall i :: 0 <= i < |b| ==> b[i] == a[if i < p then i else i + 1]
    ensures multiset(a) == multiset(b) + multiset{a[p]}
  {
    assert b == a[..p] + a[p + 1..];
    assert a == a[..p] + [a[p]] + a[p + 1..];
  }

  lemma HeldWithout(s: State, s': State, t: Task)
    requires t in s.cb.writers && s'.cb.writers == Without(s.cb.writers, t) && Distinct(s.cb.writers)
    requires forall u :: u in s.cb.writers && u != t ==> At(s', u) == At(s, u)
    ensures multiset(Held(s)) == multiset(Held(s')) + multiset{MessageOf(At(s, t))}
  {
    hide Distinct, MessageOf, Without, Position;
    var p := Position(s.cb.writers, t);
    WithoutMembers(s.cb.writers, t);
    forall i | 0 <= i < |Held(s')|
      ensures Held(s')[i] == Held(s)[if i < p then i else i + 1]
    {
      WithoutAt(s.cb.writers, t, i);
      assert s'.cb.writers[i] in s'.cb.writers;
    }
    RowWithout(Held(s), Held(s'), p);
  }

  lemma HeldSame(s: State, s': State)
    requires s'.cb.writers == s.cb.writers
    requires forall u :: u in s.cb.writers ==> MessageOf(At(s', u)) == MessageOf(At(s, u))
    ensures Held(s') == Held(s)
  {
    assert forall i :: 0 <= i < |Held(s)| ==> s.cb.writers[i] in s.cb.writers;
  }

  /** What a step does to the waiting senders: one leaves, one comes, or they stay as they are. */
  ghost predicate WaitersFollow(s: State, e: Event, s': State) {
    && (forall u :: u in s.cb.writers && u != e.t ==> At(s', u) == At(s, u))
    && (e.t in s.cb.writers <==> Sending(At(s, e.t)))
    && (if e.t in s.cb.writers && Ends(s, e) != [] then s'.cb.writers == Without(s.cb.writers, e.t)
        else if Asks(s, e) != [] && Ends(s, e) == [] then
          s'.cb.writers == s.cb.writers + [e.t] && At(s', e.t) == Blocked(e.m, e.urgent, e.w)
        else s'.cb.writers == s.cb.writers && MessageOf(At(s', e.t)) == MessageOf(At(s, e.t)))
    && (Ends(s, e) != [] && Asks(s, e) == [] ==> e.t in s.cb.writers)
    && (Ends(s, e) != [] && Asks(s, e) != [] ==> Ends(s, e) == Asks(s, e))
  }

  lemma SendWaiters(s: State, e: Event)
    requires Inv(s) && e.Send?
    ensures WaitersFollow(s, e, Step(s, e).s)
  {
    hide Without, Distinct;
    assert forall u :: u in s.cb.writers ==> Sending(At(s, u));
    assert e.t in s.cb.writers <==> Sending(At(s, e.t));
  }

  lemma WaiterWaiters(s: State, e: Event)
    requires Inv(s) && (e.Test? || e.Post? || e.SendExpire?)
    ensures WaitersFollow(s, e, Step(s, e).s)
  {
    hide Without, Distinct, SignalForMyTask;
    assert forall u :: u in s.cb.writers ==> Sending(At(s, u));
    assert e.t in s.cb.writers <==> Sending(At(s, e.t));
  }

  lemma ReaderWaiters(s: State, e: Event)
    requires Inv(s) && IsReaders(e)
    ensures WaitersFollow(s, e, Step(s, e).s)
  {
    hide Step, Distinct;
    ReaderStep(s, e);
    ReadersAcceptNothing(s, e);
  }

  lemma ReadersAcceptNothing(s: State, e: Event)
    requires IsReaders(e)
    ensures !Accepts(s, e)
  {
    hide SignalForMyTask, Without, Linked;
  }

  lemma StepWaiters(s: State, e: Event)
    requires Inv(s)
    ensures WaitersFollow(s, e, Step(s, e).s)
  {
    hide Inv, WaitersFollow;
    if e.Send? {
      SendWaiters(s, e);
    } else if IsReaders(e) {
      ReaderWaiters(s, e);
    } else {
      WaiterWaiters(s, e);
    }
  }

  // ---------------------------------------------------------------- the account

  /** The messages of all calls of msgQSend that free tasks made. */
  function Asked(s: State, evs: seq<Event>): seq<Message> {
    if evs == [] then []
    else
      var front, e := evs[..|evs| - 1], evs[|evs| - 1];
      Asked(s, front) + Asks(Run(s, front).s, e)
  }

  /** The messages of the calls that were turned down: too long, no room under NO_WAIT, or timed out. */
  function Refused(s: State, evs: seq<Event>): seq<Message> {
    if evs == [] then []
    else
      var front, e := evs[..|evs| - 1], evs[|evs| - 1];
      Refused(s, front) + if Refuses(Run(s, front).s, e) then [Brought(Run(s, front).s, e)] else []
  }

  lemma StepHolds(s: State, e: Event)
    requires Inv(s)
    ensures multiset(Held(s)) + multiset(Asks(s, e)) == multiset(Held(Step(s, e).s)) + multiset(Ends(s, e))
  {
    hide Step, Ends, Asks, MessageOf, Without;
    var s' := Step(s, e).s;
    StepWaiters(s, e);
    EndsIs(s, e);
    if e.t in s.cb.writers && Ends(s, e) != [] {
      HeldWithout(s, s', e.t);
    } else if Asks(s, e) != [] && Ends(s, e) == [] {
      HeldMore(s, s', e);
    } else {
      HeldSame(s, s');
    }
  }

  lemma EndsIs(s: State, e: Event)
    ensures Ends(s, e) == [] || (Ends(s, e) == [Brought(s, e)] && |Asks(s, e)| <= 1)
    ensures Sending(At(s, e.t)) ==>
              Asks(s, e) == [] && (Ends(s, e) != [] ==> !e.Send? && Brought(s, e) == MessageOf(At(s, e.t)))
    ensures Asks(s, e) != [] ==> Asks(s, e) == [e.m] && e.Send?
  {
    hide MsgQSend, MsgQReceive, Loop, Repoll;
  }

  lemma HeldMore(s: State, s': State, e: Event)
    requires e.Send? && s'.cb.writers == s.cb.writers + [e.t] && At(s', e.t) == Blocked(e.m, e.urgent, e.w)
    requires e.t !in s.cb.writers && forall u :: u in s.cb.writers ==> At(s', u) == At(s, u)
    ensures Held(s') == Held(s) + [e.m]
  {}

  lemma StepPostsOrNot(s: State, e: Event)
    ensures multiset(Ends(s, e)) ==
            multiset(Pick(Step(s, e).obs, MessageIn)) + multiset(if Refuses(s, e) then [Brought(s, e)] else [])
  {
    hide Step, Pick;
    StepPosts(s, e);
    if Accepts(s, e) {
      PickOne(Step(s, e).obs[0], MessageIn);
      assert Step(s, e).obs == [Step(s, e).obs[0]];
    } else {
      if o :| o in Step(s, e).obs && o.Accepted? { StepAccepts(s, e, o); }
      NothingAccepted(Step(s, e).obs);
    }
  }

  /**
    No message vanishes and none is made up on the way in: those that callers asked to send are those
    accepted, those refused, and those that callers still wait with.
  */
  lemma {:induction false} SendsAccounted(n: nat, msgLen: nat, byPriority: bool, evs: seq<Event>)
    ensures var s := Start(MsgQCreate(n, msgLen, byPriority));
            multiset(Asked(s, evs)) ==
            multiset(Posted(s, evs)) + multiset(Refused(s, evs)) + multiset(Held(Run(s, evs).s))
  {
    hide Step, Pick, Posted, Held, Refuses, Asks, Ends;
    var s := Start(MsgQCreate(n, msgLen, byPriority));
    AcceptedIsPosted(s, evs);
    if evs == [] {
      NothingHeld(s);
      NothingAccepted([]);
    } else {
      var front, e := evs[..|evs| - 1], evs[|evs| - 1];
      var r := Run(s, front);
      SendsAccounted(n, msgLen, byPriority, front);
      AcceptedIsPosted(s, front);
      RunKeepsInv(n, msgLen, byPriority, front);
      StepHolds(r.s, e);
      StepPostsOrNot(r.s, e);
      PickConcat(r.obs, Step(r.s, e).obs, MessageIn);
      Balance(multiset(Asked(s, front)), multiset(Pick(r.obs, MessageIn)), multiset(Refused(s, front)),
              multiset(Held(r.s)), multiset(Asks(r.s, e)), multiset(Held(Step(r.s, e).s)), multiset(Ends(r.s, e)),
              multiset(Pick(Step(r.s, e).obs, MessageIn)),
              multiset(if Refuses(r.s, e) then [Brought(r.s, e)] else []));
    }
  }

  lemma NothingHeld(s: State)
    requires s.cb.writers == []
    ensures Held(s) == []
  {}

  lemma Balance<T>(asked: multiset<T>, posted: multiset<T>, refused: multiset<T>, held: multiset<T>,
                   asks: multiset<T>, held': multiset<T>, ends: multiset<T>, posts: multiset<T>, refuses: multiset<T>)
    requires asked == posted + refused + held && held + asks == held' + ends && ends == posts + refuses
    ensures asked + asks == (posted + posts) + (refused + refuses) + held'
  {
    assert asked + asks == posted + refused + (held + asks);
    assert posted + refused + (held' + (posts + refuses)) == (posted + posts) + (refused + refuses) + held';
  }
}
