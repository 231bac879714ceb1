/**
  What the ring really stores and delivers.  The step machine keeps its messages in a sequence `q` that
  never runs out of room; here the same traces are played to the ring of slots, which does.
*/
module QueueContents {
  import opened Sequences
  import opened Traces
  import opened Selection
  import opened MessageQueue
  import opened QueueCapacity
  import opened QueueCalls
  import opened QueueDelivery
  import QueueOrder
  import opened SlotRing

  /** The ring, and the messages fetched from it so far. */
  datatype Log = Log(ring: Ring, out: seq<Message>)

  function Apply(l: Log, o: Obs): (r: Log)
    requires l.ring.Valid()
    ensures r.ring.Valid() && |r.ring.slots| == |l.ring.slots|
  {
    match o
    case Accepted(m, urgent) => l.(ring := if urgent then Prepend(l.ring, m) else Append(l.ring, m))
    case Fetched(_, _) =>
      if l.ring.count == 0 then l else Log(Drop(l.ring), l.out + [l.ring.slots[l.ring.first]])
    case _ => l
  }

  function Replay(l: Log, tr: seq<Obs>): (r: Log)
    requires l.ring.Valid()
    ensures r.ring.Valid() && |r.ring.slots| == |l.ring.slots|
  {
    if tr == [] then l else Apply(Replay(l, tr[..|tr| - 1]), tr[|tr| - 1])
  }

  lemma {:induction false} ReplayConcat(l: Log, a: seq<Obs>, b: seq<Obs>)
    requires l.ring.Valid()
    ensures Replay(l, a + b) == Replay(Replay(l, a), b)
  {
    if b == [] {
      assert a + b == a;
    } else {
      ReplayConcat(l, a, b[..|b| - 1]);
      assert (a + b)[..|a + b| - 1] == a + b[..|b| - 1];
    }
  }

  /** The ring after a whole trace. */
  function Replayed(n: nat, tr: seq<Obs>): (r: Log)
    ensures r.ring.Valid() && |r.ring.slots| == n + 1
  {
    Replay(Log(Empty(n), []), tr)
  }

  // ---------------------------------------------------------------- one step

  /** What the observation says about the messages is what happens to them. */
  predicate ShowsOne(q: seq<Message>, o: Obs, q': seq<Message>) {
    match o
    case Accepted(m, urgent) => q' == if urgent then [m] + q else q + [m]
    case Fetched(_, m) => q != [] && m == q[0] && q' == q[1..]
    case _ => q' == q
  }

  predicate Shows(q: seq<Message>, obs: seq<Obs>, q': seq<Message>) {
    if obs == [] then q' == q
    else if |obs| == 1 then ShowsOne(q, obs[0], q')
    else |obs| == 2 && obs[0].Pended? && ShowsOne(q, obs[1], q')
  }

  lemma LoopShows(cb: Block, prio: map<Task, int>, t: Task, w: Wait, expired: bool, late: bool)
    ensures var r := Loop(cb, prio, t, w, expired); Shows(cb.q, r.obs, r.cb.q) && |r.obs| <= 1
    ensures var r := Repoll(cb, prio, t, w, expired, late); Shows(cb.q, r.obs, r.cb.q)
  {
    hide SignalForMyTask, Without;
  }

  lemma StepShows(s: State, e: Event)
    ensures Shows(s.cb.q, Step(s, e).obs, Step(s, e).s.cb.q)
  {
    hide SignalForMyTask, Without, Linked, Loop, Repoll;
    var p := At(s, e.t);
    match e
    case Receive(t, buflen, w) =>
      LoopShows(s.cb.(readers := Linked(s.cb.readers, t)), s.prio, t, w, false, false);
    case Resume(t, late) =>
      if p.Awake? || p.Polling? { LoopShows(s.cb, s.prio, t, p.w, p.expired, late); }
    case _ =>
  }

  /** The ring has as many messages as `q`; if `exact`, the very same, and `out` is what was fetched. */
  ghost predicate Matches(l: Log, q: seq<Message>, out: seq<Message>, exact: bool) {
    && l.ring.Valid() && l.ring.count == |q| && |l.out| == |out|
    && (exact ==> l.ring.Holds(q) && l.out == out)
  }

  lemma ApplyMatches(l: Log, q: seq<Message>, out: seq<Message>, exact: bool, o: Obs, q': seq<Message>)
    requires Matches(l, q, out, exact) && ShowsOne(q, o, q') && (exact ==> |q'| <= |l.ring.slots|)
    ensures Matches(Apply(l, o), q', out + Pick([o], MessageOut), exact)
  {
    hide Pick;
    PickOne(o, MessageOut);
    if exact {
      match o
      case Accepted(m, urgent) =>
        if urgent { PrependHolds(l.ring, q, m); } else { AppendHolds(l.ring, q, m); }
      case Fetched(_, _) => DropHolds(l.ring, q);
      case _ => assert out + [] == out;
    }
  }

  lemma ReplayMatches(l: Log, q: seq<Message>, out: seq<Message>, exact: bool, obs: seq<Obs>, q': seq<Message>)
    requires Matches(l, q, out, exact) && Shows(q, obs, q') && (exact ==> |q'| <= |l.ring.slots|)
    ensures Matches(Replay(l, obs), q', out + Pick(obs, MessageOut), exact)
  {
    if obs == [] {
      assert out + [] == out;
    } else {
      var o := obs[|obs| - 1];
      assert obs[..|obs| - 1] == if |obs| == 1 then [] else [obs[0]];
      assert Replay(l, obs[..|obs| - 1]) == l by { ReplayPended(l, obs[0]); }
      ApplyMatches(l, q, out, exact, o, q');
      PickOne(o, MessageOut);
      PickOne(obs[0], MessageOut);
    }
  }

  lemma ReplayPended(l: Log, o: Obs)
    requires l.ring.Valid()
    ensures Replay(l, []) == l && (o.Pended? ==> Replay(l, [o]) == l)
  {
    assert [o][..0] == [];
  }

  // ---------------------------------------------------------------- runs

  /** The queue never comes to hold more messages than there are slots. */
  ghost predicate NeverOverfull(cb: Block, evs: seq<Event>) {
    forall k :: 0 <= k <= |evs| ==> |Run(Start(cb), evs[..k]).s.cb.q| <= cb.n + 1
  }

  lemma OverfullPrefix(cb: Block, evs: seq<Event>, k: nat)
    requires NeverOverfull(cb, evs) && k <= |evs|
    ensures NeverOverfull(cb, evs[..k]) && |Run(Start(cb), evs[..k]).s.cb.q| <= cb.n + 1
  {
    hide Run;
    forall j | 0 <= j <= k
      ensures evs[..k][..j] == evs[..j]
    {}
  }

  /**
    In every run the ring counts the messages of `q`; and as long as it never comes to more than there
    are slots, it stores and has delivered exactly those of the step machine.
  */
  lemma {:induction false} RingFollows(cb: Block, evs: seq<Event>)
    requires cb.q == []
    ensures var r := Run(Start(cb), evs);
            Matches(Replayed(cb.n, r.obs), r.s.cb.q, Pick(r.obs, MessageOut), NeverOverfull(cb, evs))
  {
    hide Step, Pick, NeverOverfull;
    if evs == [] {
      assert Pick([], MessageOut) == [] by { NothingPicked(); }
    } else {
      var n, front, e := |evs| - 1, evs[..|evs| - 1], evs[|evs| - 1];
      var r := Run(Start(cb), front);
      var o, exact := Step(r.s, e), NeverOverfull(cb, evs);
      RingFollows(cb, front);
      if exact {
        OverfullPrefix(cb, evs, n);
        OverfullPrefix(cb, evs, |evs|);
        assert evs[..|evs|] == evs;
      }
      StepShows(r.s, e);
      ReplayMatches(Replayed(cb.n, r.obs), r.s.cb.q, Pick(r.obs, MessageOut), exact, o.obs, o.s.cb.q);
      ReplayConcat(Log(Empty(cb.n), []), r.obs, o.obs);
      PickConcat(r.obs, o.obs, MessageOut);
    }
  }

  lemma NothingPicked()
    ensures Pick([], MessageOut) == []
  {}

  /** Of the bytes: the messages accepted are those delivered and those still stored. */
  ghost predicate Conserved(n: nat, tr: seq<Obs>) {
    multiset(Replayed(n, tr).out) + multiset(Replayed(n, tr).ring.Stored()) == multiset(Pick(tr, MessageIn))
  }

  lemma ConservedWhileItFits(n: nat, msgLen: nat, byPriority: bool, evs: seq<Event>)
    requires NeverOverfull(MsgQCreate(n, msgLen, byPriority), evs)
    ensures Conserved(n, Run(Start(MsgQCreate(n, msgLen, byPriority)), evs).obs)
  {
    hide Run, Pick, NeverOverfull;
    RingFollows(MsgQCreate(n, msgLen, byPriority), evs);
    QueueOrder.MessagesConserved(n, msgLen, byPriority, evs);
  }

  lemma LostWhenOverfull(n: nat, msgLen: nat, byPriority: bool, evs: seq<Event>)
    requires |Run(Start(MsgQCreate(n, msgLen, byPriority)), evs).s.cb.q| > n + 1
    ensures !Conserved(n, Run(Start(MsgQCreate(n, msgLen, byPriority)), evs).obs)
  {
    hide Run, Pick, NeverOverfull;
    var r := Run(Start(MsgQCreate(n, msgLen, byPriority)), evs);
    RingFollows(MsgQCreate(n, msgLen, byPriority), evs);
    QueueOrder.MessagesConserved(n, msgLen, byPriority, evs);
    var l := Replayed(n, r.obs);
    assert |multiset(l.out) + multiset(l.ring.Stored())| == |l.out| + |l.ring.Stored()|;
    assert |multiset(Pick(r.obs, MessageOut)) + multiset(r.s.cb.q)| == |Pick(r.obs, MessageOut)| + |r.s.cb.q|;
  }

  /** Messages are conserved all along a run exactly if the queue is never over-full in it. */
  lemma ConservedExactlyWhen(n: nat, msgLen: nat, byPriority: bool, evs: seq<Event>)
    ensures var cb := MsgQCreate(n, msgLen, byPriority);
            NeverOverfull(cb, evs) <==>
            forall k :: 0 <= k <= |evs| ==> Conserved(n, Run(Start(cb), evs[..k]).obs)
  {
    hide Run, Conserved;
    var cb := MsgQCreate(n, msgLen, byPriority);
    forall k | 0 <= k <= |evs|
      ensures NeverOverfull(cb, evs) ==> Conserved(n, Run(Start(cb), evs[..k]).obs)
      ensures |Run(Start(cb), evs[..k]).s.cb.q| > n + 1 ==> !Conserved(n, Run(Start(cb), evs[..k]).obs)
    {
      if NeverOverfull(cb, evs) {
        OverfullPrefix(cb, evs, k);
        ConservedWhileItFits(n, msgLen, byPriority, evs[..k]);
      }
      if |Run(Start(cb), evs[..k]).s.cb.q| > n + 1 {
        LostWhenOverfull(n, msgLen, byPriority, evs[..k]);
      }
    }
  }

  /** Traffic that the ring can take is never over-full. */
  lemma AllowedFits(n: nat, msgLen: nat, byPriority: bool, blocking: bool, urgent: bool, evs: seq<Event>)
    requires AlwaysFits(n, msgLen, byPriority, blocking, urgent) && AllAllowed(evs, blocking, urgent)
    ensures NeverOverfull(MsgQCreate(n, msgLen, byPriority), evs)
  {
    hide Run;
    forall k | 0 <= k <= |evs|
      ensures |Run(Start(MsgQCreate(n, msgLen, byPriority)), evs[..k]).s.cb.q| <= n + 1
    {
      assert AllAllowed(evs[..k], blocking, urgent);
    }
  }

  /**
    So a kind of traffic loses no message, in any run, exactly if no sender waits, or the queue is FIFO
    and not of length zero and carries no urgent messages.
  */
  lemma KindConservedExactlyWhen(n: nat, msgLen: nat, byPriority: bool, blocking: bool, urgent: bool)
    ensures (forall evs: seq<Event> :: AllAllowed(evs, blocking, urgent) ==>
               Conserved(n, Run(Start(MsgQCreate(n, msgLen, byPriority)), evs).obs)) <==>
            !blocking || (n >= 1 && !urgent && !byPriority)
  {
    hide Run, Conserved, AllAllowed;
    FitsExactlyWhen(n, msgLen, byPriority, blocking, urgent);
    forall evs: seq<Event> | AllAllowed(evs, blocking, urgent)
      ensures AlwaysFits(n, msgLen, byPriority, blocking, urgent) ==>
                Conserved(n, Run(Start(MsgQCreate(n, msgLen, byPriority)), evs).obs)
      ensures |Run(Start(MsgQCreate(n, msgLen, byPriority)), evs).s.cb.q| > n + 1 ==>
                !Conserved(n, Run(Start(MsgQCreate(n, msgLen, byPriority)), evs).obs)
    {
      if AlwaysFits(n, msgLen, byPriority, blocking, urgent) {
        AllowedFits(n, msgLen, byPriority, blocking, urgent, evs);
        ConservedWhileItFits(n, msgLen, byPriority, evs);
      }
      if |Run(Start(MsgQCreate(n, msgLen, byPriority)), evs).s.cb.q| > n + 1 {
        LostWhenOverfull(n, msgLen, byPriority, evs);
      }
    }
  }
}
