/** Where messages go, and that receivers are served in the right order. */
module QueueOrder {
  import opened Sequences
  import opened Traces
  import opened Selection
  import opened MessageQueue
  import opened QueueSafety
  import opened QueueCalls
  import opened QueueDelivery
  import Line

  // ---------------------------------------------------------------- conservation

  ghost predicate Conserves(cb: Block, obs: seq<Obs>, cb': Block) {
    multiset(Pick(obs, MessageOut)) + multiset(cb'.q) == multiset(cb.q) + multiset(Pick(obs, MessageIn))
  }

  lemma ConservesNothing(cb: Block, cb': Block)
    requires cb'.q == cb.q
    ensures Conserves(cb, [], cb')
  {}

  lemma ConservesOne(cb: Block, o: Obs, cb': Block)
    requires match o
             case Fetched(_, m) => multiset{m} + multiset(cb'.q) == multiset(cb.q)
             case Accepted(m, _) => multiset(cb'.q) == multiset(cb.q) + multiset{m}
             case _ => cb'.q == cb.q
    ensures Conserves(cb, [o], cb')
  {
    PickOne(o, MessageOut);
    PickOne(o, MessageIn);
  }

  lemma ConservesBoth(cb: Block, a: seq<Obs>, cb1: Block, b: seq<Obs>, cb2: Block)
    requires Conserves(cb, a, cb1) && Conserves(cb1, b, cb2)
    ensures Conserves(cb, a + b, cb2)
  {
    PickConcat(a, b, MessageOut);
    PickConcat(a, b, MessageIn);
    var outA, outB := multiset(Pick(a, MessageOut)), multiset(Pick(b, MessageOut));
    var inA, inB := multiset(Pick(a, MessageIn)), multiset(Pick(b, MessageIn));
    assert multiset(Pick(a + b, MessageOut)) == outA + outB && multiset(Pick(a + b, MessageIn)) == inA + inB;
    assert outA + outB + multiset(cb2.q) == outA + (outB + multiset(cb2.q));
    assert outA + (multiset(cb1.q) + inB) == outA + multiset(cb1.q) + inB;
    assert multiset(cb.q) + inA + inB == multiset(cb.q) + (inA + inB);
  }

  lemma LoopConserves(cb: Block, prio: map<Task, int>, t: Task, w: Wait, expired: bool, late: bool)
    ensures Conserves(cb, Loop(cb, prio, t, w, expired).obs, Loop(cb, prio, t, w, expired).cb)
    ensures Conserves(cb, Repoll(cb, prio, t, w, expired, late).obs, Repoll(cb, prio, t, w, expired, late).cb)
  {
    hide Conserves, SignalForMyTask, Without, Position;
    ConservesNothing(cb, cb);
    ConservesOne(cb, GaveUp(t), cb.(readers := Without(cb.readers, t)));
    if cb.q != [] {
      assert cb.q == [cb.q[0]] + cb.q[1..];
      ConservesOne(cb, Fetched(t, cb.q[0]), Fetch(cb, t).cb);
    }
  }

  lemma ReceiveConserves(cb: Block, prio: map<Task, int>, t: Task, buflen: nat, w: Wait)
    ensures var r := MsgQReceive(cb, prio, t, buflen, w); Conserves(cb, r.obs, r.cb)
  {
    hide Conserves, Loop, Linked;
    var linked := cb.(readers := Linked(cb.readers, t));
    var r := Loop(linked, prio, t, w, false);
    ConservesOne(cb, Failed(t), cb);
    LoopConserves(linked, prio, t, w, false, false);
    ConservesOne(cb, Pended(t), linked);
    ConservesBoth(cb, [Pended(t)], linked, r.obs, r.cb);
  }

  lemma SendConserves(cb: Block, t: Task, m: Message, w: Wait, urgent: bool)
    ensures var r := MsgQSend(cb, t, m, w, urgent); Conserves(cb, r.obs, r.cb)
    ensures var r := PostAfterWait(cb, t, m, urgent); Conserves(cb, r.obs, r.cb)
    ensures var r := SendTimesOut(cb, t); Conserves(cb, r.obs, r.cb)
  {
    hide Conserves, Without, Linked;
    ConservesNothing(cb, WaitToSend(cb, t, m, w, urgent).cb);
    ConservesOne(cb, Failed(t), cb);
    ConservesOne(cb, Failed(t), SendTimesOut(cb, t).cb);
    ConservesOne(cb, Accepted(m, urgent), PostTo(cb, m, urgent).cb);
    ConservesOne(cb, Accepted(m, false), PostTo(cb, m, false).cb);
    ConservesOne(cb, Accepted(m, urgent), PostAfterWait(cb, t, m, urgent).cb);
  }

  lemma StepConserves(s: State, e: Event)
    ensures Conserves(s.cb, Step(s, e).obs, Step(s, e).s.cb)
  {
    hide Conserves, MsgQSend, MsgQReceive, Loop, Repoll, PostAfterWait, SendTimesOut;
    var p := At(s, e.t);
    ConservesNothing(s.cb, s.cb);
    match e
    case Send(t, m, w, urgent) => SendConserves(s.cb, t, m, w, urgent);
    case Post(t) => if p.Selected? { SendConserves(s.cb, t, p.m, NoWait, p.urgent); }
    case SendExpire(t) => if p.Blocked? { SendConserves(s.cb, t, p.m, NoWait, p.urgent); }
    case Receive(t, buflen, w) => if p.Idle? { ReceiveConserves(s.cb, s.prio, t, buflen, w); }
    case Resume(t, late) => if p.Awake? || p.Polling? { LoopConserves(s.cb, s.prio, t, p.w, p.expired, late); }
    case _ =>
  }

  lemma {:induction false} RunConserves(cb: Block, evs: seq<Event>)
    ensures Conserves(cb, Run(Start(cb), evs).obs, Run(Start(cb), evs).s.cb)
  {
    if evs == [] {
      ConservesNothing(cb, cb);
    } else {
      hide Conserves, Step;
      var r, e := Run(Start(cb), evs[..|evs| - 1]), evs[|evs| - 1];
      RunConserves(cb, evs[..|evs| - 1]);
      StepConserves(r.s, e);
      ConservesBoth(cb, r.obs, r.s.cb, Step(r.s, e).obs, Step(r.s, e).s.cb);
    }
  }

  /**
    The step machine conserves messages under any traffic: those accepted are those fetched and those in
    `q`, which is a sequence without bounds.  When that is also true of the bytes of the ring is the
    subject of QueueContents.
  */
  lemma MessagesConserved(n: nat, msgLen: nat, byPriority: bool, evs: seq<Event>)
    ensures var r := Run(Start(MsgQCreate(n, msgLen, byPriority)), evs);
            multiset(Pick(r.obs, MessageIn)) == multiset(Pick(r.obs, MessageOut)) + multiset(r.s.cb.q)
  {
    hide Run;
    RunConserves(MsgQCreate(n, msgLen, byPriority), evs);
  }

  // ---------------------------------------------------------------- order of service

  function MarkOf(o: Obs): Line.Mark {
    match o
    case Pended(t) => Line.Join(t)
    case Fetched(t, _) => Line.Serve(t)
    case GaveUp(t) => Line.Quit(t)
    case _ => Line.Pass
  }

  function Marks(tr: seq<Obs>): seq<Line.Mark> {
    Line.MarksOf(tr, MarkOf)
  }

  ghost predicate InLine(line: seq<Task>, obs: seq<Obs>, line': seq<Task>, fair: bool) {
    Line.InLine(line, obs, MarkOf, line', fair)
  }

  lemma NoMark(line: seq<Task>, fair: bool)
    ensures InLine(line, [], line, fair)
  {
    Line.NoMark(line, MarkOf, fair);
  }

  lemma OneMark(line: seq<Task>, o: Obs, fair: bool)
    requires Line.Admits(line, MarkOf(o)) && (fair ==> Line.ServesFront(line, MarkOf(o)))
    ensures InLine(line, [o], Line.Apply(line, MarkOf(o)), fair)
  {
    Line.OneMark(line, o, MarkOf, fair);
  }

  lemma LoopInLine(cb: Block, prio: map<Task, int>, t: Task, w: Wait, expired: bool, late: bool)
    requires t in cb.readers
    ensures var r := Loop(cb, prio, t, w, expired); InLine(cb.readers, r.obs, r.cb.readers, !cb.byPriority)
    ensures var r := Repoll(cb, prio, t, w, expired, late); InLine(cb.readers, r.obs, r.cb.readers, !cb.byPriority)
  {
    hide InLine;
    NoMark(cb.readers, !cb.byPriority);
    OneMark(cb.readers, GaveUp(t), !cb.byPriority);
    if cb.q != [] && SignalForMyTask(cb.readers, cb.byPriority, prio, t) {
      OneMark(cb.readers, Fetched(t, cb.q[0]), !cb.byPriority);
    }
  }

  lemma ReceiveInLine(cb: Block, prio: map<Task, int>, t: Task, buflen: nat, w: Wait)
    requires t !in cb.readers
    ensures var r := MsgQReceive(cb, prio, t, buflen, w); InLine(cb.readers, r.obs, r.cb.readers, !cb.byPriority)
  {
    hide Loop, Line.InLine;
    if buflen < cb.msgLen {
      OneMark(cb.readers, Failed(t), !cb.byPriority);
    } else {
      var linked := cb.(readers := cb.readers + [t]);
      LoopInLine(linked, prio, t, w, false, false);
      var r := Loop(linked, prio, t, w, false);
      Line.FirstMark(cb.readers, Pended(t), r.obs, MarkOf, r.cb.readers, !cb.byPriority);
    }
  }

  lemma SendInLine(cb: Block, t: Task, m: Message, w: Wait, urgent: bool, fair: bool)
    ensures var r := MsgQSend(cb, t, m, w, urgent); InLine(cb.readers, r.obs, r.cb.readers, fair)
    ensures var r := PostAfterWait(cb, t, m, urgent); InLine(cb.readers, r.obs, r.cb.readers, fair)
    ensures var r := SendTimesOut(cb, t); InLine(cb.readers, r.obs, r.cb.readers, fair)
  {
    hide InLine;
    NoMark(cb.readers, fair);
    OneMark(cb.readers, Failed(t), fair);
    OneMark(cb.readers, Accepted(m, urgent), fair);
    OneMark(cb.readers, Accepted(m, false), fair);
  }

  lemma StepInLine(s: State, e: Event)
    requires Inv(s)
    ensures InLine(s.cb.readers, Step(s, e).obs, Step(s, e).s.cb.readers, !s.cb.byPriority)
  {
    hide InLine, MsgQSend, MsgQReceive, Loop, Repoll, PostAfterWait, SendTimesOut;
    var p, fair := At(s, e.t), !s.cb.byPriority;
    assert e.t in s.cb.readers <==> Receiving(p);
    NoMark(s.cb.readers, fair);
    match e
    case Send(t, m, w, urgent) => SendInLine(s.cb, t, m, w, urgent, fair);
    case Post(t) => if p.Selected? { SendInLine(s.cb, t, p.m, NoWait, p.urgent, fair); }
    case SendExpire(t) => if p.Blocked? { SendInLine(s.cb, t, p.m, NoWait, p.urgent, fair); }
    case Receive(t, buflen, w) => if p.Idle? { ReceiveInLine(s.cb, s.prio, t, buflen, w); }
    case Resume(t, late) => if p.Awake? || p.Polling? { LoopInLine(s.cb, s.prio, t, p.w, p.expired, late); }
    case _ =>
  }

  /** Every run is that of a line of receivers; a FIFO queue serves its front only. */
  lemma {:induction false} RunInLine(n: nat, msgLen: nat, byPriority: bool, evs: seq<Event>)
    ensures var r := Run(Start(MsgQCreate(n, msgLen, byPriority)), evs);
            Line.LineSoFar(r.obs, MarkOf, r.s.cb.readers, !byPriority)
  {
    if evs != [] {
      var front, e := evs[..|evs| - 1], evs[|evs| - 1];
      var r := Run(Start(MsgQCreate(n, msgLen, byPriority)), front);
      RunInLine(n, msgLen, byPriority, front);
      QueueSafety.RunKeepsInv(n, msgLen, byPriority, front);
      StepInLine(r.s, e);
      Line.LineGoesOn(r.obs, MarkOf, r.s.cb.readers, Step(r.s, e).obs, Step(r.s, e).s.cb.readers, !byPriority);
    }
  }

  /** On a FIFO queue, under any traffic, messages go to receivers in the order in which they pended. */
  lemma FifoService(n: nat, msgLen: nat, evs: seq<Event>, i: nat, j: nat)
    requires i < j < |Run(Start(MsgQCreate(n, msgLen, false)), evs).obs|
    requires Run(Start(MsgQCreate(n, msgLen, false)), evs).obs[i].Fetched?
    requires Run(Start(MsgQCreate(n, msgLen, false)), evs).obs[j].Fetched?
    ensures var tr := Run(Start(MsgQCreate(n, msgLen, false)), evs).obs;
            0 <= Line.JoinedAt(Marks(tr[..i]), tr[i].t) < Line.JoinedAt(Marks(tr[..j]), tr[j].t)
  {
    hide Run, Line.Orderly, Line.Fair, Line.Replay, Line.JoinedAt;
    var tr := Run(Start(MsgQCreate(n, msgLen, false)), evs).obs;
    RunInLine(n, msgLen, false, evs);
    Line.MarkAt(tr, MarkOf, i);
    Line.MarkAt(tr, MarkOf, j);
    Line.ServedInOrder(Marks(tr), i, j);
  }

  /**
    On a priority queue, under any traffic and any changes of priority, a task that fetches has at that
    moment the highest priority of all pended tasks and pended earliest of its equals; one that fetches
    as it arrives outranks them all.
  */
  lemma HighestFetches(n: nat, msgLen: nat, evs: seq<Event>, e: Event, t: Task, m: Message)
    requires Fetched(t, m) in Step(Run(Start(MsgQCreate(n, msgLen, true)), evs).s, e).obs
    ensures var r := Run(Start(MsgQCreate(n, msgLen, true)), evs);
            var s, tr := r.s, Marks(r.obs);
            forall u :: u in s.cb.readers && u != t ==>
              || PriorityOf(s.prio, u) < PriorityOf(s.prio, t)
              || (PriorityOf(s.prio, u) == PriorityOf(s.prio, t) && t in s.cb.readers
                  && Line.JoinedAt(tr, t) < Line.JoinedAt(tr, u))
  {
    hide Step;
    var r := Run(Start(MsgQCreate(n, msgLen, true)), evs);
    var s, tr := r.s, Marks(r.obs);
    RunInLine(n, msgLen, true, evs);
    QueueSafety.RunKeepsInv(n, msgLen, true, evs);
    FetchIsSignalled(s, e, t, m);
    Line.StandsInOrder(tr);
    if t in s.cb.readers {
      ChosenOutranks(s.cb.readers, s.prio, tr, t);
    } else {
      NewcomerOutranks(s.cb.readers, s.prio, t);
    }
  }

  /** Whoever fetches was signalled: as one of the readers, or having just joined them. */
  lemma FetchIsSignalled(s: State, e: Event, t: Task, m: Message)
    requires Inv(s) && Fetched(t, m) in Step(s, e).obs
    ensures s.cb.q != [] && m == s.cb.q[0]
    ensures SignalForMyTask(if t in s.cb.readers then s.cb.readers else s.cb.readers + [t], s.cb.byPriority, s.prio, t)
  {
    hide SignalForMyTask;
    assert e.t in s.cb.readers <==> Receiving(At(s, e.t));
  }

  lemma NewcomerOutranks(readers: seq<Task>, prio: map<Task, int>, t: Task)
    requires SignalForMyTask(readers + [t], true, prio, t) && t !in readers
    ensures forall u :: u in readers ==> PriorityOf(prio, u) < PriorityOf(prio, t)
  {
    var ps := Priorities(readers + [t], prio);
    forall u | u in readers
      ensures PriorityOf(prio, u) < PriorityOf(prio, t)
    {
      var i := Position(readers, u);
      assert ps[i] == PriorityOf(prio, u) && ps[|readers|] == PriorityOf(prio, t);
    }
  }

  lemma ChosenOutranks(readers: seq<Task>, prio: map<Task, int>, tr: seq<Line.Mark>, t: Task)
    requires SignalForMyTask(readers, true, prio, t) && Line.Increasing(tr, readers)
    ensures t in readers
    ensures forall u :: u in readers && u != t ==>
              || PriorityOf(prio, u) < PriorityOf(prio, t)
              || (PriorityOf(prio, u) == PriorityOf(prio, t) && Line.JoinedAt(tr, t) < Line.JoinedAt(tr, u))
  {
    hide Line.JoinedAt;
    var ps := Priorities(readers, prio);
    var k := Chosen(ps, true);
    forall u | u in readers && u != t
      ensures || PriorityOf(prio, u) < PriorityOf(prio, t)
              || (PriorityOf(prio, u) == PriorityOf(prio, t) && Line.JoinedAt(tr, t) < Line.JoinedAt(tr, u))
    {
      var i := Position(readers, u);
      assert ps[i] == PriorityOf(prio, u) && ps[k] == PriorityOf(prio, t);
    }
  }

  /**
    And the other way round: if there is a message, a task waiting for ever that has the highest priority
    of all pended tasks and pended earliest of its equals gets it at its next turn.
  */
  lemma HighestIsServed(n: nat, msgLen: nat, evs: seq<Event>, t: Task, late: bool)
    requires var r := Run(Start(MsgQCreate(n, msgLen, true)), evs);
             && r.s.cb.q != [] && Receiving(At(r.s, t)) && At(r.s, t).w.Forever?
             && Outranks(r.s.cb.readers, r.s.prio, Marks(r.obs), t)
    ensures var s := Run(Start(MsgQCreate(n, msgLen, true)), evs).s;
            Step(s, Resume(t, late)).obs == [Fetched(t, s.cb.q[0])]
  {
    var r := Run(Start(MsgQCreate(n, msgLen, true)), evs);
    hide Run, Step, Line.Orderly, Line.Replay, Line.Increasing, Outranks, SignalForMyTask;
    QueueSafety.RunKeepsInv(n, msgLen, true, evs);
    RunInLine(n, msgLen, true, evs);
    Line.StandsInOrder(Marks(r.obs));
    PendedIsListed(r.s, t);
    HighestIsChosen(r.s.cb.readers, r.s.prio, Marks(r.obs), t);
    SignalledFetches(r.s, t, late);
  }

  lemma PendedIsListed(s: State, t: Task)
    requires Inv(s) && Receiving(At(s, t))
    ensures t in s.cb.readers
  {}

  lemma SignalledFetches(s: State, t: Task, late: bool)
    requires Inv(s) && Receiving(At(s, t)) && At(s, t).w.Forever? && s.cb.q != []
    requires SignalForMyTask(s.cb.readers, s.cb.byPriority, s.prio, t)
    ensures Step(s, Resume(t, late)).obs == [Fetched(t, s.cb.q[0])]
  {
    hide SignalForMyTask, Distinct;
  }

  /** Of the highest priority in the list, and the earliest of its equals to have joined. */
  ghost predicate Outranks(list: seq<Task>, prio: map<Task, int>, tr: seq<Line.Mark>, t: Task) {
    forall u :: u in list && u != t ==>
      || PriorityOf(prio, u) < PriorityOf(prio, t)
      || (PriorityOf(prio, u) == PriorityOf(prio, t) && Line.JoinedAt(tr, t) < Line.JoinedAt(tr, u))
  }

  lemma HighestIsChosen(list: seq<Task>, prio: map<Task, int>, tr: seq<Line.Mark>, t: Task)
    requires t in list && Line.Increasing(tr, list) && Outranks(list, prio, tr, t)
    ensures SignalForMyTask(list, true, prio, t)
  {
    hide Line.JoinedAt;
    var ps, k := Priorities(list, prio), Position(list, t);
    forall i | 0 <= i < |ps|
      ensures ps[i] < ps[k] || (ps[i] == ps[k] && k <= i)
    {
      assert list[i] in list && list[k] == t;
    }
    ChosenIsUnique(ps, k);
  }
}
