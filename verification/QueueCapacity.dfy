/** How many messages a queue can come to hold: the ring has room for `n + 1`. */
module QueueCapacity {
  import opened Sequences
  import opened Selection
  import opened MessageQueue
  import opened QueueSafety

  /** Traffic in which senders may wait only if `blocking`, and urgent messages occur only if `urgent`. */
  predicate Allowed(e: Event, blocking: bool, urgent: bool) {
    e.Send? ==> (e.w.NoWait? || blocking) && (!e.urgent || urgent)
  }

  ghost predicate AllAllowed(evs: seq<Event>, blocking: bool, urgent: bool) {
    forall i :: 0 <= i < |evs| ==> Allowed(evs[i], blocking, urgent)
  }

  // ---------------------------------------------------------------- senders that do not wait

  ghost predicate NobodySends(s: State) {
    && |s.cb.q| <= s.cb.n + 1
    && forall t :: !Sending(At(s, t))
  }

  /** What a receiver's section leaves alone. */
  predicate ReadsOnly(cb: Block, r: Section) {
    && |r.cb.q| <= |cb.q| && r.cb.writers == cb.writers
    && r.cb.n == cb.n && r.cb.msgLen == cb.msgLen && r.cb.byPriority == cb.byPriority
    && !Sending(r.pc) && !r.broadcast
  }

  lemma LoopReadsOnly(cb: Block, prio: map<Task, int>, t: Task, w: Wait, expired: bool)
    ensures ReadsOnly(cb, Loop(cb, prio, t, w, expired))
  {
    hide SignalForMyTask;
  }

  lemma ReceiverSections(cb: Block, prio: map<Task, int>, t: Task, w: Wait, expired: bool, late: bool, buflen: nat)
    ensures ReadsOnly(cb, Loop(cb, prio, t, w, expired))
    ensures ReadsOnly(cb, Repoll(cb, prio, t, w, expired, late))
    ensures ReadsOnly(cb, MsgQReceive(cb, prio, t, buflen, w))
  {
    hide Loop;
    LoopReadsOnly(cb, prio, t, w, expired);
    LoopReadsOnly(cb.(readers := Linked(cb.readers, t)), prio, t, w, false);
  }

  predicate IsReaders(e: Event) {
    e.Receive? || e.Wake? || e.Expire? || e.Resume? || e.SetPriority?
  }

  lemma ReaderStep(s: State, e: Event)
    requires IsReaders(e)
    ensures var s' := Step(s, e).s;
            && |s'.cb.q| <= |s.cb.q| && s'.cb.writers == s.cb.writers
            && s'.cb.n == s.cb.n && s'.cb.msgLen == s.cb.msgLen && s'.cb.byPriority == s.cb.byPriority
            && (forall u :: Sending(At(s', u)) || Sending(At(s, u)) ==> At(s', u) == At(s, u))
  {
    hide Loop, Repoll, MsgQReceive;
    var p := At(s, e.t);
    match e
    case Receive(t, buflen, w) => ReceiverSections(s.cb, s.prio, t, w, false, false, buflen);
    case Resume(t, late) =>
      if p.Awake? || p.Polling? { ReceiverSections(s.cb, s.prio, t, p.w, p.expired, late, 0); }
    case _ =>
  }

  lemma SendWithoutBlocking(s: State, e: Event)
    requires NobodySends(s) && e.Send? && e.w.NoWait?
    ensures NobodySends(Step(s, e).s)
    ensures |s.cb.q| <= s.cb.n && |Step(s, e).s.cb.q| == s.cb.n + 1 ==>
              |s.cb.q| == s.cb.n && (e.urgent || s.cb.n == 0)
  {
    var s' := Step(s, e).s;
    forall t
      ensures !Sending(At(s', t))
    {
      assert !Sending(At(s, t));
    }
  }

  lemma StepWithoutBlocking(s: State, e: Event)
    requires NobodySends(s) && Allowed(e, false, true)
    ensures NobodySends(Step(s, e).s)
    ensures |s.cb.q| <= s.cb.n && |Step(s, e).s.cb.q| == s.cb.n + 1 ==>
              e.Send? && |s.cb.q| == s.cb.n && (e.urgent || s.cb.n == 0)
  {
    hide Loop, Repoll, MsgQReceive, MsgQSend;
    assert !Sending(At(s, e.t));
    if IsReaders(e) {
      ReaderStep(s, e);
    } else if e.Send? {
      SendWithoutBlocking(s, e);
    }
  }

  /**
    If no sender waits, any mix of normal and urgent messages on a queue of any size stays within the
    ring, and the reserved slot is taken only by an urgent message to a full queue or on a queue of
    length zero.
  */
  lemma {:induction false} ReservedSlot(n: nat, msgLen: nat, byPriority: bool, evs: seq<Event>, e: Event)
    requires AllAllowed(evs, false, true) && Allowed(e, false, true)
    ensures var s := Run(Start(MsgQCreate(n, msgLen, byPriority)), evs).s;
            && NobodySends(s) && s.cb.n == n
            && (|s.cb.q| <= n && |Step(s, e).s.cb.q| == n + 1 ==>
                  e.Send? && |s.cb.q| == n && (e.urgent || n == 0))
  {
    if evs != [] {
      ReservedSlot(n, msgLen, byPriority, evs[..|evs| - 1], evs[|evs| - 1]);
      StepWithoutBlocking(Run(Start(MsgQCreate(n, msgLen, byPriority)), evs[..|evs| - 1]).s, evs[|evs| - 1]);
    }
    RunKeepsInv(n, msgLen, byPriority, evs);
    StepWithoutBlocking(Run(Start(MsgQCreate(n, msgLen, byPriority)), evs).s, e);
  }

  // ---------------------------------------------------------------- senders that wait

  /** A sender between its test and its post is first on the writer list of a queue not over-full. */
  ghost predicate OneInFlight(s: State) {
    && s.cb.n >= 1 && !s.cb.byPriority
    && |s.cb.q| <= s.cb.n + 1
    && (forall t :: Sending(At(s, t)) ==> !At(s, t).urgent)
    && (forall t :: At(s, t).Selected? ==>
          s.cb.writers != [] && s.cb.writers[0] == t && |s.cb.q| <= s.cb.n)
  }

  lemma SendInFlight(s: State, t: Task, m: Message, w: Wait)
    requires Inv(s) && OneInFlight(s) && At(s, t).Idle?
    ensures OneInFlight(Commit(s, t, MsgQSend(s.cb, t, m, w, false)).s)
  {
    var s' := Commit(s, t, MsgQSend(s.cb, t, m, w, false)).s;
    assert t !in s.cb.writers;
    assert forall u :: u != t && Sending(At(s', u)) ==> At(s', u) == At(s, u);
  }

  lemma SelectInFlight(s: State, t: Task)
    requires OneInFlight(s)
    ensures OneInFlight(Step(s, Test(t)).s)
  {
    var s' := Step(s, Test(t)).s;
    assert forall u :: u != t ==> At(s', u) == At(s, u);
  }

  /** A sender leaves the list; `k` messages more. */
  lemma LeaveInFlight(s: State, t: Task, r: Section)
    requires OneInFlight(s) && Distinct(s.cb.writers) && Sending(At(s, t)) && r.pc.Idle?
    requires r.cb.writers == Without(s.cb.writers, t) && r.cb.n == s.cb.n && !r.cb.byPriority
    requires |r.cb.q| <= |s.cb.q| || (At(s, t).Selected? && |r.cb.q| == |s.cb.q| + 1)
    ensures OneInFlight(Commit(s, t, r).s)
  {
    hide Position, Without, Distinct;
    var s' := Commit(s, t, r).s;
    forall u | u != t && Sending(At(s', u))
      ensures At(s', u) == At(s, u)
    {}
    if s.cb.writers != [] && s.cb.writers[0] != t { FrontStays(s.cb.writers, t); }
  }

  lemma FrontStays(list: seq<Task>, t: Task)
    requires list != [] && list[0] != t
    ensures Without(list, t) != [] && Without(list, t)[0] == list[0]
  {}

  lemma WriterInFlight(s: State, e: Event)
    requires Inv(s) && OneInFlight(s) && (e.Test? || e.Post? || e.SendExpire?)
    ensures OneInFlight(Step(s, e).s)
  {
    hide OneInFlight, Without;
    var p := At(s, e.t);
    if e.Test? {
      SelectInFlight(s, e.t);
    } else if e.Post? && p.Selected? {
      PostsNormal(s, e.t);
      LeaveInFlight(s, e.t, PostAfterWait(s.cb, e.t, p.m, p.urgent));
    } else if e.SendExpire? && p.Blocked? {
      PostsNormal(s, e.t);
      LeaveInFlight(s, e.t, SendTimesOut(s.cb, e.t));
    }
  }

  lemma PostsNormal(s: State, t: Task)
    requires OneInFlight(s)
    ensures !s.cb.byPriority
  {}

  lemma ReaderInFlight(s: State, e: Event)
    requires OneInFlight(s) && IsReaders(e)
    ensures OneInFlight(Step(s, e).s)
  {
    hide Step;
    ReaderStep(s, e);
  }

  lemma StepInFlight(s: State, e: Event)
    requires Inv(s) && OneInFlight(s) && Allowed(e, true, false)
    ensures OneInFlight(Step(s, e).s)
  {
    if e.Send? {
      if At(s, e.t).Idle? { SendInFlight(s, e.t, e.m, e.w); }
    } else if e.Test? || e.Post? || e.SendExpire? {
      WriterInFlight(s, e);
    } else {
      ReaderInFlight(s, e);
    }
  }

  /**
    Blocking senders of normal messages on a FIFO queue that is not of length zero: at most one is
    between test and post; it is still first on the writer list and finds at most `n` messages, so the
    reserved slot absorbs the race and no stored message is overwritten.
  */
  lemma {:induction false} BlockedSendersFit(n: nat, msgLen: nat, evs: seq<Event>)
    requires n >= 1 && AllAllowed(evs, true, false)
    ensures var s := Run(Start(MsgQCreate(n, msgLen, false)), evs).s;
            && OneInFlight(s) && s.cb.n == n
            && (forall t, u :: At(s, t).Selected? && At(s, u).Selected? ==> t == u)
  {
    RunKeepsInv(n, msgLen, false, evs);
    if evs != [] {
      var front := evs[..|evs| - 1];
      BlockedSendersFit(n, msgLen, front);
      RunKeepsInv(n, msgLen, false, front);
      StepInFlight(Run(Start(MsgQCreate(n, msgLen, false)), front).s, evs[|evs| - 1]);
    }
  }

  // ---------------------------------------------------------------- overflow

  /** Task 0 sends directly, tasks 1 and 2 are blocked senders, task 3 receives. */
  ghost predicate Scene(s: State, n: nat, byPriority: bool, k: nat,
                        readers: seq<Task>, writers: seq<Task>, p1: Pc, p2: Pc) {
    && s.cb.n == n && s.cb.byPriority == byPriority && |s.cb.q| == k
    && s.cb.readers == readers && s.cb.writers == writers && s.prio == map[2 := 1]
    && At(s, 0).Idle? && At(s, 1) == p1 && At(s, 2) == p2 && (At(s, 3).Idle? <==> readers == [])
  }

  function Sends(t: Task): Event { Send(t, [], Forever, false) }

  function Fetches(s: State): Event { Receive(3, s.cb.msgLen, Forever) }

  lemma DirectSend(s: State, n: nat, pr: bool, k: nat, ws: seq<Task>, p1: Pc, p2: Pc)
    requires Scene(s, n, pr, k, [], ws, p1, p2) && !p1.Asleep? && !p2.Asleep?
    ensures k < n ==> Scene(Step(s, Sends(0)).s, n, pr, k + 1, [], ws, p1, p2)
    ensures n >= 1 && k == n ==> Scene(Step(s, Send(0, [], NoWait, true)).s, n, pr, k + 1, [], ws, p1, p2)
  {
    hide Linked, Without;
  }

  lemma DirectFetch(s: State, n: nat, pr: bool, k: nat, ws: seq<Task>, p1: Pc, p2: Pc)
    requires Scene(s, n, pr, k, [], ws, p1, p2) && k > 0
    ensures Scene(Step(s, Fetches(s)).s, n, pr, k - 1, [], ws, p1, p2)
  {
    hide Linked, Without;
    assert [] + [3] == [3];
    assert Linked([], 3) == [3] && Without([3], 3) == [3][1..];
  }

  lemma FirstBlocks(s: State, n: nat, pr: bool, k: nat, rs: seq<Task>)
    requires Scene(s, n, pr, k, rs, [], Idle, Idle) && (n == 0 ==> k > 0) && k >= n
    ensures Scene(Step(s, Sends(1)).s, n, pr, k, rs, [1], Blocked([], false, Forever), Idle)
  {
    hide Linked;
    assert Linked([], 1) == [] + [1];
  }

  lemma SecondBlocks(s: State, n: nat, pr: bool, k: nat, rs: seq<Task>, p1: Pc)
    requires Scene(s, n, pr, k, rs, [1], p1, Idle) && (n == 0 ==> k > 0) && k >= n
    ensures Scene(Step(s, Sends(2)).s, n, pr, k, rs, [1, 2], p1, Blocked([], false, Forever))
  {
    hide Linked;
    assert Linked([1], 2) == [1] + [2];
  }

  lemma FirstTests(s: State, n: nat, pr: bool, k: nat, rs: seq<Task>)
    requires Scene(s, n, pr, k, rs, [1], Blocked([], false, Forever), Idle)
    requires k < n || (n == 0 && rs != [])
    ensures Scene(Step(s, Test(1)).s, n, pr, k, rs, [1], Selected([], false), Idle)
  {}

  lemma SecondTests(s: State, n: nat, k: nat, rs: seq<Task>, p1: Pc)
    requires Scene(s, n, true, k, rs, [1, 2], p1, Blocked([], false, Forever))
    requires k < n || (n == 0 && rs != [])
    ensures Scene(Step(s, Test(2)).s, n, true, k, rs, [1, 2], p1, Selected([], false))
  {
    var ps := Priorities([1, 2], map[2 := 1]);
    assert ps == [0, 1];
    assert Chosen(ps, true) == 1;
  }

  lemma SendersPost(s: State, n: nat, pr: bool, k: nat, rs: seq<Task>, p2: Pc)
    ensures Scene(s, n, pr, k, rs, [1], Selected([], false), Idle) ==> |Step(s, Post(1)).s.cb.q| == k + 1
    ensures p2 == Selected([], false) && Scene(s, n, pr, k, [], [1, 2], p2, p2) ==>
              Scene(Step(s, Post(1)).s, n, pr, k + 1, [], [2], Idle, p2)
    ensures p2 == Selected([], false) && Scene(s, n, pr, k, [], [2], Idle, p2) ==>
              |Step(s, Post(2)).s.cb.q| == k + 1
  {}

  lemma Go(cb: Block, evs: seq<Event>, e: Event, urgent: bool) returns (evs': seq<Event>)
    requires AllAllowed(evs, true, urgent) && Allowed(e, true, urgent)
    ensures AllAllowed(evs', true, urgent)
    ensures Run(Start(cb), evs').s == Step(Run(Start(cb), evs).s, e).s
  {
    hide Step;
    evs' := evs + [e];
    assert evs'[..|evs|] == evs;
  }

  /** Fill the queue, block task 1, make room, and let task 1 see the room. */
  lemma OneSelected(n: nat, msgLen: nat, pr: bool, urgent: bool) returns (evs: seq<Event>)
    requires n >= 1
    ensures AllAllowed(evs, true, urgent)
    ensures Scene(Run(Start(MsgQCreate(n, msgLen, pr)), evs).s, n, pr, n - 1, [], [1], Selected([], false), Idle)
    ensures Run(Start(MsgQCreate(n, msgLen, pr)), evs).s.cb.msgLen == msgLen
  {
    hide Step;
    var cb := MsgQCreate(n, msgLen, pr);
    var blocked := Blocked([], false, Forever);
    evs := Filled(n, n, msgLen, pr, urgent);
    FirstBlocks(Run(Start(cb), evs).s, n, pr, n, []);
    evs := Go(cb, evs, Sends(1), urgent);
    DirectFetch(Run(Start(cb), evs).s, n, pr, n, [1], blocked, Idle);
    evs := Go(cb, evs, Fetches(Run(Start(cb), evs).s), urgent);
    FirstTests(Run(Start(cb), evs).s, n, pr, n - 1, []);
    evs := Go(cb, evs, Test(1), urgent);
    RunKeepsInv(n, msgLen, pr, evs);
  }

  lemma {:induction false} Filled(k: nat, n: nat, msgLen: nat, pr: bool, urgent: bool) returns (evs: seq<Event>)
    requires k <= n
    ensures AllAllowed(evs, true, urgent)
    ensures Scene(Run(Start(MsgQCreate(n, msgLen, pr)), evs).s, n, pr, k, [], [], Idle, Idle)
  {
    var cb := MsgQCreate(n, msgLen, pr);
    if k == 0 {
      evs := Go(cb, [], SetPriority(2, 1), urgent);
    } else {
      evs := Filled(k - 1, n, msgLen, pr, urgent);
      DirectSend(Run(Start(cb), evs).s, n, pr, k - 1, [], Idle, Idle);
      evs := Go(cb, evs, Sends(0), urgent);
    }
  }

  lemma ReceiverPends(s: State, pr: bool)
    requires Scene(s, 0, pr, 0, [], [], Idle, Idle)
    ensures Scene(Step(s, Fetches(s)).s, 0, pr, 0, [3], [], Idle, Idle)
  {}

  lemma ZeroLengthHandsOver(s: State, pr: bool)
    requires Scene(s, 0, pr, 0, [3], [], Idle, Idle)
    ensures Scene(Step(s, Sends(0)).s, 0, pr, 1, [3], [], Idle, Idle)
  {}

  /** A queue of length zero: two blocked messages are posted for one waiting receiver. */
  lemma ZeroLengthOverflows(msgLen: nat, pr: bool, urgent: bool) returns (evs: seq<Event>)
    ensures AllAllowed(evs, true, urgent)
    ensures |Run(Start(MsgQCreate(0, msgLen, pr)), evs).s.cb.q| == 2
  {
    hide Step;
    var cb := MsgQCreate(0, msgLen, pr);
    evs := Filled(0, 0, msgLen, pr, urgent);
    RunKeepsInv(0, msgLen, pr, evs);
    ReceiverPends(Run(Start(cb), evs).s, pr);
    evs := Go(cb, evs, Fetches(Run(Start(cb), evs).s), urgent);
    ZeroLengthHandsOver(Run(Start(cb), evs).s, pr);
    evs := Go(cb, evs, Sends(0), urgent);
    FirstBlocks(Run(Start(cb), evs).s, 0, pr, 1, [3]);
    evs := Go(cb, evs, Sends(1), urgent);
    FirstTests(Run(Start(cb), evs).s, 0, pr, 1, [3]);
    evs := Go(cb, evs, Test(1), urgent);
    SendersPost(Run(Start(cb), evs).s, 0, pr, 1, [3], Idle);
    evs := Go(cb, evs, Post(1), urgent);
  }

  /** Urgent messages take the reserved slot while a selected sender is counting on it. */
  lemma UrgentOverflows(n: nat, msgLen: nat, pr: bool) returns (evs: seq<Event>)
    requires n >= 1
    ensures AllAllowed(evs, true, true)
    ensures |Run(Start(MsgQCreate(n, msgLen, pr)), evs).s.cb.q| == n + 2
  {
    hide Step;
    var cb, selected := MsgQCreate(n, msgLen, pr), Selected([], false);
    evs := OneSelected(n, msgLen, pr, true);
    DirectSend(Run(Start(cb), evs).s, n, pr, n - 1, [1], selected, Idle);
    evs := Go(cb, evs, Sends(0), true);
    DirectSend(Run(Start(cb), evs).s, n, pr, n, [1], selected, Idle);
    evs := Go(cb, evs, Send(0, [], NoWait, true), true);
    SendersPost(Run(Start(cb), evs).s, n, pr, n + 1, [], Idle);
    evs := Go(cb, evs, Post(1), true);
  }

  /** In priority order a second sender can be selected past one that is still on its way. */
  lemma PriorityOverflows(n: nat, msgLen: nat, urgent: bool) returns (evs: seq<Event>)
    requires n >= 1
    ensures AllAllowed(evs, true, urgent)
    ensures |Run(Start(MsgQCreate(n, msgLen, true)), evs).s.cb.q| == n + 2
  {
    hide Step;
    var cb, selected := MsgQCreate(n, msgLen, true), Selected([], false);
    evs := OneSelected(n, msgLen, true, urgent);
    DirectSend(Run(Start(cb), evs).s, n, true, n - 1, [1], selected, Idle);
    evs := Go(cb, evs, Sends(0), urgent);
    SecondBlocks(Run(Start(cb), evs).s, n, true, n, [], selected);
    evs := Go(cb, evs, Sends(2), urgent);
    DirectFetch(Run(Start(cb), evs).s, n, true, n, [1, 2], selected, Blocked([], false, Forever));
    evs := Go(cb, evs, Fetches(Run(Start(cb), evs).s), urgent);
    SecondTests(Run(Start(cb), evs).s, n, n - 1, [], selected);
    evs := Go(cb, evs, Test(2), urgent);
    DirectSend(Run(Start(cb), evs).s, n, true, n - 1, [1, 2], selected, selected);
    evs := Go(cb, evs, Sends(0), urgent);
    SendersPost(Run(Start(cb), evs).s, n, true, n, [], selected);
    evs := Go(cb, evs, Post(1), urgent);
    SendersPost(Run(Start(cb), evs).s, n, true, n + 1, [], selected);
    evs := Go(cb, evs, Post(2), urgent);
  }

  ghost predicate AlwaysFits(n: nat, msgLen: nat, byPriority: bool, blocking: bool, urgent: bool) {
    forall evs: seq<Event> :: AllAllowed(evs, blocking, urgent) ==>
      |Run(Start(MsgQCreate(n, msgLen, byPriority)), evs).s.cb.q| <= n + 1
  }

  /**
    Every run of a kind of traffic stays within the ring exactly when no sender waits, or the queue is
    FIFO and not of length zero and carries no urgent messages.
  */
  lemma FitsExactlyWhen(n: nat, msgLen: nat, byPriority: bool, blocking: bool, urgent: bool)
    ensures AlwaysFits(n, msgLen, byPriority, blocking, urgent) <==>
              !blocking || (n >= 1 && !urgent && !byPriority)
  {
    if !blocking {
      forall evs: seq<Event> | AllAllowed(evs, blocking, urgent)
        ensures |Run(Start(MsgQCreate(n, msgLen, byPriority)), evs).s.cb.q| <= n + 1
      {
        ReservedSlot(n, msgLen, byPriority, evs, Wake(0));
      }
    } else if n >= 1 && !urgent && !byPriority {
      forall evs: seq<Event> | AllAllowed(evs, blocking, urgent)
        ensures |Run(Start(MsgQCreate(n, msgLen, byPriority)), evs).s.cb.q| <= n + 1
      {
        BlockedSendersFit(n, msgLen, evs);
      }
    } else {
      var evs;
      if n == 0 {
        evs := ZeroLengthOverflows(msgLen, byPriority, urgent);
      } else if urgent {
        evs := UrgentOverflows(n, msgLen, byPriority);
      } else {
        evs := PriorityOverflows(n, msgLen, urgent);
      }
      assert AllAllowed(evs, blocking, urgent);
    }
  }
}
