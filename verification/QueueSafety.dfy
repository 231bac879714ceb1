/** What every run of a message queue keeps: honest wait lists and no forgotten receiver. */
module QueueSafety {
  import opened Sequences
  import opened Selection
  import opened MessageQueue

  predicate Receiving(p: Pc) { p.Asleep? || p.Awake? || p.Polling? }

  predicate Sending(p: Pc) { p.Blocked? || p.Selected? }

  /** Each wait list holds exactly the tasks inside the matching call, each once. */
  ghost predicate Listed(s: State) {
    && Distinct(s.cb.readers) && Distinct(s.cb.writers)
    && (forall t :: t in s.cb.readers <==> Receiving(At(s, t)))
    && (forall t :: t in s.cb.writers <==> Sending(At(s, t)))
  }

  /** Nobody sleeps for ever next to a message. */
  ghost predicate NoneForgotten(s: State) {
    forall t :: At(s, t) == Asleep(Forever) ==> s.cb.q == []
  }

  ghost predicate Inv(s: State) {
    Listed(s) && NoneForgotten(s)
  }

  /** `list'` is `list` with `t` put in or taken out, according to `here`. */
  ghost predicate Moved(list: seq<Task>, list': seq<Task>, t: Task, here: bool) {
    && Distinct(list')
    && (t in list' <==> here)
    && forall u :: u != t ==> (u in list' <==> u in list)
  }

  /** A section that moves only its own task on or off the lists keeps them honest. */
  ghost predicate Tidy(cb: Block, t: Task, r: Section) {
    && Moved(cb.readers, r.cb.readers, t, Receiving(r.pc))
    && Moved(cb.writers, r.cb.writers, t, Sending(r.pc))
    && (r.pc == Asleep(Forever) ==> r.cb.q == [])
    && (r.broadcast || |r.cb.q| <= |cb.q|)
    && r.cb.n == cb.n && r.cb.msgLen == cb.msgLen && r.cb.byPriority == cb.byPriority
  }

  lemma TidyKeepsInv(s: State, t: Task, r: Section)
    requires Inv(s) && Tidy(s.cb, t, r)
    ensures Inv(Commit(s, t, r).s)
  {
    var s' := Commit(s, t, r).s;
    forall u
      ensures u in s'.cb.readers <==> Receiving(At(s', u))
      ensures u in s'.cb.writers <==> Sending(At(s', u))
      ensures At(s', u) == Asleep(Forever) ==> s'.cb.q == []
    {
      assert u in s.cb.readers <==> Receiving(At(s, u));
      assert u in s.cb.writers <==> Sending(At(s, u));
      assert At(s, u) == Asleep(Forever) ==> s.cb.q == [];
    }
  }

  lemma LoopIsTidy(cb: Block, prio: map<Task, int>, t: Task, w: Wait, expired: bool, late: bool)
    requires Distinct(cb.readers) && Distinct(cb.writers) && t in cb.readers && t !in cb.writers
    ensures Tidy(cb, t, Loop(cb, prio, t, w, expired))
    ensures Tidy(cb, t, Repoll(cb, prio, t, w, expired, late))
  {
    hide Without, SignalForMyTask, Distinct;
    WithoutMembers(cb.readers, t);
  }

  lemma ReceiveIsTidy(cb: Block, prio: map<Task, int>, t: Task, buflen: nat, w: Wait)
    requires Distinct(cb.readers) && Distinct(cb.writers) && t !in cb.readers && t !in cb.writers
    ensures Tidy(cb, t, MsgQReceive(cb, prio, t, buflen, w))
  {
    if buflen >= cb.msgLen {
      LoopIsTidy(cb.(readers := cb.readers + [t]), prio, t, w, false, false);
    }
  }

  lemma SendIsTidy(cb: Block, t: Task, m: Message, w: Wait, urgent: bool)
    requires Distinct(cb.readers) && Distinct(cb.writers) && t !in cb.readers && t !in cb.writers
    ensures Tidy(cb, t, MsgQSend(cb, t, m, w, urgent))
  {
    hide Linked;
  }

  lemma WriterLeavesTidily(cb: Block, t: Task, m: Message, urgent: bool)
    requires Distinct(cb.readers) && Distinct(cb.writers) && t !in cb.readers && t in cb.writers
    ensures Tidy(cb, t, PostAfterWait(cb, t, m, urgent))
    ensures Tidy(cb, t, SendTimesOut(cb, t))
  {
    WithoutMembers(cb.writers, t);
  }

  lemma MoveKeepsInv(s: State, t: Task, p: Pc)
    requires Inv(s) && Receiving(p) == Receiving(At(s, t)) && Sending(p) == Sending(At(s, t)) && !p.Asleep?
    ensures Inv(Move(s, t, p).s)
  {
    TidyKeepsInv(s, t, Section(s.cb, p, [], false));
  }

  lemma StepKeepsInv(s: State, e: Event)
    requires Inv(s)
    ensures Inv(Step(s, e).s)
    ensures Step(s, e).s.cb.n == s.cb.n && Step(s, e).s.cb.byPriority == s.cb.byPriority
    ensures Step(s, e).s.cb.msgLen == s.cb.msgLen
  {
    var p := At(s, e.t);
    assert e.t in s.cb.readers <==> Receiving(p);
    assert e.t in s.cb.writers <==> Sending(p);
    match e
    case Send(t, m, w, urgent) =>
      if p.Idle? {
        SendIsTidy(s.cb, t, m, w, urgent);
        TidyKeepsInv(s, t, MsgQSend(s.cb, t, m, w, urgent));
      }
    case Test(t) =>
      if p.Blocked? { MoveKeepsInv(s, t, Selected(p.m, p.urgent)); }
    case Post(t) =>
      if p.Selected? {
        WriterLeavesTidily(s.cb, t, p.m, p.urgent);
        TidyKeepsInv(s, t, PostAfterWait(s.cb, t, p.m, p.urgent));
      }
    case SendExpire(t) =>
      if p.Blocked? {
        WriterLeavesTidily(s.cb, t, p.m, p.urgent);
        TidyKeepsInv(s, t, SendTimesOut(s.cb, t));
      }
    case Receive(t, buflen, w) =>
      if p.Idle? {
        ReceiveIsTidy(s.cb, s.prio, t, buflen, w);
        TidyKeepsInv(s, t, MsgQReceive(s.cb, s.prio, t, buflen, w));
      }
    case Wake(t) =>
      if p.Asleep? { MoveKeepsInv(s, t, Awake(p.w, false)); }
    case Expire(t) =>
      if p.Asleep? { MoveKeepsInv(s, t, Awake(p.w, true)); }
    case Resume(t, late) =>
      if p.Awake? || p.Polling? {
        LoopIsTidy(s.cb, s.prio, t, p.w, p.expired, late);
        if p.Awake? {
          TidyKeepsInv(s, t, Loop(s.cb, s.prio, t, p.w, p.expired));
        } else {
          TidyKeepsInv(s, t, Repoll(s.cb, s.prio, t, p.w, p.expired, late));
        }
      }
    case SetPriority(t, pr) =>
      var s' := Step(s, e).s;
      assert forall u :: At(s', u) == At(s, u);
  }

  lemma {:induction false} RunKeepsInv(n: nat, msgLen: nat, byPriority: bool, evs: seq<Event>)
    ensures var s := Run(Start(MsgQCreate(n, msgLen, byPriority)), evs).s;
            Inv(s) && s.cb.n == n && s.cb.msgLen == msgLen && s.cb.byPriority == byPriority
  {
    if evs != [] {
      var front := evs[..|evs| - 1];
      RunKeepsInv(n, msgLen, byPriority, front);
      StepKeepsInv(Run(Start(MsgQCreate(n, msgLen, byPriority)), front).s, evs[|evs| - 1]);
    }
  }

  /**
    No lost wake-up for receivers: whichever way messages are posted, a receiver sleeping for ever
    means there is no message; so when there is one, the receiver it is for is up, and its next turn
    fetches it.
  */
  lemma NoLostWakeup(n: nat, msgLen: nat, byPriority: bool, evs: seq<Event>, late: bool)
    ensures var s := Run(Start(MsgQCreate(n, msgLen, byPriority)), evs).s;
            && (forall t :: At(s, t) == Asleep(Forever) ==> s.cb.q == [])
            && (s.cb.q != [] && s.cb.readers != [] ==>
                  var t := s.cb.readers[Chosen(Priorities(s.cb.readers, s.prio), byPriority)];
                  && Receiving(At(s, t))
                  && (At(s, t).w.Forever? ==> Step(s, Resume(t, late)).obs == [Fetched(t, s.cb.q[0])]))
  {
    RunKeepsInv(n, msgLen, byPriority, evs);
    var s := Run(Start(MsgQCreate(n, msgLen, byPriority)), evs).s;
    if s.cb.q != [] && s.cb.readers != [] {
      var t := s.cb.readers[Chosen(Priorities(s.cb.readers, s.prio), byPriority)];
      assert t in s.cb.readers;
      assert At(s, t) != Asleep(Forever);
    }
  }
}
