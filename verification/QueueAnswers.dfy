/**
  What each call gets for an answer, and what it leaves behind: in every reachable state, for every
  argument.  Nothing here refers to how a section computes it.
*/
module QueueAnswers {
  import opened Sequences
  import opened Selection
  import opened MessageQueue
  import opened QueueSafety

  /** A state that some run of a queue ends in. */
  ghost predicate Reached(s: State, n: nat, msgLen: nat, byPriority: bool) {
    Inv(s) && s.cb.n == n && s.cb.msgLen == msgLen && s.cb.byPriority == byPriority
  }

  /** So what follows, said of any state with the invariant, is true after every run. */
  lemma EveryRunReaches(n: nat, msgLen: nat, byPriority: bool, evs: seq<Event>)
    ensures Reached(Run(Start(MsgQCreate(n, msgLen, byPriority)), evs).s, n, msgLen, byPriority)
  {
    RunKeepsInv(n, msgLen, byPriority, evs);
  }

  /** Nobody else is anywhere else; if `up`, the sleepers have been woken. */
  ghost predicate OthersStay(s: State, s': State, t: Task, up: bool) {
    forall u :: u != t ==> At(s', u) == if up then Woken(At(s, u)) else At(s, u)
  }

  /** The call has ended with the message in the queue. */
  ghost predicate Took(s: State, o: Out, t: Task, m: Message, urgent: bool) {
    && o.obs == [Accepted(m, urgent)] && o.s.cb.q == (if urgent then [m] + s.cb.q else s.cb.q + [m])
    && o.s.cb.readers == s.cb.readers && At(o.s, t).Idle? && OthersStay(s, o.s, t, true)
  }

  /** The call has ended, and nothing has changed in the queue. */
  ghost predicate TurnedDown(s: State, o: Out, t: Task) {
    o.obs == [Failed(t)] && o.s.cb == s.cb && At(o.s, t).Idle? && OthersStay(s, o.s, t, false)
  }

  // ---------------------------------------------------------------- msgQSend

  /** There is a place for the message at once: the last one is for urgent messages, or a hand-over. */
  predicate PlaceNow(s: State, urgent: bool) {
    |s.cb.q| < s.cb.n || (|s.cb.q| == s.cb.n && (urgent || (s.cb.n == 0 && s.cb.readers != [])))
  }

  /**
    msgQSend: a message that is too long is refused; one for which there is a place goes in at once, at the
    end it asked for, except that a queue of length zero hands it over as a normal one; otherwise a caller
    unwilling to wait is refused, and any other waits, last in line, with its message and its priority.
  */
  lemma SendAnswer(s: State, t: Task, m: Message, w: Wait, urgent: bool)
    requires Inv(s) && At(s, t).Idle?
    ensures var o := Step(s, Send(t, m, w, urgent));
            if |m| > s.cb.msgLen then TurnedDown(s, o, t)
            else if PlaceNow(s, urgent) then
              && Took(s, o, t, m, urgent && !(s.cb.n == 0 && s.cb.readers != []))
              && o.s.cb.writers == s.cb.writers
            else if w.NoWait? then TurnedDown(s, o, t)
            else
              && o.obs == [] && o.s.cb == s.cb.(writers := s.cb.writers + [t])
              && At(o.s, t) == Blocked(m, urgent, w) && OthersStay(s, o.s, t, false)
  {
    hide Linked;
    assert t in s.cb.writers <==> Sending(At(s, t));
  }

  /**
    A waiting sender gets through exactly if there is room, or a hand-over on a queue of length zero, and
    the signal is for it: it is first in line, or the earliest of the highest priority.
  */
  lemma TestAnswer(s: State, t: Task)
    requires Inv(s) && At(s, t).Blocked?
    ensures var p, s' := At(s, t), Step(s, Test(t)).s;
            && Step(s, Test(t)).obs == [] && s'.cb == s.cb && OthersStay(s, s', t, false)
            && At(s', t) == (if (|s.cb.q| < s.cb.n || (s.cb.n == 0 && s.cb.readers != []))
                                && SignalForMyTask(s.cb.writers, s.cb.byPriority, s.prio, t)
                             then Selected(p.m, p.urgent) else p)
            && (!s.cb.byPriority ==>
                  (SignalForMyTask(s.cb.writers, s.cb.byPriority, s.prio, t) <==> s.cb.writers[0] == t))
  {
    assert t in s.cb.writers;
  }

  /** Once through, its message goes in, at the end it asked for, and exactly it leaves the line. */
  lemma PostAnswer(s: State, t: Task)
    requires Inv(s) && At(s, t).Selected?
    ensures var p, o := At(s, t), Step(s, Post(t));
            && Took(s, o, t, p.m, p.urgent)
            && o.s.cb.writers == Without(s.cb.writers, t)
            && forall u :: u in o.s.cb.writers <==> u in s.cb.writers && u != t
  {
    hide Without, Distinct;
    WithoutMembers(s.cb.writers, t);
  }

  /** A sender's time-out: only those that set one can have it. */
  lemma SendExpireAnswer(s: State, t: Task)
    requires Inv(s) && At(s, t).Blocked?
    ensures var o := Step(s, SendExpire(t));
            if At(s, t).sw.Timed? then
              && o.obs == [Failed(t)] && o.s.cb == s.cb.(writers := Without(s.cb.writers, t))
              && At(o.s, t).Idle? && OthersStay(s, o.s, t, false)
            else o == Out(s, [])
  {
    hide Without;
  }

  // ---------------------------------------------------------------- msgQReceive

  /** The first message is for the task, among these readers. */
  predicate MessageFor(s: State, readers: seq<Task>, t: Task) {
    s.cb.q != [] && SignalForMyTask(readers, s.cb.byPriority, s.prio, t)
  }

  /** The task has the first message, and everything else is as before it came. */
  ghost predicate Got(s: State, o: Out, t: Task) {
    && s.cb.q != [] && o.s.cb.q == s.cb.q[1..] && o.s.cb.writers == s.cb.writers
    && (forall u :: u in o.s.cb.readers <==> u in s.cb.readers && u != t)
    && At(o.s, t).Idle? && OthersStay(s, o.s, t, false)
  }

  /**
    msgQReceive, whatever the wait: a buffer that is too small is refused; a caller for whom there is a
    message gets it at once; any other joins the line, polling if there is a message, else asleep.
  */
  lemma ReceiveAnswer(s: State, t: Task, buflen: nat, w: Wait)
    requires Inv(s) && At(s, t).Idle?
    ensures var o, line := Step(s, Receive(t, buflen, w)), s.cb.readers + [t];
            if buflen < s.cb.msgLen then TurnedDown(s, o, t)
            else if MessageFor(s, line, t) then o.obs == [Pended(t), Fetched(t, s.cb.q[0])] && Got(s, o, t)
            else
              && o.obs == [Pended(t)] && o.s.cb == s.cb.(readers := line) && OthersStay(s, o.s, t, false)
              && At(o.s, t) == if s.cb.q != [] then Polling(w, false) else Asleep(w)
  {
    hide Without, Linked, Distinct, SignalForMyTask;
    assert t in s.cb.readers <==> Receiving(At(s, t));
    var line := s.cb.readers + [t];
    DistinctMore(s.cb.readers, t);
    WithoutMembers(line, t);
  }

  /** On a FIFO queue the message is for a newcomer exactly if nobody was waiting. */
  lemma FifoNewcomer(s: State, t: Task)
    requires !s.cb.byPriority && t !in s.cb.readers && s.cb.q != []
    ensures MessageFor(s, s.cb.readers + [t], t) <==> s.cb.readers == []
  {}

  lemma DistinctMore(line: seq<Task>, t: Task)
    requires Distinct(line) && t !in line
    ensures Distinct(line + [t])
  {}

  /** Back from taskDelay(1) with the deadline past. */
  predicate TooLate(p: Pc, late: bool) {
    p.Polling? && !p.w.Forever? && late
  }

  /**
    A receiver's next turn, whatever its wait: it gets the first message exactly if that is for it and it
    is not too late; it gives up exactly if its deadline has been reported and there is no message, or it
    is too late; otherwise it stays in line, polling if there is a message, else asleep.
  */
  lemma TurnAnswer(s: State, t: Task, late: bool)
    requires Inv(s) && (At(s, t).Awake? || At(s, t).Polling?)
    ensures var p, o := At(s, t), Step(s, Resume(t, late));
            if MessageFor(s, s.cb.readers, t) && !TooLate(p, late) then
              o.obs == [Fetched(t, s.cb.q[0])] && Got(s, o, t)
            else if p.expired && !p.w.Forever? && (s.cb.q == [] || TooLate(p, late)) then
              && o.obs == [GaveUp(t)] && o.s.cb == s.cb.(readers := Without(s.cb.readers, t))
              && At(o.s, t).Idle? && OthersStay(s, o.s, t, false)
            else
              && o.obs == [] && o.s.cb == s.cb && OthersStay(s, o.s, t, false)
              && At(o.s, t) == if s.cb.q != [] && !TooLate(p, late) then Polling(p.w, p.expired) else Asleep(p.w)
  {
    hide Without, Distinct;
    WithoutMembers(s.cb.readers, t);
  }

  /**
    So nobody who can have a message goes away without it: whatever the wait, a call that finds itself
    first in line, by the order of the queue, with a message there, has it in its first section.
  */
  lemma NobodyTurnedAway(n: nat, msgLen: nat, byPriority: bool, evs: seq<Event>, t: Task, buflen: nat, w: Wait)
    requires buflen >= msgLen
    ensures var s := Run(Start(MsgQCreate(n, msgLen, byPriority)), evs).s;
            At(s, t).Idle? && s.cb.q != []
            && (forall u :: u in s.cb.readers ==> byPriority && PriorityOf(s.prio, u) < PriorityOf(s.prio, t)) ==>
              Step(s, Receive(t, buflen, w)).obs == [Pended(t), Fetched(t, s.cb.q[0])]
  {
    hide Step, SignalForMyTask;
    var s := Run(Start(MsgQCreate(n, msgLen, byPriority)), evs).s;
    EveryRunReaches(n, msgLen, byPriority, evs);
    if && At(s, t).Idle? && s.cb.q != []
       && forall u :: u in s.cb.readers ==> byPriority && PriorityOf(s.prio, u) < PriorityOf(s.prio, t) {
      ReceiveAnswer(s, t, buflen, w);
      NewcomerChosen(s.cb.readers, byPriority, s.prio, t);
    }
  }

  lemma NewcomerChosen(readers: seq<Task>, byPriority: bool, prio: map<Task, int>, t: Task)
    requires forall u :: u in readers ==> byPriority && PriorityOf(prio, u) < PriorityOf(prio, t)
    ensures SignalForMyTask(readers + [t], byPriority, prio, t)
  {
    var line := readers + [t];
    var ps := Priorities(line, prio);
    forall i | 0 <= i < |readers|
      ensures byPriority && ps[i] < ps[|readers|]
    {
      assert readers[i] in readers;
    }
    assert readers != [] ==> readers[0] in readers;
    if byPriority { ChosenIsUnique(ps, |readers|); }
  }

  /**
    And a call that is not willing to wait for ever, on a queue that stays empty, is told when its time is
    up, and leaves everything as it was.
  */
  lemma EmptyTimesOut(s: State, t: Task, buflen: nat, w: Wait, late: bool)
    requires Inv(s) && At(s, t).Idle? && s.cb.q == [] && buflen >= s.cb.msgLen && !w.Forever?
    ensures var s1 := Step(s, Receive(t, buflen, w)).s;
            var o := Step(Step(s1, Expire(t)).s, Resume(t, late));
            o.obs == [GaveUp(t)] && o.s.cb == s.cb && At(o.s, t).Idle?
  {
    hide Linked, Without, Distinct, SignalForMyTask;
    var s1 := Step(s, Receive(t, buflen, w)).s;
    ReceiveAnswer(s, t, buflen, w);
    StepKeepsInv(s, Receive(t, buflen, w));
    var s2 := Step(s1, Expire(t)).s;
    StepKeepsInv(s1, Expire(t));
    assert At(s2, t) == Awake(w, true) && s2.cb == s1.cb;
    TurnAnswer(s2, t, late);
    assert t in s.cb.readers <==> Receiving(At(s, t));
    WithoutLast(s.cb.readers, t);
  }

  /** A waiting sender that is first in line of a FIFO queue with room gets its message in, in two steps. */
  lemma HeadGetsThrough(s: State, t: Task)
    requires Inv(s) && !s.cb.byPriority && At(s, t).Blocked? && s.cb.writers[..1] == [t] && |s.cb.q| < s.cb.n
    ensures var p := At(s, t);
            Step(Step(s, Test(t)).s, Post(t)).obs == [Accepted(p.m, p.urgent)]
  {
    hide Step, SignalForMyTask;
    assert s.cb.writers[..1][0] == s.cb.writers[0];
    TestAnswer(s, t);
    StepKeepsInv(s, Test(t));
    PostAnswer(Step(s, Test(t)).s, t);
  }
}
