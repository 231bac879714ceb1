/** Calls of semTake from beginning to end, and what an OK from one is worth. */
module SemaphoreCalls {
  import opened Sequences
  import opened Semaphore
  import opened SemaphoreSafety
  import opened MutexSemaphore

  // ---------------------------------------------------------------- which call a task is in

  /** At event `i` the task called semTake with wait `w`, and it has been inside that call since. */
  ghost predicate Inside(s: State, evs: seq<Event>, i: nat, t: Task, w: Wait) {
    && i < |evs| && evs[i] == Take(t, w) && At(Run(s, evs[..i]).s, t).Idle?
    && forall k :: i < k <= |evs| ==> InWait(At(Run(s, evs[..k]).s, t), w)
  }

  predicate InWait(p: Pc, w: Wait) {
    !p.Idle? && p.w == w
  }

  /** A task gets into a wait only by calling semTake, and stays in it with the wait it asked for. */
  lemma StepInside(s: State, e: Event, t: Task)
    requires !At(Step(s, e).s, t).Idle?
    ensures var w := At(Step(s, e).s, t).w;
            if At(s, t).Idle? then e == Take(t, w) else At(s, t).w == w
  {
    hide Linked, Without;
  }

  lemma {:induction false} CallOf(s: State, evs: seq<Event>, t: Task) returns (i: nat)
    requires s.pc == map[] && !At(Run(s, evs).s, t).Idle?
    ensures Inside(s, evs, i, t, At(Run(s, evs).s, t).w)
  {
    hide Step;
    var front, e := evs[..|evs| - 1], evs[|evs| - 1];
    var w := At(Run(s, evs).s, t).w;
    StepInside(Run(s, front).s, e, t);
    assert evs[..|evs|] == evs;
    if At(Run(s, front).s, t).Idle? {
      i := |evs| - 1;
    } else {
      i := CallOf(s, front, t);
      forall k | i <= k <= |evs|
        ensures k > i ==> InWait(At(Run(s, evs[..k]).s, t), w)
        ensures k < |evs| ==> evs[..k] == front[..k]
      {
        if k < |evs| { assert evs[..k] == front[..k]; }
      }
    }
  }

  /** After `evs`, the event `e` brings `o` about, which ends the call made by event `i` with wait `w`. */
  ghost predicate Answers(cb: Block, evs: seq<Event>, e: Event, o: Obs, i: nat, w: Wait) {
    && o in Step(Run(Start(cb), evs).s, e).obs && Returns(o)
    && if i == |evs| then e == Take(o.t, w) else Inside(Start(cb), evs, i, o.t, w)
  }

  /** What ends a call is shown by the task that made it, with the wait that it asked for. */
  lemma StepAnswers(s: State, e: Event, o: Obs)
    requires o in Step(s, e).obs && Returns(o)
    ensures o.t == e.t && s.lock.None?
    ensures e.Take? || (e.Resume? && !At(s, e.t).Idle?)
    ensures o.GaveUp? ==> o.w == if e.Take? then e.w else At(s, e.t).w
  {
    hide Linked, Without;
  }

  /** Every end of a semTake answers a call. */
  lemma FindCall(cb: Block, evs: seq<Event>, e: Event, o: Obs) returns (i: nat, w: Wait)
    requires o in Step(Run(Start(cb), evs).s, e).obs && Returns(o)
    ensures Answers(cb, evs, e, o, i, w) && (o.GaveUp? ==> o.w == w)
  {
    hide Run, Step, Inside;
    var s := Run(Start(cb), evs).s;
    StepAnswers(s, e, o);
    if e.Take? {
      i, w := |evs|, e.w;
    } else {
      i := CallOf(Start(cb), evs, o.t);
      w := At(s, o.t).w;
      InsideBounds(Start(cb), evs, i, o.t, w);
    }
  }

  lemma InsideBounds(s: State, evs: seq<Event>, i: nat, t: Task, w: Wait)
    requires Inside(s, evs, i, t, w)
    ensures i < |evs|
  {}

  // ---------------------------------------------------------------- what OK means

  /** The STATUS that semTake returns: a time-out is an error, except to a NO_WAIT caller. */
  predicate ReturnsOk(o: Obs, w: Wait)
    requires Returns(o)
  {
    !o.GaveUp? || w.NoWait?
  }

  /**
    A mutex: a call that is willing to wait is told OK exactly if it leaves the caller owning the mutex.
    A NO_WAIT call is told OK in any case.
  */
  lemma OkTakeOwns(evs: seq<Event>, e: Event, o: Obs) returns (i: nat, w: Wait)
    requires o in Step(Run(Start(SemMCreate()), evs).s, e).obs && Returns(o)
    ensures Answers(SemMCreate(), evs, e, o, i, w)
    ensures !w.NoWait? ==>
              (ReturnsOk(o, w) <==> Step(Run(Start(SemMCreate()), evs).s, e).s.cb.owner == Some(o.t))
    ensures w.NoWait? ==> ReturnsOk(o, w)
  {
    hide Run, Step, Answers;
    i, w := FindCall(SemMCreate(), evs, e, o);
    RunKeepsInv(SemMCreate(), evs);
    WaitersDoNotOwn(evs);
    StepOwns(Run(Start(SemMCreate()), evs).s, e, o);
  }

  lemma StepCounts(s: State, e: Event, o: Obs)
    requires Inv(s) && !s.cb.kind.Mutex? && o in Step(s, e).obs && Returns(o)
    ensures Step(s, e).s.cb.tokens == s.cb.tokens - if o.Granted? then 1 else 0
    ensures o.Flushed? ==> s.cb.sendType.Flush?
    ensures !o.Reentered?
  {
    hide Linked, Without;
    assert e.t in s.cb.waiters <==> !At(s, e.t).Idle?;
  }

  /**
    Counting and binary semaphores: a call that is willing to wait and that no flush ends is told OK
    exactly if it takes a token.  A NO_WAIT call is told OK in any case.
  */
  lemma OkTakeCounts(cb: Block, evs: seq<Event>, e: Event, o: Obs) returns (i: nat, w: Wait)
    requires Fresh(cb) && !cb.kind.Mutex?
    requires o in Step(Run(Start(cb), evs).s, e).obs && Returns(o)
    ensures Answers(cb, evs, e, o, i, w)
    ensures var s, s' := Run(Start(cb), evs).s, Step(Run(Start(cb), evs).s, e).s;
            && (o.Flushed? ==> s.cb.sendType.Flush? && s'.cb.tokens == s.cb.tokens)
            && (!o.Flushed? && !w.NoWait? ==> (ReturnsOk(o, w) <==> s'.cb.tokens == s.cb.tokens - 1))
    ensures w.NoWait? ==> ReturnsOk(o, w)
  {
    hide Run, Step, Answers;
    i, w := FindCall(cb, evs, e, o);
    RunKeepsInv(cb, evs);
    StepCounts(Run(Start(cb), evs).s, e, o);
  }

  /**
    So OK is worth nothing to a NO_WAIT caller: whenever there is no token, for a semaphore of any kind
    that the caller does not own, a NO_WAIT take that nobody interrupts is told OK, and neither the
    tokens nor the owner have changed.
  */
  lemma NoWaitOkForNothing(cb: Block, evs: seq<Event>, t: Task, late: bool)
    requires Fresh(cb)
    ensures var s := Run(Start(cb), evs).s;
            && s.lock.None? && At(s, t).Idle? && s.cb.sendType.Send? && s.cb.tokens <= 0
            && !(s.cb.kind.Mutex? && s.cb.owner == Some(t)) ==>
              var s1 := Step(s, Take(t, NoWait)).s;
              var s2 := Step(s1, Expire(t)).s;
              var o := Step(s2, Resume(t, late));
              && o.obs == [GaveUp(t, NoWait)] && ReturnsOk(o.obs[0], NoWait)
              && o.s.cb.owner == s.cb.owner && o.s.cb.tokens == s.cb.tokens && o.s.cb.waiters == s.cb.waiters
  {
    RunKeepsInv(cb, evs);
    var s := Run(Start(cb), evs).s;
    if && s.lock.None? && At(s, t).Idle? && s.cb.sendType.Send? && s.cb.tokens <= 0
       && !(s.cb.kind.Mutex? && s.cb.owner == Some(t)) {
      assert t !in s.cb.waiters;
      LeavesAgain(s, t, late);
    }
  }

  lemma LeavesAgain(s: State, t: Task, late: bool)
    requires s.lock.None? && At(s, t).Idle? && s.cb.sendType.Send? && s.cb.tokens <= 0
    requires !(s.cb.kind.Mutex? && s.cb.owner == Some(t)) && t !in s.cb.waiters
    ensures var s1 := Step(s, Take(t, NoWait)).s;
            var s2 := Step(s1, Expire(t)).s;
            Step(s2, Resume(t, late)).obs == [GaveUp(t, NoWait)] && Step(s2, Resume(t, late)).s.cb == s.cb
  {
    hide Linked;
    var s1 := Step(s, Take(t, NoWait)).s;
    assert At(s1, t) == Asleep(NoWait) && s1.cb == s.cb.(waiters := s.cb.waiters + [t]) && s1.lock.None?;
    var s2 := Step(s1, Expire(t)).s;
    assert At(s2, t) == Awake(NoWait, true) && s2.cb == s1.cb && s2.lock.None?;
    WithoutLast(s.cb.waiters, t);
  }
}
