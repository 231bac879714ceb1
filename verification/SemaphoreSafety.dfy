/** What every run of a semaphore keeps. */
module SemaphoreSafety {
  import opened Sequences
  import opened Semaphore

  /** A block as one of the create functions leaves it. */
  predicate Fresh(cb: Block) {
    && cb.sendType.Send? && cb.level == 0 && cb.owner.None? && cb.waiters == []
    && (cb.kind.Mutex? ==> cb.tokens == 1)
  }

  /** The wait list holds exactly the tasks inside wait_for_token, each once. */
  ghost predicate Listed(s: State) {
    && Distinct(s.cb.waiters)
    && forall t :: t in s.cb.waiters <==> !At(s, t).Idle?
  }

  /** Nobody sleeps for ever next to a token. */
  ghost predicate NoneForgotten(s: State) {
    forall t :: At(s, t) == Asleep(Forever) ==> s.cb.tokens <= 0
  }

  predicate FlushContained(cb: Block) {
    cb.sendType.Flush? ==> cb.waiters != [] && !cb.kind.Mutex?
  }

  predicate MutexShape(cb: Block) {
    cb.kind.Mutex? ==>
      && (cb.owner.None? <==> cb.level == 0)
      && cb.tokens == if cb.level == 0 then 1 else 0
  }

  predicate BlockInv(cb: Block) {
    FlushContained(cb) && MutexShape(cb)
  }

  ghost predicate Inv(s: State) {
    Listed(s) && NoneForgotten(s) && BlockInv(s.cb)
  }

  /** What one turn of a listed task does: leave the list, or leave everything alone. */
  predicate Turn(cb: Block, t: Task, r: Section) {
    && !r.broadcast && r.cb.kind == cb.kind && r.cb.tokens <= cb.tokens
    && (if r.pc.Idle? then r.cb.waiters == Without(cb.waiters, t) && BlockInv(r.cb) else r.cb == cb)
    && (r.pc == Asleep(Forever) ==> cb.tokens <= 0)
  }

  lemma TurnOf(cb: Block, t: Task, w: Wait, expired: bool, late: bool)
    requires BlockInv(cb) && t in cb.waiters
    ensures Turn(cb, t, Enter(cb, t, w, expired))
    ensures Turn(cb, t, Repoll(cb, t, w, expired, late))
  {}

  lemma TurnKeepsInv(s: State, t: Task, r: Section)
    requires Inv(s) && t in s.cb.waiters && Turn(s.cb, t, r)
    ensures Inv(Commit(s, t, r).s)
  {
    var s' := Commit(s, t, r).s;
    WithoutMembers(s.cb.waiters, t);
    forall u
      ensures u in s'.cb.waiters <==> !At(s', u).Idle?
      ensures At(s', u) == Asleep(Forever) ==> s'.cb.tokens <= 0
    {
      assert u in s.cb.waiters <==> !At(s, u).Idle?;
    }
  }

  lemma IdleIsUnlisted(s: State, t: Task)
    requires Listed(s)
    ensures t in s.cb.waiters <==> !At(s, t).Idle?
  {}

  lemma TakeKeepsInv(s: State, t: Task, w: Wait)
    requires Inv(s) && At(s, t).Idle?
    ensures Inv(Commit(s, t, SemTake(s.cb, t, w)).s)
  {
    hide Enter, Listed, Turn;
    IdleIsUnlisted(s, t);
    if s.cb.kind.Mutex? && s.cb.owner == Some(t) {
      CalmKeepsListed(s, t, SemTake(s.cb, t, w));
    } else {
      var s1 := Waiting(s, t, w);
      WaitingKeepsInv(s, t, w);
      TurnOf(s1.cb, t, w, false, false);
      var r := Enter(s1.cb, t, w, false);
      TurnKeepsInv(s1, t, r);
      assert s1.pc[t := r.pc] == s.pc[t := r.pc];
    }
  }

  /** The task has linked itself and is about to look. */
  function Waiting(s: State, t: Task, w: Wait): State {
    State(s.cb.(waiters := s.cb.waiters + [t]), s.pc[t := Awake(w, false)], s.lock)
  }

  lemma WaitingKeepsInv(s: State, t: Task, w: Wait)
    requires Inv(s) && At(s, t).Idle? && t !in s.cb.waiters
    ensures Inv(Waiting(s, t, w))
  {
    var s1 := Waiting(s, t, w);
    forall u
      ensures u in s1.cb.waiters <==> !At(s1, u).Idle?
      ensures At(s1, u) == Asleep(Forever) ==> s1.cb.tokens <= 0
    {
      assert u in s.cb.waiters <==> !At(s, u).Idle?;
      assert At(s, u) == Asleep(Forever) ==> s.cb.tokens <= 0;
    }
  }

  /** A section of a task that is on no list moves nobody on or off the list. */
  lemma CalmKeepsListed(s: State, t: Task, r: Section)
    requires Listed(s) && At(s, t).Idle? && r.pc.Idle? && r.cb.waiters == s.cb.waiters
    ensures Listed(Commit(s, t, r).s)
    ensures forall u :: At(Commit(s, t, r).s, u).Asleep? ==> !r.broadcast && At(Commit(s, t, r).s, u) == At(s, u)
  {
    var s' := Commit(s, t, r).s;
    forall u
      ensures u in s'.cb.waiters <==> !At(s', u).Idle?
    {
      assert u in s.cb.waiters <==> !At(s, u).Idle?;
    }
  }

  lemma GiveKeepsInv(s: State, t: Task)
    requires Inv(s) && At(s, t).Idle?
    ensures Inv(Commit(s, t, SemGive(s.cb, t)).s)
  {
    var r := SemGive(s.cb, t);
    CalmKeepsListed(s, t, r);
    var s' := Commit(s, t, r).s;
    forall u | At(s', u) == Asleep(Forever)
      ensures s'.cb.tokens <= 0
    {
      assert u in s.cb.waiters;
    }
  }

  lemma StepKeepsInv(s: State, e: Event)
    requires Inv(s)
    ensures Inv(Step(s, e).s)
    ensures Step(s, e).s.cb.kind == s.cb.kind
  {
    var p := At(s, e.t);
    assert e.t in s.cb.waiters <==> !p.Idle?;
    match e
    case Take(t, w) =>
      if p.Idle? { TakeKeepsInv(s, t, w); }
    case Give(t) =>
      if p.Idle? { GiveKeepsInv(s, t); }
    case FlushAll(t) =>
      if p.Idle? { CalmKeepsListed(s, t, SemFlush(s.cb, t)); }
    case Wake(t) =>
      if p.Asleep? { TurnKeepsInv(s, t, Section(s.cb, Awake(p.w, false), [], false)); }
    case Expire(t) =>
      if p.Asleep? { TurnKeepsInv(s, t, Section(s.cb, Awake(p.w, true), [], false)); }
    case Resume(t, late) =>
      if p.Awake? || p.Polling? {
        TurnOf(s.cb, t, p.w, p.expired, late);
        if p.Awake? {
          TurnKeepsInv(s, t, Enter(s.cb, t, p.w, p.expired));
        } else {
          TurnKeepsInv(s, t, Repoll(s.cb, t, p.w, p.expired, late));
        }
      }
  }

  lemma {:induction false} RunKeepsInv(cb: Block, evs: seq<Event>)
    requires Fresh(cb)
    ensures Inv(Run(Start(cb), evs).s)
    ensures Run(Start(cb), evs).s.cb.kind == cb.kind
  {
    if evs != [] {
      var front := evs[..|evs| - 1];
      RunKeepsInv(cb, front);
      StepKeepsInv(Run(Start(cb), front).s, evs[|evs| - 1]);
    }
  }

  /**
    No lost wake-up: in every run of any mix of takes, gives, flushes and time-outs, a task sleeping
    for ever means there is no token; so when there is one, the first task in line is up, and its next
    turn takes the token (or, being newly woken under a flush, leaves without it).
  */
  lemma NoLostWakeup(cb: Block, evs: seq<Event>, late: bool)
    requires Fresh(cb)
    ensures var s := Run(Start(cb), evs).s;
            && (forall t :: At(s, t) == Asleep(Forever) ==> s.cb.tokens <= 0)
            && (s.lock.None? && s.cb.tokens > 0 && s.cb.waiters != [] ==>
                  var h := s.cb.waiters[0];
                  && !At(s, h).Idle?
                  && (At(s, h).w.Forever? ==>
                        Step(s, Resume(h, late)).obs ==
                        [if At(s, h).Awake? && s.cb.sendType.Flush? then Flushed(h) else Granted(h)]))
  {
    var s := Run(Start(cb), evs).s;
    RunKeepsInv(cb, evs);
    if s.lock.None? && s.cb.tokens > 0 && s.cb.waiters != [] {
      var h := s.cb.waiters[0];
      assert h in s.cb.waiters;
      assert At(s, h) != Asleep(Forever);
    }
  }
}
