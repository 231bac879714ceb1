/** Mutual-exclusion semaphores: ownership and nesting. */
module MutexSemaphore {
  import opened Sequences
  import opened Traces
  import opened Semaphore
  import opened SemaphoreSafety

  /** No owner, no nesting and one token go together; and otherwise there is no token. */
  lemma MutexInvariant(evs: seq<Event>)
    ensures var cb := Run(Start(SemMCreate()), evs).s.cb;
            && (cb.owner.None? <==> cb.level == 0)
            && (cb.level == 0 <==> cb.tokens == 1)
            && (cb.level > 0 ==> cb.tokens == 0)
            && cb.sendType.Send?
  {
    RunKeepsInv(SemMCreate(), evs);
  }

  function Nesting(t: Task): Obs -> int {
    o => if o == Granted(t) || o == Reentered(t) then 1 else if o == Released(t) || o == Unnested(t) then -1 else 0
  }

  /** Takes by `t` minus gives by `t`, over a whole trace. */
  function Depth(tr: seq<Obs>, t: Task): int {
    Sum(tr, Nesting(t))
  }

  function Held(cb: Block, t: Task): nat {
    if cb.owner == Some(t) then cb.level else 0
  }

  lemma TurnDepth(cb: Block, u: Task, w: Wait, expired: bool, late: bool, t: Task)
    requires BlockInv(cb) && cb.kind.Mutex?
    ensures Held(Enter(cb, u, w, expired).cb, t) == Held(cb, t) + Depth(Enter(cb, u, w, expired).obs, t)
    ensures Held(Repoll(cb, u, w, expired, late).cb, t) == Held(cb, t) + Depth(Repoll(cb, u, w, expired, late).obs, t)
  {
    hide Without, Sum;
    SumOne(Nesting(t));
  }

  lemma StepDepth(s: State, e: Event, t: Task)
    requires Inv(s) && s.cb.kind.Mutex?
    ensures Held(Step(s, e).s.cb, t) == Held(s.cb, t) + Depth(Step(s, e).obs, t)
  {
    hide Linked, Without, Enter, Repoll, Sum;
    SumOne(Nesting(t));
    var p := At(s, e.t);
    match e
    case Take(u, w) =>
      var linked := s.cb.(waiters := Linked(s.cb.waiters, u));
      TurnDepth(linked, u, w, false, false, t);
      SumConcat([Pended(u)], Enter(linked, u, w, false).obs, Nesting(t));
    case Resume(u, late) =>
      if p.Awake? || p.Polling? { TurnDepth(s.cb, u, p.w, p.expired, late, t); }
    case _ =>
  }

  /**
    The nesting level of the owner is its takes minus its gives; for everybody else the two are equal.
    Hence no two tasks are ever inside at once.
  */
  lemma {:induction false} NestingCounts(evs: seq<Event>, t: Task)
    ensures Depth(Run(Start(SemMCreate()), evs).obs, t) == Held(Run(Start(SemMCreate()), evs).s.cb, t)
  {
    if evs != [] {
      var front := evs[..|evs| - 1];
      var r := Run(Start(SemMCreate()), front);
      NestingCounts(front, t);
      RunKeepsInv(SemMCreate(), front);
      StepDepth(r.s, evs[|evs| - 1], t);
      SumConcat(r.obs, Step(r.s, evs[|evs| - 1]).obs, Nesting(t));
    }
  }

  lemma MutualExclusion(evs: seq<Event>, t: Task, u: Task)
    requires t != u
    requires Depth(Run(Start(SemMCreate()), evs).obs, t) > 0
    ensures Depth(Run(Start(SemMCreate()), evs).obs, u) == 0
  {
    NestingCounts(evs, t);
    NestingCounts(evs, u);
  }

  /** A give by anybody but the owner is refused and changes nothing for anybody. */
  lemma ForeignGive(evs: seq<Event>, t: Task)
    ensures var s := Run(Start(SemMCreate()), evs).s;
            At(s, t).Idle? && s.cb.owner != Some(t) && s.lock.None? ==>
              var o := Step(s, Give(t));
              && o.obs == [Refused(t)] && o.s.cb == s.cb
              && forall u :: At(o.s, u) == At(s, u)
  {
    RunKeepsInv(SemMCreate(), evs);
  }

  /** How semTake ends. */
  predicate Returns(o: Obs) {
    o.Granted? || o.Reentered? || o.Flushed? || o.GaveUp?
  }

  /** A take that ends leaves the caller owning the mutex exactly if it did not time out. */
  lemma StepOwns(s: State, e: Event, o: Obs)
    requires Inv(s) && s.cb.kind.Mutex? && OwnerNotListed(s.cb)
    requires o in Step(s, e).obs && Returns(o)
    ensures Step(s, e).s.cb.owner == Some(o.t) <==> !o.GaveUp?
  {
    hide Linked, Without;
    assert e.t in s.cb.waiters <==> !At(s, e.t).Idle?;
  }

  /** The owner is never on the wait list of its own mutex. */
  ghost predicate OwnerNotListed(cb: Block) {
    forall t :: t in cb.waiters ==> cb.owner != Some(t)
  }

  lemma TurnKeepsOwnerOff(cb: Block, t: Task, r: Section)
    requires OwnerNotListed(cb) && Distinct(cb.waiters) && Turn(cb, t, r)
    requires r.cb.owner == cb.owner || r.cb.owner == Some(t)
    ensures OwnerNotListed(r.cb)
  {
    WithoutMembers(cb.waiters, t);
  }

  lemma StepKeepsOwnerOff(s: State, e: Event)
    requires Inv(s) && s.cb.kind.Mutex? && OwnerNotListed(s.cb)
    ensures OwnerNotListed(Step(s, e).s.cb)
  {
    var p := At(s, e.t);
    assert e.t in s.cb.waiters <==> !p.Idle?;
    match e
    case Take(t, w) =>
      if p.Idle? && s.cb.owner != Some(t) {
        var linked := s.cb.(waiters := s.cb.waiters + [t]);
        TurnOf(linked, t, w, false, false);
        TurnKeepsOwnerOff(linked, t, Enter(linked, t, w, false));
      }
    case Resume(t, late) =>
      if p.Awake? || p.Polling? {
        TurnOf(s.cb, t, p.w, p.expired, late);
        TurnKeepsOwnerOff(s.cb, t, if p.Awake? then Enter(s.cb, t, p.w, p.expired)
                                   else Repoll(s.cb, t, p.w, p.expired, late));
      }
    case _ =>
  }

  lemma {:induction false} WaitersDoNotOwn(evs: seq<Event>)
    ensures OwnerNotListed(Run(Start(SemMCreate()), evs).s.cb)
  {
    if evs != [] {
      var front := evs[..|evs| - 1];
      WaitersDoNotOwn(front);
      RunKeepsInv(SemMCreate(), front);
      StepKeepsOwnerOff(Run(Start(SemMCreate()), front).s, evs[|evs| - 1]);
    }
  }
}
