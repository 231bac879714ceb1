/** semFlush: whom it releases, whom it misses, and when it leaves the semaphore dead. */
module SemaphoreFlush {
  import opened Sequences
  import opened Semaphore
  import opened SemaphoreSafety

  /** Between critical sections a flush is in force only while somebody is still on the list. */
  lemma FlushEndsWithTheList(cb: Block, evs: seq<Event>)
    requires Fresh(cb)
    ensures var b := Run(Start(cb), evs).s.cb; b.waiters == [] ==> b.sendType.Send?
  {
    RunKeepsInv(cb, evs);
  }

  /** A flush in force was called at some event, and the list has not been empty since. */
  lemma {:induction false} FlushOrigin(cb: Block, evs: seq<Event>) returns (i: nat)
    requires Fresh(cb) && Run(Start(cb), evs).s.cb.sendType.Flush?
    ensures i < |evs| && evs[i].FlushAll?
    ensures forall k :: i < k <= |evs| ==> Run(Start(cb), evs[..k]).s.cb.waiters != []
  {
    hide Step;
    var front, e := evs[..|evs| - 1], evs[|evs| - 1];
    var s := Run(Start(cb), front).s;
    RunKeepsInv(cb, evs);
    assert evs[..|evs|] == evs;
    if e.FlushAll? {
      i := |evs| - 1;
    } else {
      OnlyFlushAllFlushes(s, e);
      i := FlushOrigin(cb, front);
      forall k | i < k <= |evs|
        ensures Run(Start(cb), evs[..k]).s.cb.waiters != []
      {
        if k < |evs| {
          assert evs[..k] == front[..k];
        }
      }
    }
  }

  lemma OnlyFlushAllFlushes(s: State, e: Event)
    requires !e.FlushAll? && Step(s, e).s.cb.sendType.Flush?
    ensures s.cb.sendType.Flush?
  {
    hide Without, Linked;
  }

  /**
    Containment: a task sent away by a flush was sent away by a semFlush since which the list has never
    been empty.  So nobody who arrives after the list has drained is released by an old flush.
  */
  lemma FlushContainment(cb: Block, evs: seq<Event>, e: Event, t: Task) returns (i: nat)
    requires Fresh(cb) && Flushed(t) in Step(Run(Start(cb), evs).s, e).obs
    ensures i < |evs| && evs[i].FlushAll?
    ensures forall k :: i < k <= |evs| ==> Run(Start(cb), evs[..k]).s.cb.waiters != []
  {
    i := FlushOrigin(cb, evs);
  }

  /**
    One turn with a flush in force: every woken task leaves.  A task that was polling looks
    at its deadline and at the tokens but not at send_type: it leaves exactly when it would have left
    without the flush.
  */
  lemma FlushReleases(cb: Block, evs: seq<Event>, t: Task, late: bool)
    requires Fresh(cb)
    ensures var s := Run(Start(cb), evs).s;
            var p, s' := At(s, t), Step(s, Resume(t, late)).s;
            s.cb.sendType.Flush? && s.lock.None? ==>
              && (p.Awake? ==> At(s', t).Idle?)
              && (p.Polling? ==>
                    (At(s', t).Idle? <==>
                       if late && !p.w.Forever? then p.expired
                       else if s.cb.tokens > 0 then s.cb.waiters != [] && s.cb.waiters[0] == t
                       else p.expired && !p.w.Forever?))
  {
    RunKeepsInv(cb, evs);
  }

  // ---------------------------------------------------------------- from the call on

  /** A flush is in force, and the task has not had its turn since: `polling` is how the call found it. */
  ghost predicate Pending(s: State, t: Task, polling: bool) {
    && Inv(s) && s.cb.sendType.Flush? && s.lock.None?
    && if polling then At(s, t).Polling? else At(s, t).Awake?
  }

  /** A flush stays in force as long as anybody is left on the list. */
  lemma FlushStays(s: State, e: Event)
    requires Inv(s) && s.cb.sendType.Flush? && Step(s, e).s.cb.waiters != []
    ensures Step(s, e).s.cb.sendType.Flush?
  {
    hide Linked, Without;
  }

  /** Nobody's turn but its own moves a task that is up. */
  lemma OthersMoveNot(s: State, e: Event, t: Task)
    requires (At(s, t).Awake? || At(s, t).Polling?) && !(e.Resume? && e.t == t)
    ensures At(Step(s, e).s, t) == At(s, t)
  {
    hide SemTake, SemGive, SemFlush, Enter, Repoll;
  }

  lemma StaysPending(s: State, e: Event, t: Task, polling: bool)
    requires Pending(s, t, polling) && !(e.Resume? && e.t == t)
    ensures Pending(Step(s, e).s, t, polling)
  {
    hide Step;
    StepKeepsInv(s, e);
    OthersMoveNot(s, e, t);
    assert t in s.cb.waiters && t in Step(s, e).s.cb.waiters;
    FlushStays(s, e);
    OnlyFlushKeepsLock(s, e);
  }

  lemma {:induction false} RunStaysPending(s: State, evs: seq<Event>, t: Task, polling: bool)
    requires Pending(s, t, polling) && forall i :: 0 <= i < |evs| ==> !(evs[i].Resume? && evs[i].t == t)
    ensures Pending(Run(s, evs).s, t, polling)
  {
    if evs != [] {
      RunStaysPending(s, evs[..|evs| - 1], t, polling);
      StaysPending(Run(s, evs[..|evs| - 1]).s, evs[|evs| - 1], t, polling);
    }
  }

  lemma CallMakesPending(s: State, f: Task, t: Task)
    requires Inv(s) && !s.cb.kind.Mutex? && s.lock.None? && At(s, f).Idle? && t in s.cb.waiters
    ensures Pending(Step(s, FlushAll(f)).s, t, At(s, t).Polling?)
  {
    StepKeepsInv(s, FlushAll(f));
    assert !At(s, t).Idle?;
  }

  lemma PendingTurn(s: State, t: Task, polling: bool, late: bool)
    requires Pending(s, t, polling)
    ensures Step(s, Resume(t, late)).obs == [Flushed(t)] <==> !polling
  {
    hide Without;
  }

  /**
    semFlush, from the call on: of the tasks waiting when it is called, exactly those that are not
    polling at that moment are sent away by it at their next turn, whatever happens before that turn.
  */
  lemma FlushIsFor(cb: Block, evs: seq<Event>, f: Task, t: Task, more: seq<Event>, late: bool)
    requires Fresh(cb) && !cb.kind.Mutex?
    requires var s := Run(Start(cb), evs).s; s.lock.None? && At(s, f).Idle? && t in s.cb.waiters
    requires forall i :: 0 <= i < |more| ==> !(more[i].Resume? && more[i].t == t)
    ensures var s := Run(Start(cb), evs).s;
            var s' := Run(Step(s, FlushAll(f)).s, more).s;
            Step(s', Resume(t, late)).obs == [Flushed(t)] <==> !At(s, t).Polling?
  {
    hide Run, Step, Pending;
    var s := Run(Start(cb), evs).s;
    RunKeepsInv(cb, evs);
    CallMakesPending(s, f, t);
    RunStaysPending(Step(s, FlushAll(f)).s, more, t, At(s, t).Polling?);
    PendingTurn(Run(Step(s, FlushAll(f)).s, more).s, t, At(s, t).Polling?, late);
  }

  // ---------------------------------------------------------------- a flush that is missed

  /** What tasks 1 and 2 and a counting semaphore look like; task 3 is not waiting. */
  predicate Scene(s: State, tokens: int, st: SendType, waiters: seq<Task>, p1: Pc, p2: Pc) {
    && s.lock.None? && s.cb.kind.Counting? && s.cb.tokens == tokens && s.cb.sendType == st && s.cb.level == 0
    && s.cb.waiters == waiters && At(s, 1) == p1 && At(s, 2) == p2 && At(s, 3).Idle?
  }

  lemma PollerOutlivesToken(s: State)
    requires Scene(s, 0, Send, [1, 2], Asleep(Forever), Asleep(Forever))
    ensures var s1 := Step(s, Give(3)).s;
            var s2 := Step(s1, Resume(2, false)).s;
            var s3 := Step(s2, Resume(1, false)).s;
            Scene(s3, 0, Send, [2], Idle, Polling(Forever, false))
  {
    var s1 := Step(s, Give(3)).s;
    assert Scene(s1, 1, Send, [1, 2], Awake(Forever, false), Awake(Forever, false));
    var s2 := Step(s1, Resume(2, false)).s;
    assert Scene(s2, 1, Send, [1, 2], Awake(Forever, false), Polling(Forever, false));
  }

  lemma PollerMissesFlush(s: State)
    requires Scene(s, 0, Send, [2], Idle, Polling(Forever, false))
    ensures var s1 := Step(s, FlushAll(3)).s;
            Scene(Step(s1, Resume(2, false)).s, 0, Flush, [2], Idle, Asleep(Forever))
  {
    var s1 := Step(s, FlushAll(3)).s;
    assert Scene(s1, 0, Flush, [2], Idle, Polling(Forever, false));
  }

  lemma BothAsleep(s: State)
    requires s == Start(SemCCreate(0))
    ensures var s1 := Step(s, Take(1, Forever)).s;
            Scene(Step(s1, Take(2, Forever)).s, 0, Send, [1, 2], Asleep(Forever), Asleep(Forever))
  {
    hide Linked;
    assert Linked([], 1) == [] + [1] && Linked([1], 2) == [1] + [2];
    var s1 := Step(s, Take(1, Forever)).s;
    assert Scene(s1, 0, Send, [1], Asleep(Forever), Idle);
  }

  lemma RunSnoc(s: State, evs: seq<Event>, e: Event)
    ensures Run(s, evs + [e]).s == Step(Run(s, evs).s, e).s
  {
    hide Step;
    assert (evs + [e])[..|evs|] == evs;
  }

  /** A flush can be missed: task 2 sleeps on with the flush in force, until somebody gives. */
  lemma FlushCanMiss() returns (evs: seq<Event>)
    ensures Scene(Run(Start(SemCCreate(0)), evs).s, 0, Flush, [2], Idle, Asleep(Forever))
  {
    hide Step;
    var s := Start(SemCCreate(0));
    evs := [];
    BothAsleep(s);
    RunSnoc(s, evs, Take(1, Forever));
    evs := evs + [Take(1, Forever)];
    RunSnoc(s, evs, Take(2, Forever));
    evs := evs + [Take(2, Forever)];
    PollerOutlivesToken(Run(s, evs).s);
    RunSnoc(s, evs, Give(3));
    evs := evs + [Give(3)];
    RunSnoc(s, evs, Resume(2, false));
    evs := evs + [Resume(2, false)];
    RunSnoc(s, evs, Resume(1, false));
    evs := evs + [Resume(1, false)];
    PollerMissesFlush(Run(s, evs).s);
    RunSnoc(s, evs, FlushAll(3));
    evs := evs + [FlushAll(3)];
    RunSnoc(s, evs, Resume(2, false));
    evs := evs + [Resume(2, false)];
  }

  /** Without arrivals, the list shrinks by one at every exit and otherwise stays as it is. */
  lemma ListDrains(cb: Block, evs: seq<Event>, e: Event)
    requires Fresh(cb) && !e.Take?
    ensures var s, o := Run(Start(cb), evs).s, Step(Run(Start(cb), evs).s, e);
            if At(s, e.t).Idle? == At(o.s, e.t).Idle? then o.s.cb.waiters == s.cb.waiters
            else |o.s.cb.waiters| == |s.cb.waiters| - 1
  {
    hide Run, Without, Linked;
    var s := Run(Start(cb), evs).s;
    RunKeepsInv(cb, evs);
    assert e.t in s.cb.waiters <==> !At(s, e.t).Idle?;
  }

  // ---------------------------------------------------------------- the lock that is never unlocked

  /** The event is a semFlush of a semaphore that nobody waits on and that is not a mutex. */
  predicate FlushesNobody(s: State, e: Event) {
    e.FlushAll? && s.lock.None? && At(s, e.t).Idle? && !s.cb.kind.Mutex? && s.cb.waiters == []
  }

  ghost predicate EverFlushesNobody(cb: Block, evs: seq<Event>) {
    exists k :: 0 <= k < |evs| && FlushesNobody(Run(Start(cb), evs[..k]).s, evs[k])
  }

  lemma OnlyFlushKeepsLock(s: State, e: Event)
    ensures s.lock.Some? ==> Step(s, e).s.lock == s.lock
    ensures s.lock.None? ==> (Step(s, e).s.lock.Some? <==> FlushesNobody(s, e))
  {
    hide Without, Linked;
  }

  lemma {:induction false} LockedExactlyWhen(cb: Block, evs: seq<Event>)
    ensures Run(Start(cb), evs).s.lock.Some? <==> EverFlushesNobody(cb, evs)
  {
    hide Step;
    if evs != [] {
      var front, e := evs[..|evs| - 1], evs[|evs| - 1];
      LockedExactlyWhen(cb, front);
      OnlyFlushKeepsLock(Run(Start(cb), front).s, e);
      forall k | 0 <= k < |front|
        ensures evs[..k] == front[..k] && evs[k] == front[k]
      {}
    }
  }

  /** With `sem_lock` locked, a task can wake up but never gets further. */
  lemma LockedStep(s: State, e: Event)
    requires s.lock.Some?
    ensures var o := Step(s, e);
            && o.obs == [] && o.s.cb == s.cb && o.s.lock == s.lock
            && forall t :: At(o.s, t).Idle? <==> At(s, t).Idle?
  {}

  lemma {:induction false} LockedRun(s: State, evs: seq<Event>)
    requires s.lock.Some?
    ensures var r := Run(s, evs);
            && r.obs == [] && r.s.cb == s.cb && r.s.lock == s.lock
            && forall t :: At(r.s, t).Idle? <==> At(s, t).Idle?
  {
    hide Step;
    if evs != [] {
      LockedRun(s, evs[..|evs| - 1]);
      LockedStep(Run(s, evs[..|evs| - 1]).s, evs[|evs| - 1]);
    }
  }

  /**
    A semaphore goes dead exactly if some semFlush of it found nobody waiting: from then on, whatever is
    tried, no take, give or flush ever gets anywhere; until then every give is answered at once.
  */
  lemma FlushOfNobodyWedges(cb: Block, evs: seq<Event>, more: seq<Event>, t: Task)
    ensures var s := Run(Start(cb), evs).s;
            && (EverFlushesNobody(cb, evs) ==> Run(s, more).obs == [] && Run(s, more).s.cb == s.cb)
            && (!EverFlushesNobody(cb, evs) && At(s, t).Idle? ==> Step(s, Give(t)).obs != [])
  {
    var s := Run(Start(cb), evs).s;
    LockedExactlyWhen(cb, evs);
    if s.lock.Some? {
      LockedRun(s, more);
    }
  }
}
