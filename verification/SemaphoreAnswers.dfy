/**
  What each call on a semaphore gets for an answer, and what it leaves behind: in every reachable state, for
  every kind, caller and wait.  Nothing here refers to how a section computes it.
*/
module SemaphoreAnswers {
  import opened Sequences
  import opened Semaphore
  import opened SemaphoreSafety
  import opened SemaphoreOrder
  import opened MutexSemaphore

  /** Nobody else is anywhere else; if `up`, the sleepers have been woken. */
  ghost predicate OthersStay(s: State, s': State, t: Task, up: bool) {
    s'.lock == s.lock && forall u :: u != t ==> At(s', u) == if up then Woken(At(s, u)) else At(s, u)
  }

  /** The caller is answered, and nothing else has happened. */
  ghost predicate Answered(s: State, o: Out, t: Task, obs: seq<Obs>, cb: Block) {
    o.obs == obs && o.s.cb == cb && At(o.s, t).Idle? && OthersStay(s, o.s, t, false)
  }

  predicate Owns(cb: Block, t: Task) {
    cb.kind.Mutex? && cb.owner == Some(t)
  }

  /** A token less; it is the taker's, who if it is a mutex is inside one level deep. */
  function OneTaken(cb: Block, t: Task): Block {
    cb.(tokens := cb.tokens - 1, owner := Some(t), level := if cb.kind.Mutex? then 1 else cb.level)
  }

  // ---------------------------------------------------------------- semTake

  /**
    semTake, whatever the wait and the kind.  The owner of a mutex goes one level deeper.  Anybody else joins
    the line, is sent away by a flush in force, takes a token if there is one and nobody is in line, and
    otherwise waits: polling if there is a token, else asleep.
  */
  lemma TakeAnswer(s: State, t: Task, w: Wait)
    requires Inv(s) && s.lock.None? && At(s, t).Idle?
    ensures var o := Step(s, Take(t, w));
            if Owns(s.cb, t) then Answered(s, o, t, [Reentered(t)], s.cb.(level := s.cb.level + 1))
            else if s.cb.sendType.Flush? then Answered(s, o, t, [Pended(t), Flushed(t)], s.cb)
            else if s.cb.tokens > 0 && s.cb.waiters == [] then
              Answered(s, o, t, [Pended(t), Granted(t)], OneTaken(s.cb, t))
            else
              && o.obs == [Pended(t)] && o.s.cb == s.cb.(waiters := s.cb.waiters + [t]) && OthersStay(s, o.s, t, false)
              && At(o.s, t) == if s.cb.tokens > 0 then Polling(w, false) else Asleep(w)
  {
    hide Linked, Without, Distinct;
    assert t in s.cb.waiters <==> !At(s, t).Idle?;
    WithoutLast(s.cb.waiters, t);
  }

  /** Back from taskDelay(1) with the deadline past. */
  predicate TooLate(p: Pc, late: bool) {
    p.Polling? && !p.w.Forever? && late
  }

  predicate First(cb: Block, t: Task) {
    cb.waiters != [] && cb.waiters[0] == t
  }

  /** The line without the task; with the last one a flush ends. */
  function OneOut(cb: Block, t: Task): Block {
    var line := Without(cb.waiters, t);
    cb.(waiters := line, sendType := if line == [] then Send else cb.sendType)
  }

  /**
    A waiting task's next turn, whatever its wait, with no flush in force: it takes a token exactly if there
    is one, it is first in line and it is not too late; it gives up exactly if its deadline has been reported
    and there is no token, or it is too late; otherwise it stays in line, polling if there is a token, else
    asleep.
  */
  lemma TurnAnswer(s: State, t: Task, late: bool)
    requires Inv(s) && s.lock.None? && s.cb.sendType.Send? && (At(s, t).Awake? || At(s, t).Polling?)
    ensures var p, o := At(s, t), Step(s, Resume(t, late));
            if s.cb.tokens > 0 && First(s.cb, t) && !TooLate(p, late) then
              Answered(s, o, t, [Granted(t)], OneTaken(OneOut(s.cb, t), t))
            else if p.expired && !p.w.Forever? && (s.cb.tokens <= 0 || TooLate(p, late)) then
              Answered(s, o, t, [GaveUp(t, p.w)], OneOut(s.cb, t))
            else
              && o.obs == [] && o.s.cb == s.cb && OthersStay(s, o.s, t, false)
              && At(o.s, t) == if s.cb.tokens > 0 && !TooLate(p, late) then Polling(p.w, p.expired) else Asleep(p.w)
  {
    hide Without, Distinct;
  }

  /** With a flush in force, a woken task is sent away, and takes nothing with it. */
  lemma FlushedAnswer(s: State, t: Task, late: bool)
    requires Inv(s) && s.lock.None? && s.cb.sendType.Flush? && At(s, t).Awake?
    ensures Answered(s, Step(s, Resume(t, late)), t, [Flushed(t)], OneOut(s.cb, t))
  {
    hide Without, Distinct;
  }

  /** With a flush in force, a polling task looks at its deadline and at the tokens as ever. */
  lemma PollingFlushAnswer(s: State, t: Task, late: bool)
    requires Inv(s) && s.lock.None? && s.cb.sendType.Flush? && At(s, t).Polling?
    ensures var p, o := At(s, t), Step(s, Resume(t, late));
            if s.cb.tokens > 0 && First(s.cb, t) && !TooLate(p, late) then
              Answered(s, o, t, [Granted(t)], OneOut(s.cb, t).(tokens := s.cb.tokens - 1))
            else if p.expired && !p.w.Forever? && (s.cb.tokens <= 0 || TooLate(p, late)) then
              Answered(s, o, t, [GaveUp(t, p.w)], OneOut(s.cb, t))
            else
              && o.obs == [] && o.s.cb == s.cb && OthersStay(s, o.s, t, false)
              && At(o.s, t) == if s.cb.tokens > 0 && !TooLate(p, late) then Polling(p.w, p.expired) else Asleep(p.w)
  {
    hide Without, Distinct;
  }

  /**
    So nobody who can have a token goes without it: in every run, whatever the wait, a take of a semaphore
    with a token and nobody in line has it at once, and the first in line has it at its next turn if it is
    not too late.
  */
  lemma TokenIsTaken(cb: Block, evs: seq<Event>, t: Task, w: Wait, late: bool)
    requires Fresh(cb)
    ensures var s := Run(Start(cb), evs).s;
            s.lock.None? && s.cb.sendType.Send? && s.cb.tokens > 0 ==>
              && (At(s, t).Idle? && s.cb.waiters == [] && !Owns(s.cb, t) ==>
                    Step(s, Take(t, w)).obs == [Pended(t), Granted(t)])
              && (First(s.cb, t) && !At(s, t).Asleep? && !TooLate(At(s, t), late) ==>
                    Step(s, Resume(t, late)).obs == [Granted(t)])
  {
    hide Step;
    var s := Run(Start(cb), evs).s;
    RunKeepsInv(cb, evs);
    if s.lock.None? && s.cb.sendType.Send? && s.cb.tokens > 0 {
      if At(s, t).Idle? { TakeAnswer(s, t, w); }
      if First(s.cb, t) && !At(s, t).Asleep? {
        assert t in s.cb.waiters;
        TurnAnswer(s, t, late);
      }
    }
  }

  // ---------------------------------------------------------------- semGive

  /** The give is answered; everybody asleep is up. */
  ghost predicate GivenBack(s: State, o: Out, t: Task, obs: Obs, cb: Block) {
    && o.obs == [obs] && o.s.cb == cb && At(o.s, t).Idle? && o.s.lock == s.lock
    && forall u :: !At(o.s, u).Asleep? && (!At(s, u).Asleep? ==> At(o.s, u) == At(s, u))
  }

  /**
    semGive: of a semaphore that is not a mutex it is always accepted, and there is a token more; of a mutex it
    is accepted from the owner, who is then one level less deep and, coming out, leaves the token and no owner;
    from anybody else it is refused and changes nothing.
  */
  lemma GiveAnswer(s: State, t: Task)
    requires Inv(s) && s.lock.None? && At(s, t).Idle? && (!s.cb.kind.Mutex? ==> s.cb.level == 0)
    ensures var o := Step(s, Give(t));
            if !s.cb.kind.Mutex? then GivenBack(s, o, t, Released(t), s.cb.(tokens := s.cb.tokens + 1))
            else if !Owns(s.cb, t) then Answered(s, o, t, [Refused(t)], s.cb)
            else if s.cb.level > 1 then GivenBack(s, o, t, Unnested(t), s.cb.(level := s.cb.level - 1))
            else GivenBack(s, o, t, Released(t), s.cb.(level := 0, tokens := 1, owner := None))
  {
    var s' := Step(s, Give(t)).s;
    forall u
      ensures !(s.cb.kind.Mutex? && !Owns(s.cb, t)) ==> !At(s', u).Asleep?
      ensures !At(s, u).Asleep? ==> At(s', u) == At(s, u)
    {
      assert At(s, u).Asleep? ==> u in s.cb.waiters;
    }
  }

  /**
    In every run of a mutex the owner can give it back: if it has taken it more than once more than it has
    given it, it stays inside, one level less deep; otherwise the mutex is free, with one token and no owner,
    and everybody asleep is up.  And the owner can always take it again, one level deeper.
  */
  lemma OwnerComesAndGoes(evs: seq<Event>, t: Task, w: Wait)
    ensures var r := Run(Start(SemMCreate()), evs);
            var s, give, take := r.s, Step(r.s, Give(t)), Step(r.s, Take(t, w));
            s.lock.None? && At(s, t).Idle? && s.cb.owner == Some(t) ==>
              && s.cb.level == Depth(r.obs, t)
              && (if s.cb.level > 1
                  then GivenBack(s, give, t, Unnested(t), s.cb.(level := s.cb.level - 1))
                  else GivenBack(s, give, t, Released(t), s.cb.(level := 0, tokens := 1, owner := None)))
              && Answered(s, take, t, [Reentered(t)], s.cb.(level := s.cb.level + 1))
  {
    hide Step, Depth;
    var s := Run(Start(SemMCreate()), evs).s;
    RunKeepsInv(SemMCreate(), evs);
    NestingCounts(evs, t);
    if s.lock.None? && At(s, t).Idle? && s.cb.owner == Some(t) {
      GiveAnswer(s, t);
      TakeAnswer(s, t, w);
    }
  }

  /** A give of a semaphore that is not a mutex is accepted from anybody, in every run. */
  lemma AnybodyGives(cb: Block, evs: seq<Event>, t: Task)
    requires Fresh(cb) && !cb.kind.Mutex?
    ensures var s := Run(Start(cb), evs).s;
            s.lock.None? && At(s, t).Idle? ==>
              GivenBack(s, Step(s, Give(t)), t, Released(t), s.cb.(tokens := s.cb.tokens + 1))
  {
    RunKeepsInv(cb, evs);
    NoNesting(cb, evs);
    var s := Run(Start(cb), evs).s;
    if s.lock.None? && At(s, t).Idle? { GiveAnswer(s, t); }
  }

  // ---------------------------------------------------------------- semFlush and creation

  /** semFlush: refused for a mutex; else, if anybody waits, in force, and everybody asleep is up. */
  lemma FlushAnswer(s: State, f: Task)
    requires Inv(s) && s.lock.None? && At(s, f).Idle?
    ensures var o := Step(s, FlushAll(f));
            if s.cb.kind.Mutex? then Answered(s, o, f, [Refused(f)], s.cb)
            else if s.cb.waiters == [] then o.obs == [] && o.s.cb == s.cb && o.s.lock == Some(f)
            else
              && o.obs == [] && o.s.cb == s.cb.(sendType := Flush) && o.s.lock.None? && At(o.s, f).Idle?
              && forall u :: !At(o.s, u).Asleep? && (!At(s, u).Asleep? ==> At(o.s, u) == At(s, u))
  {}

  /** What a semaphore starts with: a binary one with a token unless told not to, a counting one with its count. */
  lemma StartsWith(initialState: int, initialCount: int, evs: seq<Event>)
    ensures var r := Run(Start(SemBCreate(initialState)), evs);
            r.s.cb.tokens == (if initialState != 0 then 1 else 0) + NetTokens(r.obs)
    ensures var r := Run(Start(SemCCreate(initialCount)), evs); r.s.cb.tokens == initialCount + NetTokens(r.obs)
    ensures var r := Run(Start(SemMCreate()), evs); r.s.cb.tokens == 1 + NetTokens(r.obs)
  {
    TokensConserved(SemBCreate(initialState), evs);
    TokensConserved(SemCCreate(initialCount), evs);
    TokensConserved(SemMCreate(), evs);
  }
}
