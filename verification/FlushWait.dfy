/**
  How semFlush waits for the list to drain (lib/lsemLib.c:380-388), and how it can fail to notice.

  The flusher holds `smdel_lock` from before its broadcast until it first sleeps on `smdel_cplt`.  The last
  waiter out takes `smdel_lock`, broadcasts `smdel_cplt` and ends the flush, all while holding `sem_lock`.
  So if it comes before the flusher's first look, the flusher looks in the middle of that section, and
  finds nobody.  A woken flusher looks at the list again some time later.
*/
module FlushWait {
  import opened Sequences
  import opened Semaphore
  import opened SemaphoreSafety
  import opened SemaphoreFlush

  /** `Looking` is before the first look; `Done` is past the loop. */
  datatype Flusher = Looking | Sleeping | Woken | Done

  /** A semFlush by task `f` under way. */
  datatype Call = Call(s: State, f: Task, fl: Flusher)

  datatype Move =
    | Sem(e: Event)     // somebody does something to the semaphore
    | Look              // the flusher looks at the list
    | Stir              // the flusher wakes up for no reason

  predicate Ends(s: State, s': State) {
    s.cb.sendType.Flush? && s'.cb.sendType.Send?
  }

  /** The broadcast of `smdel_cplt`. */
  function Told(fl: Flusher): Flusher {
    match fl
    case Looking => Done
    case Sleeping => Woken
    case _ => fl
  }

  /** While the call lasts the flusher does nothing else, and another semFlush waits in taskLock. */
  predicate Possible(c: Call, e: Event) {
    c.fl.Done? || (e.t != c.f && !e.FlushAll?)
  }

  function Next(c: Call, m: Move): Call {
    match m
    case Sem(e) =>
      if !Possible(c, e) then c
      else
        var s' := Step(c.s, e).s;
        Call(s', c.f, if Ends(c.s, s') then Told(c.fl) else c.fl)
    case Look =>
      if c.fl.Looking? || c.fl.Woken? then c.(fl := if c.s.cb.waiters == [] then Done else Sleeping) else c
    case Stir =>
      if c.fl.Sleeping? then c.(fl := Woken) else c
  }

  function After(c: Call, moves: seq<Move>): Call {
    if moves == [] then c else Next(After(c, moves[..|moves| - 1]), moves[|moves| - 1])
  }

  /** The call, as the section that sets send_type leaves it. */
  function Begun(s: State, f: Task): Call {
    Call(Step(s, FlushAll(f)).s, f, Looking)
  }

  /** Somebody waits on a semaphore that can be flushed, and `f` can call semFlush. */
  ghost predicate CanFlush(s: State, f: Task) {
    Inv(s) && !s.cb.kind.Mutex? && s.lock.None? && At(s, f).Idle? && s.cb.waiters != []
  }

  /** The flush is over, and the flusher sleeps on `smdel_cplt`. */
  predicate Stranded(c: Call) {
    c.fl.Sleeping? && c.s.cb.sendType.Send?
  }

  // ---------------------------------------------------------------- what every call keeps

  ghost predicate CallInv(c: Call) {
    Inv(c.s) && (c.fl.Looking? ==> c.s.cb.sendType.Flush?) && (c.s.cb.sendType.Flush? ==> !c.fl.Done?)
  }

  lemma NextKeepsCall(c: Call, m: Move)
    requires CallInv(c) && !c.fl.Done?
    ensures CallInv(Next(c, m))
  {
    hide Step, Inv;
    if m.Sem? && Possible(c, m.e) {
      StepKeepsInv(c.s, m.e);
      if Step(c.s, m.e).s.cb.sendType.Flush? { OnlyFlushAllFlushes(c.s, m.e); }
    } else if m.Look? {
      if c.s.cb.sendType.Flush? { FlushHasWaiters(c.s); }
    }
  }

  lemma FlushHasWaiters(s: State)
    requires Inv(s) && s.cb.sendType.Flush?
    ensures s.cb.waiters != []
  {}

  /** The flush ends with the list. */
  lemma EndsEmpty(s: State, e: Event)
    requires Inv(s) && Ends(s, Step(s, e).s)
    ensures Step(s, e).s.cb.waiters == []
  {
    if Step(s, e).s.cb.waiters != [] { FlushStays(s, e); }
  }

  /** As long as the flush is in force, the call is under way. */
  lemma {:induction false} InForceIsUnderWay(s: State, f: Task, moves: seq<Move>)
    requires CanFlush(s, f) && !After(Begun(s, f), moves).fl.Done?
    ensures CallInv(After(Begun(s, f), moves))
  {
    if moves == [] {
      StepKeepsInv(s, FlushAll(f));
    } else {
      var front := moves[..|moves| - 1];
      if After(Begun(s, f), front).fl.Done? { DoneForGood(After(Begun(s, f), front), moves[|moves| - 1]); }
      InForceIsUnderWay(s, f, front);
      NextKeepsCall(After(Begun(s, f), front), moves[|moves| - 1]);
    }
  }

  lemma DoneForGood(c: Call, m: Move)
    requires c.fl.Done?
    ensures Next(c, m).fl.Done?
  {}

  // ---------------------------------------------------------------- after the last waiter is out

  /** Nothing but a look, a new flush or a wake-up for no reason changes how the flusher is. */
  lemma {:induction false} NobodyTells(c: Call, moves: seq<Move>)
    requires Inv(c.s) && c.s.cb.sendType.Send? && !c.fl.Done?
    requires forall i :: 0 <= i < |moves| ==> moves[i].Sem?
    ensures var c' := After(c, moves); Inv(c'.s) && c'.s.cb.sendType.Send? && c'.fl == c.fl && c'.f == c.f
  {
    hide Step, Inv;
    if moves != [] {
      var c', m := After(c, moves[..|moves| - 1]), moves[|moves| - 1];
      NobodyTells(c, moves[..|moves| - 1]);
      if Possible(c', m.e) {
        StepKeepsInv(c'.s, m.e);
        if Step(c'.s, m.e).s.cb.sendType.Flush? { OnlyFlushAllFlushes(c'.s, m.e); }
      }
    }
  }

  lemma {:induction false} NobodyArrives(c: Call, moves: seq<Move>)
    requires Inv(c.s) && c.s.cb.sendType.Send? && !c.fl.Done? && c.s.cb.waiters == []
    requires forall i :: 0 <= i < |moves| ==> moves[i].Sem? && !moves[i].e.Take?
    ensures After(c, moves).s.cb.waiters == []
  {
    hide Step, Inv;
    if moves != [] {
      var front := moves[..|moves| - 1];
      NobodyArrives(c, front);
      NobodyTells(c, front);
      StaysEmpty(After(c, front).s, moves[|moves| - 1].e);
    }
  }

  lemma StaysEmpty(s: State, e: Event)
    requires Inv(s) && s.cb.waiters == [] && !e.Take?
    ensures Step(s, e).s.cb.waiters == []
  {
    hide Without;
    assert e.t !in s.cb.waiters;
  }

  /**
    When semFlush returns.  Event `e` lets the last waiter out, some time after the call.  Then the
    flusher is past its loop already, or it has been woken and looks at the list after whatever else
    happens `between`: it returns exactly if nobody is inside semTake at that moment, so in any case if
    nobody has called semTake since; otherwise it is stranded.
  */
  lemma ReturnsExactlyWhen(s: State, f: Task, before: seq<Move>, e: Event, between: seq<Move>)
    requires CanFlush(s, f)
    requires var c := After(Begun(s, f), before); !c.fl.Done? && Possible(c, e) && Ends(c.s, Step(c.s, e).s)
    requires forall i :: 0 <= i < |between| ==> between[i].Sem?
    ensures var c := Next(After(Begun(s, f), before), Sem(e));
            && (c.fl.Done? || c.fl.Woken?)
            && (c.fl.Woken? ==>
                  var c' := After(c, between);
                  && (Next(c', Look).fl.Done? <==> forall t :: At(c'.s, t).Idle?)
                  && (!Next(c', Look).fl.Done? ==> Stranded(Next(c', Look)))
                  && ((forall i :: 0 <= i < |between| ==> !between[i].e.Take?) ==> Next(c', Look).fl.Done?))
  {
    hide Step, After, Begun, Inv;
    var b := After(Begun(s, f), before);
    InForceIsUnderWay(s, f, before);
    var c := Next(b, Sem(e));
    StepKeepsInv(b.s, e);
    EndsEmpty(b.s, e);
    if c.fl.Woken? {
      NobodyTells(c, between);
      EmptyIsIdle(After(c, between).s);
      if forall i :: 0 <= i < |between| ==> !between[i].e.Take? {
        NobodyArrives(c, between);
      }
    }
  }

  lemma EmptyIsIdle(s: State)
    requires Inv(s)
    ensures s.cb.waiters == [] <==> forall t :: At(s, t).Idle?
  {
    if s.cb.waiters != [] { assert s.cb.waiters[0] in s.cb.waiters; }
  }

  /** A stranded flusher sleeps on, whatever is done to the semaphore and whoever leaves it. */
  lemma StrandedForGood(c: Call, moves: seq<Move>)
    requires Inv(c.s) && Stranded(c) && forall i :: 0 <= i < |moves| ==> moves[i].Sem?
    ensures Stranded(After(c, moves))
  {
    hide Inv, After;
    NobodyTells(c, moves);
  }

  // ---------------------------------------------------------------- a flusher that is stranded

  lemma {:induction false} AfterThen(c: Call, moves: seq<Move>, m: Move)
    ensures After(c, moves + [m]) == Next(After(c, moves), m)
  {
    assert (moves + [m])[..|moves|] == moves;
  }

  lemma OneAsleep(s: State)
    requires s == Start(SemCCreate(0))
    ensures Scene(Step(s, Take(1, Forever)).s, 0, Send, [1], Asleep(Forever), Idle)
  {
    hide Linked;
    assert Linked([], 1) == [] + [1];
  }

  lemma FlushFound(s: State)
    requires Scene(s, 0, Send, [1], Asleep(Forever), Idle)
    ensures Scene(Step(s, FlushAll(3)).s, 0, Flush, [1], Awake(Forever, false), Idle)
  {}

  lemma LastOneOut(s: State)
    requires Scene(s, 0, Flush, [1], Awake(Forever, false), Idle)
    ensures Scene(Step(s, Resume(1, false)).s, 0, Send, [], Idle, Idle)
  {}

  lemma NewcomerPends(s: State)
    requires Scene(s, 0, Send, [], Idle, Idle)
    ensures Scene(Step(s, Take(2, Forever)).s, 0, Send, [2], Idle, Asleep(Forever))
  {
    hide Linked;
    assert Linked([], 2) == [] + [2];
  }

  lemma NewcomerServed(s: State)
    requires Scene(s, 0, Send, [2], Idle, Asleep(Forever))
    ensures var s1 := Step(s, Give(1)).s;
            && Scene(s1, 1, Send, [2], Idle, Awake(Forever, false))
            && Scene(Step(s1, Resume(2, false)).s, 0, Send, [], Idle, Idle)
  {}

  /** The calls of such a run, one after the other. */
  lemma StrandsInSteps(s: State) returns (c1: Call, c2: Call, c3: Call, c4: Call, c5: Call, c6: Call)
    requires Scene(s, 0, Send, [1], Asleep(Forever), Idle)
    ensures c1 == Next(Begun(s, 3), Look)
    ensures c2 == Next(c1, Sem(Resume(1, false)))
    ensures c3 == Next(c2, Sem(Take(2, Forever)))
    ensures c4 == Next(c3, Look)
    ensures c5 == Next(c4, Sem(Give(1)))
    ensures c6 == Next(c5, Sem(Resume(2, false)))
    ensures Stranded(c4) && c4.s.cb.waiters == [2]
    ensures Stranded(c6) && c6.s.cb.waiters == []
  {
    hide Step;
    FlushFound(s);
    LastOneOut(Step(s, FlushAll(3)).s);
    c1 := Next(Begun(s, 3), Look);
    c2 := Next(c1, Sem(Resume(1, false)));
    NewcomerPends(c2.s);
    c3 := Next(c2, Sem(Take(2, Forever)));
    c4 := Next(c3, Look);
    NewcomerServed(c4.s);
    c5 := Next(c4, Sem(Give(1)));
    c6 := Next(c5, Sem(Resume(2, false)));
  }

  /**
    Task 3 flushes task 1 and sleeps; task 1 leaves and ends the flush; before task 3 has looked again
    task 2 begins to wait; task 3 sees it and sleeps again; task 2 gets a token and leaves.  Nobody is
    waiting any more, and task 3 sleeps on.
  */
  lemma FlusherCanStrand() returns (s: State, moves: seq<Move>)
    ensures s == Step(Start(SemCCreate(0)), Take(1, Forever)).s && s.cb.waiters == [1]
    ensures var c := After(Begun(s, 3), moves); Stranded(c) && c.s.cb.waiters == []
  {
    hide Step, Next;
    var s0 := Start(SemCCreate(0));
    s := Step(s0, Take(1, Forever)).s;
    OneAsleep(s0);
    var c := Begun(s, 3);
    var c1, c2, c3, c4, c5, c6 := StrandsInSteps(s);
    moves := [];
    AfterThen(c, [], Look);
    moves := moves + [Look];
    AfterThen(c, moves, Sem(Resume(1, false)));
    moves := moves + [Sem(Resume(1, false))];
    AfterThen(c, moves, Sem(Take(2, Forever)));
    moves := moves + [Sem(Take(2, Forever))];
    AfterThen(c, moves, Look);
    moves := moves + [Look];
    AfterThen(c, moves, Sem(Give(1)));
    moves := moves + [Sem(Give(1))];
    AfterThen(c, moves, Sem(Resume(2, false)));
    moves := moves + [Sem(Resume(2, false))];
  }
}
