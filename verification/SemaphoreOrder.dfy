/** Tokens are conserved and are handed out in the order in which tasks pended. */
module SemaphoreOrder {
  import opened Sequences
  import opened Traces
  import opened Semaphore
  import opened SemaphoreSafety
  import Line

  // ---------------------------------------------------------------- order of service

  function MarkOf(o: Obs): Line.Mark {
    match o
    case Pended(t) => Line.Join(t)
    case Granted(t) => Line.Serve(t)
    case Flushed(t) => Line.Quit(t)
    case GaveUp(t, _) => Line.Quit(t)
    case _ => Line.Pass
  }

  function Marks(tr: seq<Obs>): seq<Line.Mark> {
    Line.MarksOf(tr, MarkOf)
  }

  /** The wait list follows what is shown as a line that serves its front only. */
  ghost predicate InLine(line: seq<Task>, obs: seq<Obs>, line': seq<Task>) {
    Line.InLine(line, obs, MarkOf, line', true)
  }

  lemma NoMark(line: seq<Task>)
    ensures InLine(line, [], line)
  {
    Line.NoMark(line, MarkOf, true);
  }

  lemma OneMark(line: seq<Task>, o: Obs)
    requires Line.Admits(line, MarkOf(o)) && Line.ServesFront(line, MarkOf(o))
    ensures InLine(line, [o], Line.Apply(line, MarkOf(o)))
  {
    Line.OneMark(line, o, MarkOf, true);
  }

  lemma TurnInLine(cb: Block, t: Task, w: Wait, expired: bool, late: bool)
    requires t in cb.waiters
    ensures InLine(cb.waiters, Enter(cb, t, w, expired).obs, Enter(cb, t, w, expired).cb.waiters)
    ensures InLine(cb.waiters, Repoll(cb, t, w, expired, late).obs, Repoll(cb, t, w, expired, late).cb.waiters)
  {
    hide InLine, Without, Position;
    NoMark(cb.waiters);
    OneMark(cb.waiters, Flushed(t));
    OneMark(cb.waiters, GaveUp(t, w));
    if cb.waiters[0] == t {
      OneMark(cb.waiters, Granted(t));
    }
  }

  lemma TakeInLine(cb: Block, t: Task, w: Wait)
    requires t !in cb.waiters
    ensures InLine(cb.waiters, SemTake(cb, t, w).obs, SemTake(cb, t, w).cb.waiters)
  {
    hide Enter, Line.InLine;
    var linked := cb.(waiters := cb.waiters + [t]);
    TurnInLine(linked, t, w, false, false);
    var r := Enter(linked, t, w, false);
    Line.FirstMark(cb.waiters, Pended(t), r.obs, MarkOf, r.cb.waiters, true);
    OneMark(cb.waiters, Reentered(t));
  }

  lemma StepInLine(s: State, e: Event)
    requires Inv(s)
    ensures InLine(s.cb.waiters, Step(s, e).obs, Step(s, e).s.cb.waiters)
  {
    hide InLine, SemTake, Enter, Repoll;
    NoMark(s.cb.waiters);
    var p := At(s, e.t);
    assert e.t in s.cb.waiters <==> !p.Idle?;
    match e
    case Take(t, w) =>
      if p.Idle? { TakeInLine(s.cb, t, w); }
    case Give(t) =>
      OneMark(s.cb.waiters, Refused(t));
      OneMark(s.cb.waiters, Released(t));
      OneMark(s.cb.waiters, Unnested(t));
    case FlushAll(t) =>
      OneMark(s.cb.waiters, Refused(t));
    case Resume(t, late) =>
      if p.Awake? || p.Polling? { TurnInLine(s.cb, t, p.w, p.expired, late); }
    case _ =>
  }

  /** The trace so far is that of a line that serves its front only, and `line` is what is left of it. */
  ghost predicate FairSoFar(tr: seq<Obs>, line: seq<Task>) {
    Line.LineSoFar(tr, MarkOf, line, true)
  }

  /** Every run is a run of a line that serves its front only, and the wait list is that line. */
  lemma {:induction false} RunIsFair(cb: Block, evs: seq<Event>)
    requires Fresh(cb)
    ensures FairSoFar(Run(Start(cb), evs).obs, Run(Start(cb), evs).s.cb.waiters)
  {
    if evs != [] {
      var front, e := evs[..|evs| - 1], evs[|evs| - 1];
      var r := Run(Start(cb), front);
      RunIsFair(cb, front);
      RunKeepsInv(cb, front);
      StepInLine(r.s, e);
      Line.LineGoesOn(r.obs, MarkOf, r.s.cb.waiters, Step(r.s, e).obs, Step(r.s, e).s.cb.waiters, true);
    }
  }

  /**
    No barging: of any two grants in a run, the earlier one went to the task that pended earlier,
    whatever mix of waits, gives, flushes and time-outs happened, and also when a newcomer found a
    token free.
  */
  lemma NoBarging(cb: Block, evs: seq<Event>, i: nat, j: nat)
    requires Fresh(cb)
    requires i < j < |Run(Start(cb), evs).obs|
    requires Run(Start(cb), evs).obs[i].Granted? && Run(Start(cb), evs).obs[j].Granted?
    ensures var tr := Run(Start(cb), evs).obs;
            0 <= Line.JoinedAt(Marks(tr[..i]), tr[i].t) < Line.JoinedAt(Marks(tr[..j]), tr[j].t)
  {
    hide Run, Line.Orderly, Line.Fair, Line.Replay, Line.JoinedAt;
    var tr := Run(Start(cb), evs).obs;
    RunIsFair(cb, evs);
    Line.MarkAt(tr, MarkOf, i);
    Line.MarkAt(tr, MarkOf, j);
    Line.ServedInOrder(Marks(tr), i, j);
  }

  // ---------------------------------------------------------------- conservation

  function TokenChange(o: Obs): int {
    if o.Released? then 1 else if o.Granted? then -1 else 0
  }

  /** Tokens given back minus tokens taken. */
  function NetTokens(tr: seq<Obs>): int {
    Sum(tr, TokenChange)
  }

  lemma TurnTokens(cb: Block, t: Task, w: Wait, expired: bool, late: bool)
    ensures Enter(cb, t, w, expired).cb.tokens == cb.tokens + NetTokens(Enter(cb, t, w, expired).obs)
    ensures Repoll(cb, t, w, expired, late).cb.tokens == cb.tokens + NetTokens(Repoll(cb, t, w, expired, late).obs)
    ensures cb.tokens >= 0 ==> Enter(cb, t, w, expired).cb.tokens >= 0
    ensures cb.tokens >= 0 ==> Repoll(cb, t, w, expired, late).cb.tokens >= 0
  {
    hide Without, Sum;
    SumOne(TokenChange);
  }

  lemma StepTokens(s: State, e: Event)
    ensures Step(s, e).s.cb.tokens == s.cb.tokens + NetTokens(Step(s, e).obs)
    ensures s.cb.tokens >= 0 ==> Step(s, e).s.cb.tokens >= 0
  {
    hide Sum, Enter, Repoll, Linked;
    SumOne(TokenChange);
    var p := At(s, e.t);
    match e
    case Take(t, w) =>
      var linked := s.cb.(waiters := Linked(s.cb.waiters, t));
      TurnTokens(linked, t, w, false, false);
      SumConcat([Pended(t)], Enter(linked, t, w, false).obs, TokenChange);
    case Resume(t, late) =>
      if p.Awake? || p.Polling? { TurnTokens(s.cb, t, p.w, p.expired, late); }
    case _ =>
  }

  /** The token count is the initial count plus gives minus grants, and never goes below zero. */
  lemma {:induction false} TokensConserved(cb: Block, evs: seq<Event>)
    ensures Run(Start(cb), evs).s.cb.tokens == cb.tokens + NetTokens(Run(Start(cb), evs).obs)
    ensures cb.tokens >= 0 ==> Run(Start(cb), evs).s.cb.tokens >= 0
  {
    if evs != [] {
      var r := Run(Start(cb), evs[..|evs| - 1]);
      TokensConserved(cb, evs[..|evs| - 1]);
      StepTokens(r.s, evs[|evs| - 1]);
      SumConcat(r.obs, Step(r.s, evs[|evs| - 1]).obs, TokenChange);
    }
  }

  // ---------------------------------------------------------------- binary semaphores

  /** The event is a give, and there is a token already. */
  predicate GivesOneTooMany(s: State, e: Event) {
    e.Give? && s.lock.None? && At(s, e.t).Idle? && s.cb.tokens >= 1
  }

  lemma StepStaysBinary(s: State, e: Event)
    requires s.cb.kind.Binary? && s.cb.level == 0 && s.cb.tokens <= 1
    ensures Step(s, e).s.cb.tokens <= 1 <==> !GivesOneTooMany(s, e)
  {
    StepTokens(s, e);
    NetTokensAtMostOne(s, e);
  }

  lemma NetTokensAtMostOne(s: State, e: Event)
    requires !s.cb.kind.Mutex? && s.cb.level == 0
    ensures NetTokens(Step(s, e).obs) <= if e.Give? && s.lock.None? && At(s, e.t).Idle? then 1 else 0
    ensures e.Give? && s.lock.None? && At(s, e.t).Idle? ==> NetTokens(Step(s, e).obs) == 1
  {
    hide Linked, Without, Sum;
    SumOne(TokenChange);
    StepTokens(s, e);
  }

  ghost predicate AtMostOneToken(s: State, evs: seq<Event>) {
    forall k :: 0 <= k <= |evs| ==> Run(s, evs[..k]).s.cb.tokens <= 1
  }

  ghost predicate NeverOneTooMany(s: State, evs: seq<Event>) {
    forall k :: 0 <= k < |evs| ==> !GivesOneTooMany(Run(s, evs[..k]).s, evs[k])
  }

  lemma OneEventMore(s: State, evs: seq<Event>)
    requires evs != []
    ensures var front := evs[..|evs| - 1];
            && (AtMostOneToken(s, evs) <==> AtMostOneToken(s, front) && Run(s, evs).s.cb.tokens <= 1)
            && (NeverOneTooMany(s, evs) <==>
                  NeverOneTooMany(s, front) && !GivesOneTooMany(Run(s, front).s, evs[|evs| - 1]))
  {
    hide Run, GivesOneTooMany;
    var front := evs[..|evs| - 1];
    forall k | 0 <= k < |evs|
      ensures evs[..k] == front[..k]
    {}
    assert evs[..|evs|] == evs;
    assert front[..|front|] == front;
  }

  /**
    semGive does not cap binary semaphores: one stays at one token or less, all along a run, exactly if
    no give is made while there is a token.
  */
  lemma {:induction false} BinaryExactlyWhen(initialState: int, evs: seq<Event>)
    ensures var s := Start(SemBCreate(initialState)); AtMostOneToken(s, evs) <==> NeverOneTooMany(s, evs)
  {
    hide Step, GivesOneTooMany;
    var cb := SemBCreate(initialState);
    if evs != [] {
      hide AtMostOneToken, NeverOneTooMany;
      var front := evs[..|evs| - 1];
      BinaryExactlyWhen(initialState, front);
      OneEventMore(Start(cb), evs);
      RunKeepsInv(cb, front);
      NoNesting(cb, front);
      if AtMostOneToken(Start(cb), front) {
        LastOfAll(Start(cb), front);
        StepStaysBinary(Run(Start(cb), front).s, evs[|evs| - 1]);
      }
    }
  }

  lemma LastOfAll(s: State, evs: seq<Event>)
    requires AtMostOneToken(s, evs)
    ensures Run(s, evs).s.cb.tokens <= 1
  {
    hide Run;
    assert evs[..|evs|] == evs;
  }

  /** And nothing else limits it: `n` gives leave it with `n` tokens. */
  lemma {:induction false} BinaryIsNotCapped(n: nat)
    ensures Run(Start(SemBCreate(0)), seq(n, i => Give(0))).s.cb.tokens == n
    ensures At(Run(Start(SemBCreate(0)), seq(n, i => Give(0))).s, 0).Idle?
    ensures Run(Start(SemBCreate(0)), seq(n, i => Give(0))).s.lock.None?
  {
    var evs := seq(n, i => Give(0));
    RunKeepsInv(SemBCreate(0), evs);
    if n > 0 {
      assert evs[..n - 1] == seq(n - 1, i => Give(0));
      BinaryIsNotCapped(n - 1);
      NoNesting(SemBCreate(0), evs[..n - 1]);
    }
  }

  lemma {:induction false} NoNesting(cb: Block, evs: seq<Event>)
    requires Fresh(cb) && !cb.kind.Mutex?
    ensures Run(Start(cb), evs).s.cb.level == 0
  {
    if evs != [] {
      var front := evs[..|evs| - 1];
      NoNesting(cb, front);
      RunKeepsInv(cb, front);
      StepNoNesting(Run(Start(cb), front).s, evs[|evs| - 1]);
    }
  }

  lemma StepNoNesting(s: State, e: Event)
    requires !s.cb.kind.Mutex? && s.cb.level == 0
    ensures Step(s, e).s.cb.level == 0
  {
    hide Linked, Without;
  }
}
