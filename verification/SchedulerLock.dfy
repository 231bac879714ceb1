/**
  taskLock, taskUnlock and taskPrioritySet (lib/ltaskLib.c) as a step machine.

  taskLock takes two critical sections: one that gets the lock, or sleeps, and one that raises the
  caller to the top priority.  taskPrioritySet is a taskLock, the body below, and a taskUnlock.
*/
module SchedulerLock {
  import opened Sequences
  import opened Traces
  import Priorities

  type Thread = nat

  /** The range of the scheduling policy, and the number of values of taskLock_level. */
  datatype Env = Env(min: int, max: int, cap: nat) {
    predicate Valid() { 1 <= min <= max - 2 && cap >= 2 }
  }

  /** `attr` is the priority a task runs at, `prv` the one it should have; both for registered tasks. */
  datatype Block = Block(locker: Option<Thread>, level: nat, attr: map<Thread, int>, prv: map<Thread, int>)

  /** `Out` of taskLock, asleep on taskLock_change, woken from it, or holding the lock but not yet raised. */
  datatype Pc = Out | Asleep | Awake | Raising

  // ---------------------------------------------------------------- critical sections

  predicate Free(cb: Block, t: Thread) {
    cb.locker.None? || cb.locker == Some(t)
  }

  /** taskLock_level++, which sticks at its largest value. */
  function Deeper(level: nat, cap: nat): nat {
    if level + 1 == cap then level else level + 1
  }

  function Acquire(env: Env, cb: Block, t: Thread): Block {
    cb.(locker := Some(t), level := Deeper(cb.level, env.cap))
  }

  function Raise(env: Env, cb: Block, t: Thread): Block {
    if t in cb.prv then cb.(attr := cb.attr[t := env.max]) else cb
  }

  /** taskUnlock; it has let go of the lock if no locker is left. */
  function Release(cb: Block, t: Thread): Block {
    if cb.locker != Some(t) then cb
    else
      var level := if cb.level > 0 then cb.level - 1 else 0;
      if level > 0 then cb.(level := level)
      else cb.(locker := None, level := 0, attr := if t in cb.prv then cb.attr[t := cb.prv[t]] else cb.attr)
  }

  /** The body of taskPrioritySet, run by the thread `t` that holds the lock. */
  function SetPriority(env: Env, cb: Block, t: Thread, target: Thread, pri: int): Block
    requires env.Valid()
  {
    if target !in cb.prv then cb
    else
      var newPriority := Priorities.Translate(pri, env.min, env.max);
      cb.(prv := cb.prv[target := newPriority],
          attr := if target != t then cb.attr[target := newPriority] else cb.attr)
  }

  // ---------------------------------------------------------------- runs

  datatype State = State(cb: Block, pc: map<Thread, Pc>)

  datatype Event =
    | Lock(t: Thread)
    | Wake(t: Thread)       // a wake-up nobody asked for
    | Retry(t: Thread)      // a woken thread looks at the lock again
    | Rise(t: Thread)       // the second section of taskLock
    | Unlock(t: Thread)
    | Set(t: Thread, target: Thread, pri: int)

  datatype Obs = Locked(t: Thread) | Unlocked(t: Thread)

  datatype Result = Result(s: State, obs: seq<Obs>)

  function At(s: State, t: Thread): Pc {
    if t in s.pc then s.pc[t] else Out
  }

  function WakeAll(pc: map<Thread, Pc>): map<Thread, Pc> {
    map u | u in pc :: if pc[u].Asleep? then Awake else pc[u]
  }

  function Try(env: Env, s: State, t: Thread): Result {
    if Free(s.cb, t)
    then Result(State(Acquire(env, s.cb, t), WakeAll(s.pc)[t := Raising]), [Locked(t)])
    else Result(s.(pc := s.pc[t := Asleep]), [])
  }

  function Step(env: Env, s: State, e: Event): Result
    requires env.Valid()
  {
    var p := At(s, e.t);
    match e
    case Lock(t) => if p.Out? then Try(env, s, t) else Result(s, [])
    case Wake(t) => if p.Asleep? then Result(s.(pc := s.pc[t := Awake]), []) else Result(s, [])
    case Retry(t) => if p.Awake? then Try(env, s, t) else Result(s, [])
    case Rise(t) => if p.Raising? then Result(State(Raise(env, s.cb, t), s.pc[t := Out]), []) else Result(s, [])
    case Unlock(t) =>
      if !p.Out? || s.cb.locker != Some(t) then Result(s, [])
      else
        var cb := Release(s.cb, t);
        Result(State(cb, if cb.locker.None? then WakeAll(s.pc) else s.pc), [Unlocked(t)])
    case Set(t, target, pri) =>
      if p.Out? && s.cb.locker == Some(t) then Result(s.(cb := SetPriority(env, s.cb, t, target, pri)), [])
      else Result(s, [])
  }

  function Run(env: Env, s: State, evs: seq<Event>): Result
    requires env.Valid()
  {
    if evs == [] then Result(s, [])
    else
      var r := Run(env, s, evs[..|evs| - 1]);
      var o := Step(env, r.s, evs[|evs| - 1]);
      Result(o.s, r.obs + o.obs)
  }

  /**
    Tasks as they are created: running at the priority they should have, nobody holding the lock.  The
    two system tasks are created at the two top levels, all others by translate_priority.
  */
  ghost predicate Initial(env: Env, s: State) {
    && s.pc == map[] && s.cb.locker.None? && s.cb.level == 0 && s.cb.attr == s.cb.prv
    && forall t :: t in s.cb.prv ==> s.cb.prv[t] <= env.max
  }

  // ---------------------------------------------------------------- what every run keeps

  ghost predicate LockInv(env: Env, s: State) {
    && (s.cb.locker.None? <==> s.cb.level == 0)
    && s.cb.level < env.cap
    && (forall t: Thread :: At(s, t).Asleep? ==> !Free(s.cb, t))
    && (forall t: Thread :: At(s, t).Raising? ==> s.cb.locker == Some(t))
  }

  /** `s0` is where the run started. */
  ghost predicate PriorityInv(env: Env, s0: State, s: State) {
    && s.cb.attr.Keys == s.cb.prv.Keys == s0.cb.prv.Keys
    && (forall t :: t in s.cb.prv ==> s.cb.prv[t] == s0.cb.prv[t] || env.min <= s.cb.prv[t] <= env.max - 2)
    && (forall t :: t in s.cb.prv && s.cb.locker != Some(t) ==> s.cb.attr[t] == s.cb.prv[t])
    && (forall t :: t in s.cb.prv && s.cb.locker == Some(t) && !At(s, t).Raising? ==> s.cb.attr[t] == env.max)
  }

  lemma StepKeepsLock(env: Env, s: State, e: Event)
    requires env.Valid() && LockInv(env, s)
    ensures LockInv(env, Step(env, s, e).s)
  {
    var s' := Step(env, s, e).s;
    forall t: Thread
      ensures At(s', t).Asleep? ==> !Free(s'.cb, t)
      ensures At(s', t).Raising? ==> s'.cb.locker == Some(t)
    {
      assert At(s, t).Asleep? ==> !Free(s.cb, t);
      assert At(s, t).Raising? ==> s.cb.locker == Some(t);
    }
  }

  lemma StepKeepsPriority(env: Env, s0: State, s: State, e: Event)
    requires env.Valid() && LockInv(env, s) && PriorityInv(env, s0, s)
    ensures PriorityInv(env, s0, Step(env, s, e).s)
  {
    match e
    case Lock(t) => if At(s, t).Out? { TryKeepsPriority(env, s0, s, t); }
    case Retry(t) => if At(s, t).Awake? { TryKeepsPriority(env, s0, s, t); }
    case Rise(t) =>
    case Wake(t) =>
    case Unlock(t) => UnlockKeepsPriority(env, s0, s, t);
    case Set(t, target, pri) => SetKeepsPriority(env, s0, s, t, target, pri);
  }

  lemma TryKeepsPriority(env: Env, s0: State, s: State, t: Thread)
    requires LockInv(env, s) && PriorityInv(env, s0, s) && !At(s, t).Raising?
    ensures PriorityInv(env, s0, Try(env, s, t).s)
  {
    var s' := Try(env, s, t).s;
    assert forall u: Thread :: u != t ==> At(s', u).Raising? == At(s, u).Raising?;
  }

  lemma UnlockKeepsPriority(env: Env, s0: State, s: State, t: Thread)
    requires env.Valid() && LockInv(env, s) && PriorityInv(env, s0, s)
    ensures PriorityInv(env, s0, Step(env, s, Unlock(t)).s)
  {
    var s' := Step(env, s, Unlock(t)).s;
    assert forall u: Thread :: At(s', u).Raising? == At(s, u).Raising?;
  }

  lemma SetKeepsPriority(env: Env, s0: State, s: State, t: Thread, target: Thread, pri: int)
    requires env.Valid() && LockInv(env, s) && PriorityInv(env, s0, s)
    ensures PriorityInv(env, s0, Step(env, s, Set(t, target, pri)).s)
  {
    hide Priorities.Translate;
    Priorities.InRange(pri, env.min, env.max);
  }

  lemma {:induction false} RunKeeps(env: Env, s: State, evs: seq<Event>)
    requires env.Valid() && Initial(env, s)
    ensures LockInv(env, Run(env, s, evs).s) && PriorityInv(env, s, Run(env, s, evs).s)
  {
    if evs != [] {
      var front := evs[..|evs| - 1];
      RunKeeps(env, s, front);
      StepKeepsLock(env, Run(env, s, front).s, evs[|evs| - 1]);
      StepKeepsPriority(env, s, Run(env, s, front).s, evs[|evs| - 1]);
    }
  }

  /**
    The lock: no locker and no nesting go together; a thread asleep in taskLock means that somebody else
    holds the lock, so when it is free every waiting thread is up, and the first to look takes it.
  */
  lemma LockIsHonest(env: Env, s: State, evs: seq<Event>, t: Thread)
    requires env.Valid() && Initial(env, s)
    ensures var s' := Run(env, s, evs).s;
            && (s'.cb.locker.None? <==> s'.cb.level == 0)
            && (At(s', t).Asleep? ==> s'.cb.locker.Some? && s'.cb.locker != Some(t))
            && (At(s', t).Awake? && s'.cb.locker.None? ==> Step(env, s', Retry(t)).obs == [Locked(t)])
  {
    RunKeeps(env, s, evs);
  }

  /**
    Priorities: every task but the holder of the lock runs at the priority it should have; once taskLock
    has returned, the holder runs at the top and outranks every task that was not itself created at the
    top, hence every task whose priority came from translate_priority.
  */
  lemma HolderOutranks(env: Env, s: State, evs: seq<Event>, t: Thread, h: Thread)
    requires env.Valid() && Initial(env, s) && t in s.cb.prv && h in s.cb.prv && t != h
    ensures var cb := Run(env, s, evs).s.cb;
            && t in cb.prv && t in cb.attr && h in cb.attr
            && (cb.locker != Some(t) ==> cb.attr[t] == cb.prv[t])
            && (cb.prv[t] == s.cb.prv[t] || cb.prv[t] <= env.max - 2)
            && (cb.locker == Some(h) && At(Run(env, s, evs).s, h).Out? ==>
                  (cb.attr[t] < cb.attr[h] <==> cb.prv[t] < env.max))
  {
    RunKeeps(env, s, evs);
  }

  // ---------------------------------------------------------------- nesting

  /** The abstract lock: how deep each thread is in it. */
  function Held(cb: Block, t: Thread): nat {
    if cb.locker == Some(t) then cb.level else 0
  }

  function Nesting(t: Thread): Obs -> int {
    o => if o == Locked(t) then 1 else if o == Unlocked(t) then -1 else 0
  }

  /** Locks minus unlocks. */
  function Depth(tr: seq<Obs>, t: Thread): int {
    Sum(tr, Nesting(t))
  }

  /** The thread looks at the lock, and may take it, while the counter is at its largest value. */
  predicate Saturates(env: Env, s: State, e: Event) {
    && ((e.Lock? && At(s, e.t).Out?) || (e.Retry? && At(s, e.t).Awake?))
    && Free(s.cb, e.t) && s.cb.level + 1 == env.cap
  }

  /** One step changes the depth of a thread by exactly what it shows, unless it saturates the counter. */
  lemma StepDepth(env: Env, s: State, e: Event, t: Thread)
    requires env.Valid() && LockInv(env, s)
    ensures var o := Step(env, s, e);
            && |o.obs| <= 1
            && (!Saturates(env, s, e) ==> Held(o.s.cb, t) == Held(s.cb, t) + Depth(o.obs, t))
            && (Saturates(env, s, e) && t == e.t ==> Held(o.s.cb, t) != Held(s.cb, t) + Depth(o.obs, t))
  {
    hide Sum;
    SumOne(Nesting(t));
  }

  /** (locker, taskLock_level) is the map from threads to locks minus unlocks. */
  ghost predicate Refines(env: Env, s: State, evs: seq<Event>)
    requires env.Valid()
  {
    forall t :: Depth(Run(env, s, evs).obs, t) == Held(Run(env, s, evs).s.cb, t)
  }

  ghost predicate RefinesAllAlong(env: Env, s: State, evs: seq<Event>)
    requires env.Valid()
  {
    forall k :: 0 <= k <= |evs| ==> Refines(env, s, evs[..k])
  }

  ghost predicate NeverSaturates(env: Env, s: State, evs: seq<Event>)
    requires env.Valid()
  {
    forall k :: 0 <= k < |evs| ==> !Saturates(env, Run(env, s, evs[..k]).s, evs[k])
  }

  lemma OneEventMore(env: Env, s: State, evs: seq<Event>)
    requires env.Valid() && evs != []
    ensures var front := evs[..|evs| - 1];
            && (RefinesAllAlong(env, s, evs) <==> RefinesAllAlong(env, s, front) && Refines(env, s, evs))
            && (NeverSaturates(env, s, evs) <==>
                  NeverSaturates(env, s, front) && !Saturates(env, Run(env, s, front).s, evs[|evs| - 1]))
            && (RefinesAllAlong(env, s, front) ==> Refines(env, s, front))
  {
    hide Run, Saturates, Refines;
    var front := evs[..|evs| - 1];
    forall k | 0 <= k < |evs|
      ensures evs[..k] == front[..k]
    {}
    assert evs[..|evs|] == evs;
    assert front[..|front|] == front;
  }

  lemma StepRefines(env: Env, s: State, evs: seq<Event>)
    requires env.Valid() && Initial(env, s) && evs != [] && Refines(env, s, evs[..|evs| - 1])
    ensures Refines(env, s, evs) <==> !Saturates(env, Run(env, s, evs[..|evs| - 1]).s, evs[|evs| - 1])
  {
    hide Step, Saturates, Sum, Nesting;
    var front, e := evs[..|evs| - 1], evs[|evs| - 1];
    var r := Run(env, s, front);
    RunKeeps(env, s, front);
    forall t
      ensures Depth(r.obs, t) == Held(r.s.cb, t)
      ensures !Saturates(env, r.s, e) ==> Depth(Run(env, s, evs).obs, t) == Held(Run(env, s, evs).s.cb, t)
      ensures Saturates(env, r.s, e) && t == e.t ==>
                Depth(Run(env, s, evs).obs, t) != Held(Run(env, s, evs).s.cb, t)
    {
      StepDepth(env, r.s, e, t);
      SumConcat(r.obs, Step(env, r.s, e).obs, Nesting(t));
    }
    assert Refines(env, s, evs) ==> Depth(Run(env, s, evs).obs, e.t) == Held(Run(env, s, evs).s.cb, e.t);
  }

  /**
    Refinement: all along a run, (locker, taskLock_level) is the map from threads to locks minus
    unlocks, exactly if the lock is never taken while the counter is at its largest value.
  */
  lemma {:induction false} RefinesExactlyWhen(env: Env, s: State, evs: seq<Event>)
    requires env.Valid() && Initial(env, s)
    ensures RefinesAllAlong(env, s, evs) <==> NeverSaturates(env, s, evs)
  {
    if evs != [] {
      RefinesExactlyWhen(env, s, evs[..|evs| - 1]);
      OneEventMore(env, s, evs);
      if RefinesAllAlong(env, s, evs[..|evs| - 1]) {
        StepRefines(env, s, evs);
      }
    }
  }

  lemma LockRefinesDepths(env: Env, s: State, evs: seq<Event>, t: Thread)
    requires env.Valid() && Initial(env, s) && NeverSaturates(env, s, evs)
    ensures Depth(Run(env, s, evs).obs, t) == Held(Run(env, s, evs).s.cb, t)
  {
    RefinesExactlyWhen(env, s, evs);
    assert evs[..|evs|] == evs;
    assert Refines(env, s, evs);
  }

  /** So in any run, however long, that does not saturate the counter no two threads are inside. */
  lemma AtMostOneInside(env: Env, s: State, evs: seq<Event>, t: Thread, u: Thread)
    requires env.Valid() && Initial(env, s) && NeverSaturates(env, s, evs) && t != u
    ensures Depth(Run(env, s, evs).obs, t) == 0 || Depth(Run(env, s, evs).obs, u) == 0
  {
    LockRefinesDepths(env, s, evs, t);
    LockRefinesDepths(env, s, evs, u);
  }

  // ---------------------------------------------------------------- saturation

  /** Thread 0 has locked `depth` times more than it has unlocked; thread 1 has not been inside. */
  predicate Nested(r: Result, locker: Option<Thread>, level: nat, depth: int) {
    && r.s.cb.locker == locker && r.s.cb.level == level && Depth(r.obs, 0) == depth && Depth(r.obs, 1) == 0
    && At(r.s, 0).Out? && At(r.s, 1).Out?
  }

  lemma {:induction false} LocksTooOften(env: Env, s: State, n: nat) returns (evs: seq<Event>)
    requires env.Valid() && Initial(env, s) && 1 <= n <= env.cap
    ensures Nested(Run(env, s, evs), Some(0), if n == env.cap then n - 1 else n, n)
  {
    hide Sum;
    if n == 1 {
      evs := [];
      assert Nested(Run(env, s, evs), None, 0, 0) by { SumOne(Nesting(0)); SumOne(Nesting(1)); }
    } else {
      evs := LocksTooOften(env, s, n - 1);
    }
    evs := LockOnce(env, s, evs, n - 1);
  }

  lemma Go(env: Env, s: State, evs: seq<Event>, e: Event)
    requires env.Valid()
    ensures var r, o := Run(env, s, evs), Step(env, Run(env, s, evs).s, e);
            Run(env, s, evs + [e]) == Result(o.s, r.obs + o.obs)
  {
    hide Step;
    assert (evs + [e])[..|evs|] == evs;
  }

  lemma LockOnce(env: Env, s: State, evs: seq<Event>, n: nat) returns (evs': seq<Event>)
    requires env.Valid() && n < env.cap
    requires Nested(Run(env, s, evs), if n == 0 then None else Some(0), n, n)
    ensures Nested(Run(env, s, evs'), Some(0), if n + 1 == env.cap then n else n + 1, n + 1)
  {
    hide Sum, Run;
    var r := Run(env, s, evs);
    Go(env, s, evs, Lock(0));
    SumNext(r.obs, Locked(0), Nesting(0));
    SumNext(r.obs, Locked(0), Nesting(1));
    evs' := evs + [Lock(0)];
    Go(env, s, evs', Rise(0));
    var r' := Run(env, s, evs');
    assert r'.obs + [] == r'.obs;
    evs' := evs' + [Rise(0)];
  }

  lemma {:induction false} UnlocksAll(env: Env, s: State, evs: seq<Event>, level: nat) returns (evs': seq<Event>)
    requires env.Valid() && level >= 1 && Nested(Run(env, s, evs), Some(0), level, level + 1)
    ensures Nested(Run(env, s, evs'), None, 0, 1)
    decreases level
  {
    hide Sum, Run;
    var r := Run(env, s, evs);
    Go(env, s, evs, Unlock(0));
    SumNext(r.obs, Unlocked(0), Nesting(0));
    SumNext(r.obs, Unlocked(0), Nesting(1));
    evs' := evs + [Unlock(0)];
    if level > 1 {
      evs' := UnlocksAll(env, s, evs', level - 1);
    }
  }

  /**
    What saturation costs, whatever the range of the counter: a thread that has locked once more than it
    has unlocked has lost the lock, and a second thread gets in beside it.
  */
  lemma TwoInside(env: Env, s: State) returns (evs: seq<Event>)
    requires env.Valid() && Initial(env, s)
    ensures Depth(Run(env, s, evs).obs, 0) == 1 && Depth(Run(env, s, evs).obs, 1) == 1
  {
    hide Sum, Run;
    evs := LocksTooOften(env, s, env.cap);
    evs := UnlocksAll(env, s, evs, env.cap - 1);
    var r := Run(env, s, evs);
    Go(env, s, evs, Lock(1));
    SumNext(r.obs, Locked(1), Nesting(0));
    SumNext(r.obs, Locked(1), Nesting(1));
    evs := evs + [Lock(1)];
  }

  // ---------------------------------------------------------------- what each call gets for an answer

  /** Nobody else is anywhere else; if `up`, the sleepers have been woken. */
  ghost predicate OthersStay(s: State, s': State, t: Thread, up: bool) {
    forall u: Thread :: u != t ==> At(s', u) == if up && At(s, u).Asleep? then Awake else At(s, u)
  }

  /**
    A look at the lock: the thread gets it exactly if nobody else is inside, goes one deeper unless the
    counter has no larger value, and wakes everybody; otherwise it sleeps, and nothing has changed.
  */
  lemma LockAnswer(env: Env, s: State, e: Event)
    requires env.Valid() && LockInv(env, s)
    requires (e.Lock? && At(s, e.t).Out?) || (e.Retry? && At(s, e.t).Awake?)
    ensures var t, o := e.t, Step(env, s, e);
            if forall u :: u != t ==> Held(s.cb, u) == 0 then
              && o.obs == [Locked(t)] && At(o.s, t).Raising? && OthersStay(s, o.s, t, true)
              && o.s.cb == s.cb.(locker := Some(t),
                                 level := if s.cb.level + 1 < env.cap then s.cb.level + 1 else env.cap - 1)
            else o.obs == [] && At(o.s, t).Asleep? && OthersStay(s, o.s, t, false) && o.s.cb == s.cb
  {
    if !Free(s.cb, e.t) { assert Held(s.cb, s.cb.locker.value) > 0; }
  }

  /** The second section of taskLock puts the thread at the top, if it is a task. */
  lemma RiseAnswer(env: Env, s: State, t: Thread)
    requires env.Valid() && At(s, t).Raising?
    ensures var o := Step(env, s, Rise(t));
            && o.obs == [] && At(o.s, t).Out? && OthersStay(s, o.s, t, false)
            && o.s.cb == if t in s.cb.prv then s.cb.(attr := s.cb.attr[t := env.max]) else s.cb
  {}

  /**
    taskUnlock: the holder is one less deep; coming out it leaves the lock free, runs at its own priority
    again, and wakes everybody.  Anybody else changes nothing.
  */
  lemma UnlockAnswer(env: Env, s: State, t: Thread)
    requires env.Valid() && LockInv(env, s) && At(s, t).Out?
    ensures var o := Step(env, s, Unlock(t));
            if Held(s.cb, t) == 0 then o == Result(s, [])
            else if Held(s.cb, t) > 1 then
              o.obs == [Unlocked(t)] && o.s.cb == s.cb.(level := s.cb.level - 1) && o.s.pc == s.pc
            else
              && o.obs == [Unlocked(t)] && At(o.s, t).Out? && OthersStay(s, o.s, t, true)
              && o.s.cb.locker.None? && o.s.cb.level == 0 && o.s.cb.prv == s.cb.prv
              && o.s.cb.attr == if t in s.cb.prv then s.cb.attr[t := s.cb.prv[t]] else s.cb.attr
  {}

  /** taskPrioritySet by the holder: the target's priority, at once unless it is the holder's own. */
  lemma SetAnswer(env: Env, s: State, t: Thread, target: Thread, pri: int)
    requires env.Valid() && At(s, t).Out? && s.cb.locker == Some(t) && target in s.cb.prv
    ensures var o, p := Step(env, s, Set(t, target, pri)), Priorities.Translate(pri, env.min, env.max);
            && o.obs == [] && o.s.pc == s.pc && o.s.cb.locker == s.cb.locker && o.s.cb.level == s.cb.level
            && o.s.cb.prv == s.cb.prv[target := p]
            && o.s.cb.attr == if target == t then s.cb.attr else s.cb.attr[target := p]
  {
    hide Priorities.Translate;
  }
}
