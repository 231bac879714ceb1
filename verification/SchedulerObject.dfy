/**
  The globals of lib/ltaskLib.c and the methods that change them.  What a method promises is said in terms
  of how deep each thread is inside the lock, and of the priorities that tasks run at and should have.
*/
module SchedulerObject {
  import opened Sequences
  import opened SchedulerLock
  import Priorities

  lemma FreeMeans(cb: Block, t: Thread)
    requires cb.locker.None? <==> cb.level == 0
    ensures Free(cb, t) ==> forall u :: u != t ==> Held(cb, u) == 0
    ensures !Free(cb, t) ==> Held(cb, cb.locker.value) > 0
  {}

  lemma AroundOnce(level: nat, cap: nat)
    requires level < cap
    ensures (level + 1) % cap == if level + 1 == cap then 0 else level + 1
  {}

  lemma AcquireDepths(env: Env, cb: Block, t: Thread)
    requires Free(cb, t) && cb.level < env.cap && (cb.locker.None? <==> cb.level == 0)
    ensures forall u :: u != t ==> Held(Acquire(env, cb, t), u) == Held(cb, u)
    ensures Held(Acquire(env, cb, t), t) == if Held(cb, t) + 1 < env.cap then Held(cb, t) + 1 else env.cap - 1
    ensures env.cap > 1 ==> Acquire(env, cb, t).level > 0
  {}

  class Scheduler {
    const env: Env
    var locker: Option<Thread>
    var taskLockLevel: nat
    var attr: map<Thread, int>
    var prv: map<Thread, int>

    ghost function View(): Block
      reads this
    {
      Block(locker, taskLockLevel, attr, prv)
    }

    /** Somebody is inside exactly while there is a locker; all other tasks run as they should. */
    ghost predicate Valid()
      reads this
    {
      && env.Valid() && taskLockLevel < env.cap && (locker.None? <==> taskLockLevel == 0)
      && attr.Keys == prv.Keys
      && forall t :: t in prv && DepthOf(t) == 0 ==> attr[t] == prv[t]
    }

    /** How deep a thread is inside the lock. */
    ghost function DepthOf(t: Thread): nat
      reads this
    {
      Held(View(), t)
    }

    constructor (env: Env, prv: map<Thread, int>)
      requires env.Valid()
      ensures Valid() && this.env == env && View() == Block(None, 0, prv, prv)
    {
      this.env, locker, taskLockLevel, attr, this.prv := env, None, 0, prv, prv;
    }

    /**
      One turn of the loop of taskLock: it succeeds exactly if nobody else is inside, and then the caller
      is one deeper, unless the counter has no larger value; everybody else stays where they were.
    */
    method TryLock(t: Thread) returns (got: bool)
      requires Valid()
      modifies this`locker, this`taskLockLevel
      ensures Valid() && (got <==> forall u :: u != t ==> old(DepthOf(u)) == 0)
      ensures forall u :: u != t || !got ==> DepthOf(u) == old(DepthOf(u))
      ensures got ==> DepthOf(t) == if old(DepthOf(t)) + 1 < env.cap then old(DepthOf(t)) + 1 else env.cap - 1
      ensures got == Free(old(View()), t) && View() == if got then Acquire(env, old(View()), t) else old(View())
    {
      hide Held;
      ghost var cb := View();
      FreeMeans(cb, t);
      got := locker.None? || locker == Some(t);
      if got {
        locker := Some(t);
        var level := (taskLockLevel + 1) % env.cap;
        taskLockLevel := if level == 0 then env.cap - 1 else level;
        AroundOnce(old(taskLockLevel), env.cap);
        AcquireDepths(env, cb, t);
      } else {
        assert old(DepthOf(locker.value)) > 0;
      }
    }

    /** The second part of taskLock: afterwards the caller outranks every task that should be below the top. */
    method RaiseToTop(t: Thread)
      requires Valid() && DepthOf(t) > 0
      modifies this`attr
      ensures Valid() && View() == Raise(env, old(View()), t)
      ensures t in prv ==> forall u :: u in prv && u != t ==> (attr[u] < attr[t] <==> prv[u] < env.max)
    {
      if t in prv {
        attr := attr[t := env.max];
      }
    }

    /**
      taskUnlock: the caller is one less deep, if it was inside at all; when it gets out it runs as it
      should again, and everybody waiting is woken.
    */
    method TaskUnlock(t: Thread) returns (broadcast: bool)
      requires Valid()
      modifies this`locker, this`taskLockLevel, this`attr
      ensures Valid() && View() == Release(old(View()), t)
      ensures DepthOf(t) == if old(DepthOf(t)) > 0 then old(DepthOf(t)) - 1 else 0
      ensures forall u :: u != t ==> DepthOf(u) == old(DepthOf(u))
      ensures broadcast <==> old(DepthOf(t)) == 1
      ensures forall u :: u in prv && (u != t || !broadcast) ==> attr[u] == old(attr[u])
    {
      broadcast := false;
      if locker == Some(t) {
        if taskLockLevel > 0 {
          taskLockLevel := taskLockLevel - 1;
        }
        if taskLockLevel < 1 {
          if t in prv {
            attr := attr[t := prv[t]];
          }
          locker := None;
          broadcast := true;
        }
      }
    }

    /**
      taskPrioritySet between its taskLock and its taskUnlock: the target should run at the new priority,
      which leaves the two top levels free, and unless it is the caller does so at once; nobody else is
      affected.  An illegal priority is reported, and set all the same.
    */
    method PrioritySet(t: Thread, target: Thread, pri: int) returns (ok: bool)
      requires Valid() && DepthOf(t) > 0
      modifies this`attr, this`prv
      ensures Valid() && View() == SetPriority(env, old(View()), t, target, pri)
      ensures ok <==> target in prv && 0 <= pri <= 255
      ensures target in prv ==> prv[target] == Priorities.Translate(pri, env.min, env.max) <= env.max - 2
      ensures target in prv && target != t ==> attr[target] == prv[target]
      ensures forall u :: u in prv && u != target ==> prv[u] == old(prv[u]) && attr[u] == old(attr[u])
    {
      if target !in prv {
        return false;
      }
      Priorities.InRange(pri, env.min, env.max);
      var newPriority := Priorities.Translate(pri, env.min, env.max);
      prv := prv[target := newPriority];
      if target != t {
        attr := attr[target := newPriority];
      }
      ok := 0 <= pri <= 255;
    }
  }

  // ---------------------------------------------------------------- whole runs

  class Execution {
    const sched: Scheduler
    var pc: map<Thread, Pc>

    ghost function Now(): State
      reads this, sched
    {
      State(sched.View(), pc)
    }

    ghost predicate Valid()
      reads this, sched
    {
      sched.Valid() && LockInv(sched.env, Now())
    }

    constructor (env: Env, prv: map<Thread, int>)
      requires env.Valid()
      ensures Valid() && fresh(sched) && sched.env == env && Now() == State(Block(None, 0, prv, prv), map[])
    {
      sched := new Scheduler(env, prv);
      pc := map[];
    }

    function PcOf(t: Thread): Pc
      reads this
    {
      if t in pc then pc[t] else Out
    }

    /** A turn of taskLock. */
    method PerformTry(t: Thread)
      requires Valid() && !PcOf(t).Raising?
      modifies this, sched
      ensures sched.Valid() && Now() == Try(sched.env, old(Now()), t).s
    {
      var got := sched.TryLock(t);
      if got {
        pc := WakeAll(pc)[t := Raising];
      } else {
        pc := pc[t := Asleep];
      }
    }

    method PerformUnlock(t: Thread)
      requires Valid() && PcOf(t).Out?
      modifies this, sched
      ensures sched.Valid() && Now() == Step(sched.env, old(Now()), Unlock(t)).s
    {
      var broadcast := sched.TaskUnlock(t);
      if broadcast {
        pc := WakeAll(pc);
      }
    }

    /** One event, on the globals. */
    method Perform(e: Event)
      requires Valid()
      modifies this, sched
      ensures Valid() && Now() == Step(sched.env, old(Now()), e).s
    {
      hide Release, Acquire, SetPriority;
      StepKeepsLock(sched.env, Now(), e);
      var p := PcOf(e.t);
      match e
      case Lock(t) => if p.Out? { PerformTry(t); }
      case Wake(t) => if p.Asleep? { pc := pc[t := Awake]; }
      case Retry(t) => if p.Awake? { PerformTry(t); }
      case Rise(t) =>
        if p.Raising? {
          assert At(Now(), t).Raising?;
          sched.RaiseToTop(t);
          pc := pc[t := Out];
        }
      case Unlock(t) => if p.Out? { PerformUnlock(t); }
      case Set(t, target, pri) =>
        if p.Out? && sched.locker == Some(t) { var _ := sched.PrioritySet(t, target, pri); }
    }
  }

  /**
    Any run of taskLock, taskUnlock and taskPrioritySet, carried out on the globals.  Unless the counter
    saturates, each thread is as deep inside as it has locked more often than unlocked, so at most one is
    inside; a thread that has come out of taskLock and is inside outranks every task below the top.
  */
  method Execute(env: Env, prv: map<Thread, int>, evs: seq<Event>) returns (x: Execution)
    requires env.Valid() && forall t :: t in prv ==> prv[t] <= env.max
    ensures var s0 := State(Block(None, 0, prv, prv), map[]);
            var r := Run(env, s0, evs);
            && x.Valid() && x.Now() == r.s && x.sched.attr.Keys == x.sched.prv.Keys == prv.Keys
            && (NeverSaturates(env, s0, evs) ==> forall t :: x.sched.DepthOf(t) == Depth(r.obs, t))
            && (forall h, t :: h in prv && t in prv && h != t && x.sched.locker == Some(h) && x.PcOf(h).Out? ==>
                  (x.sched.attr[t] < x.sched.attr[h] <==> x.sched.prv[t] < env.max))
  {
    hide Step, Depth, Saturates;
    ghost var s0 := State(Block(None, 0, prv, prv), map[]);
    x := new Execution(env, prv);
    for i := 0 to |evs|
      invariant x.Valid() && fresh(x) && fresh(x.sched) && x.sched.env == env && x.Now() == Run(env, s0, evs[..i]).s
    {
      assert evs[..i + 1][..i] == evs[..i];
      x.Perform(evs[i]);
    }
    assert evs[..|evs|] == evs;
    RunKeeps(env, s0, evs);
    if NeverSaturates(env, s0, evs) {
      forall t
        ensures x.sched.DepthOf(t) == Depth(Run(env, s0, evs).obs, t)
      {
        LockRefinesDepths(env, s0, evs, t);
      }
    }
    forall h, t | h in prv && t in prv && h != t && x.sched.locker == Some(h) && x.PcOf(h).Out?
      ensures x.sched.attr[t] < x.sched.attr[h] <==> x.sched.prv[t] < env.max
    {
      HolderOutranks(env, s0, evs, t, h);
    }
  }
}
