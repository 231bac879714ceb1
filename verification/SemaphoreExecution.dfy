/** Runs of a semaphore, carried out on its control block and on the list through the tasks. */
module SemaphoreExecution {
  import opened Sequences
  import opened Semaphore
  import opened SemaphoreSafety
  import opened SemaphoreObject

  class Execution {
    const sem: Sem
    var pc: map<Task, Pc>
    var lock: Option<Task>

    ghost function Now(): State
      requires sem.susp in sem.tasks.lines
      reads this, sem, sem.tasks
    {
      State(sem.View(), pc, lock)
    }

    ghost predicate Valid()
      reads this, sem, sem.tasks, sem.tasks.heads, sem.tasks.all
    {
      sem.Valid() && Inv(Now())
    }

    constructor (sem: Sem, ghost kind: Kind, ghost count: int)
      requires sem.Valid() && sem.View() == Created(kind, count) && Fresh(Created(kind, count))
      ensures Valid() && this.sem == sem && Now() == Start(Created(kind, count))
    {
      this.sem, pc, lock := sem, map[], None;
    }

    function PcOf(t: Task): Pc
      reads this
    {
      if t in pc then pc[t] else Idle
    }

    /** A task is where its section left it; a broadcast wakes every sleeper. */
    method Leave(t: Task, p: Pc, broadcast: bool)
      modifies this`pc
      ensures pc == (if broadcast then map u | u in old(pc) :: Woken(old(pc)[u]) else old(pc))[t := p]
    {
      if broadcast {
        pc := map u | u in pc :: Woken(pc[u]);
      }
      pc := pc[t := p];
    }

    /** The sections of a task that is not waiting. */
    method PerformCall(e: Event)
      requires Valid() && sem.MayUse(e.t) && lock.None? && PcOf(e.t).Idle? && (e.Take? || e.Give? || e.FlushAll?)
      modifies this, sem, sem.tasks`lines, sem.tasks.heads`first, sem.tasks.all`nxtSusp, sem.tasks.all`state
      ensures sem.Valid() && sem.OthersKept() && Now() == Step(old(Now()), e).s
      ensures old(sem.tasks.Honest()) ==> sem.tasks.Honest()
    {
      hide SemTake, SemGive;
      assert e.t in sem.View().waiters <==> !At(Now(), e.t).Idle?;
      match e
      case Take(t, w) =>
        TakeIsQuiet(sem.View(), t, w);
        var p := sem.Take(t, w);
        Leave(t, p, false);
      case Give(t) =>
        GiveIsQuiet(sem.View(), t);
        var broadcast := sem.Give(t);
        Leave(t, Idle, broadcast);
      case FlushAll(t) =>
        var broadcast, held := sem.FlushWaiters();
        Leave(t, Idle, broadcast);
        if held {
          lock := Some(t);
        }
    }

    /** A waiting task gets `sem_lock` again. */
    method PerformResume(e: Event)
      requires Valid() && sem.MayUse(e.t) && lock.None? && e.Resume? && (PcOf(e.t).Awake? || PcOf(e.t).Polling?)
      modifies this, sem, sem.tasks`lines, sem.tasks.heads`first, sem.tasks.all`nxtSusp, sem.tasks.all`state
      ensures sem.Valid() && sem.OthersKept() && Now() == Step(old(Now()), e).s
      ensures old(sem.tasks.Honest()) ==> sem.tasks.Honest()
    {
      hide Enter, Loop, SleepOrLeave;
      var p := PcOf(e.t);
      var p';
      TurnIsQuiet(sem.View(), e.t, p.w, p.expired);
      if p.Awake? {
        p' := sem.Turn(e.t, p.w, p.expired);
      } else if !p.w.Forever? && e.late {
        p' := sem.SleepOrGiveUp(e.t, p.w, p.expired);
      } else {
        p' := sem.Look(e.t, p.w, p.expired);
      }
      Leave(e.t, p', false);
    }

    /** One event: what it does to the object is the step of the machine. */
    method Perform(e: Event)
      requires Valid() && sem.MayUse(e.t)
      modifies this, sem, sem.tasks`lines, sem.tasks.heads`first, sem.tasks.all`nxtSusp, sem.tasks.all`state
      ensures Valid() && sem.OthersKept() && Now() == Step(old(Now()), e).s
      ensures old(sem.tasks.Honest()) ==> sem.tasks.Honest()
    {
      hide SemTake, SemGive, SemFlush, Enter, Repoll;
      StepKeepsInv(Now(), e);
      var p := PcOf(e.t);
      if Locks(e) {
        if lock.None? {
          if e.Resume? {
            if p.Awake? || p.Polling? { PerformResume(e); }
          } else if p.Idle? {
            PerformCall(e);
          }
        }
      } else if p.Asleep? {
        if e.Wake? {
          pc := pc[e.t := Awake(p.w, false)];
        } else if !p.w.Forever? {
          pc := pc[e.t := Awake(p.w, true)];
        }
      }
    }
  }

  lemma TakeIsQuiet(cb: Block, t: Task, w: Wait)
    ensures !SemTake(cb, t, w).broadcast && !SemTake(cb, t, w).held
  {
    hide Linked, Without;
  }

  lemma GiveIsQuiet(cb: Block, t: Task)
    ensures SemGive(cb, t).pc.Idle? && !SemGive(cb, t).held
  {}

  lemma TurnIsQuiet(cb: Block, t: Task, w: Wait, expired: bool)
    ensures !Enter(cb, t, w, expired).broadcast && !Enter(cb, t, w, expired).held
    ensures !Loop(cb, t, w, expired).broadcast && !Loop(cb, t, w, expired).held
    ensures !SleepOrLeave(cb, t, w, expired).broadcast && !SleepOrLeave(cb, t, w, expired).held
  {
    hide Without;
  }
}
