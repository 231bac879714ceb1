/**
  The semaphore as the object it is: a control block changed in place by one critical section at a time,
  with its waiters on a list that is threaded through the task control blocks.  Execution adds where the
  tasks are, and carries out one event after the other.
*/
module SemaphoreObject {
  import opened Sequences
  import opened Semaphore
  import opened TaskTable
  import WaitLists

  class Sem {
    const kind: Kind
    const tasks: Tasks
    const susp: WaitLists.Head      // first_susp
    var tokens: int
    var sendType: SendType
    var level: nat
    var owner: Option<Task>

    ghost predicate Valid()
      reads this, tasks, tasks.heads, tasks.all
    {
      tasks.Valid() && susp in tasks.heads
    }

    ghost function View(): Block
      requires susp in tasks.lines
      reads this, tasks
    {
      Block(kind, tokens, sendType, level, owner, tasks.lines[susp])
    }

    /** The task is one of the table and on no list but, at most, this one. */
    ghost predicate MayUse(t: Task)
      reads tasks
    {
      t < |tasks.task| && tasks.OnlyOn(susp, t)
    }

    /** No list but this one has changed. */
    twostate predicate OthersKept()
      reads this, tasks
    {
      && tasks.prio == old(tasks.prio) && tasks.lines.Keys == old(tasks.lines.Keys)
      && forall m :: m in tasks.lines && m != susp ==> tasks.lines[m] == old(tasks.lines[m])
    }

    constructor (tasks: Tasks, susp: WaitLists.Head, kind: Kind, count: int)
      requires tasks.Valid() && susp in tasks.heads && tasks.lines[susp] == []
      ensures Valid() && this.tasks == tasks && this.susp == susp && View() == Created(kind, count)
    {
      this.tasks, this.susp, this.kind := tasks, susp, kind;
      tokens, sendType, level, owner := count, Send, 0, None;
    }

    /** semGive. */
    method Give(t: Task) returns (broadcast: bool)
      requires Valid()
      modifies this
      ensures Valid() && View() == SemGive(old(View()), t).cb && broadcast == SemGive(old(View()), t).broadcast
    {
      broadcast := false;
      if kind.Mutex? && owner != Some(t) {
        return;
      }
      if level > 0 {
        level := level - 1;
        if level == 0 {
          tokens := tokens + 1;
          owner := None;
        }
      } else {
        tokens := tokens + 1;
      }
      var nobody := tasks.IsEmpty(susp);
      broadcast := !nobody;
    }

    /** semTake up to where it first lets go of `sem_lock`. */
    method Take(t: Task, w: Wait) returns (p: Pc)
      requires Valid() && MayUse(t)
      modifies this, tasks`lines, tasks.heads`first, tasks.all`nxtSusp, tasks.all`state
      ensures Valid() && OthersKept()
      ensures View() == SemTake(old(View()), t, w).cb && p == SemTake(old(View()), t, w).pc
      ensures old(tasks.Honest()) && t !in old(View()).waiters ==> tasks.Honest()
    {
      hide Linked, Enter;
      if kind.Mutex? && owner == Some(t) {
        level := level + 1;
        p := Idle;
      } else {
        tasks.LinkTask(susp, t);
        p := Turn(t, w, false);
      }
    }

    /** waiting_on_sem, and the end of wait_for_token if it is over. */
    method Turn(t: Task, w: Wait, expired: bool) returns (p: Pc)
      requires Valid() && MayUse(t)
      modifies this, tasks`lines, tasks.heads`first, tasks.all`nxtSusp, tasks.all`state
      ensures Valid() && OthersKept()
      ensures View() == Enter(old(View()), t, w, expired).cb && p == Enter(old(View()), t, w, expired).pc
      ensures old(tasks.Honest()) ==> tasks.Honest()
    {
      hide Depart;
      if sendType.Flush? {
        Finish(t, true);
        p := Idle;
      } else {
        p := Look(t, w, expired);
      }
    }

    /** One look around the loop of waiting_on_sem. */
    method Look(t: Task, w: Wait, expired: bool) returns (p: Pc)
      requires Valid() && MayUse(t)
      modifies this, tasks`lines, tasks.heads`first, tasks.all`nxtSusp, tasks.all`state
      ensures Valid() && OthersKept()
      ensures View() == Loop(old(View()), t, w, expired).cb && p == Loop(old(View()), t, w, expired).pc
      ensures old(tasks.Honest()) ==> tasks.Honest()
    {
      hide Depart;
      if tokens > 0 {
        var mine := tasks.SignalFor(susp, false, t);
        if mine {
          tokens := tokens - 1;
          Finish(t, true);
          p := Idle;
        } else {
          p := Polling(w, expired);
        }
      } else {
        p := SleepOrGiveUp(t, w, expired);
      }
    }

    /** waiting_on_sem found nothing: sleep, or leave if the deadline has been reported. */
    method SleepOrGiveUp(t: Task, w: Wait, expired: bool) returns (p: Pc)
      requires Valid() && MayUse(t)
      modifies this, tasks`lines, tasks.heads`first, tasks.all`nxtSusp, tasks.all`state
      ensures Valid() && OthersKept()
      ensures View() == SleepOrLeave(old(View()), t, w, expired).cb
      ensures p == SleepOrLeave(old(View()), t, w, expired).pc
      ensures old(tasks.Honest()) ==> tasks.Honest()
    {
      hide Depart;
      if !w.Forever? && expired {
        Finish(t, false);
        p := Idle;
      } else {
        p := Asleep(w);
      }
    }

    /** The end of wait_for_token. */
    method Finish(t: Task, ok: bool)
      requires Valid() && MayUse(t)
      modifies this, tasks`lines, tasks.heads`first, tasks.all`nxtSusp, tasks.all`state
      ensures Valid() && OthersKept() && View() == Depart(old(View()), t, ok)
      ensures old(tasks.Honest()) ==> tasks.Honest()
    {
      hide Without;
      tasks.UnlinkTask(susp, t);
      if sendType.Flush? {
        var nobody := tasks.IsEmpty(susp);
        if nobody {
          sendType := Send;
        }
      } else if ok {
        owner := Some(t);
        if kind.Mutex? {
          level := level + 1;
        }
      }
    }

    /** semFlush; `held` says that it returns without unlocking `sem_lock`. */
    method FlushWaiters() returns (broadcast: bool, held: bool)
      requires Valid()
      modifies this
      ensures Valid()
      ensures var r := SemFlush(old(View()), 0); View() == r.cb && broadcast == r.broadcast && held == r.held
    {
      if kind.Mutex? {
        return false, false;
      }
      var nobody := tasks.IsEmpty(susp);
      if nobody {
        return false, true;
      }
      sendType := Flush;
      return true, false;
    }
  }
}
