/**
  Counting, binary and mutual-exclusion semaphores (lib/lsemLib.c) as a step machine.

  One step is one stretch of code run while holding `sem_lock`.  A step ends when the lock is
  released: by returning, by sleeping in pthread_cond_wait, or by the unlock around taskDelay(1) in
  the polling loop.  The clock and the scheduler are inputs: events say whose turn it is and whether
  a deadline has passed.  An event that is not possible in a state leaves the state as it is, so
  every sequence of events is a run.
*/
module Semaphore {
  import opened Sequences

  type Task = nat

  datatype Kind = Binary | Counting | Mutex

  datatype SendType = Send | Flush

  /** The max_wait argument of semTake: NO_WAIT, WAIT_FOREVER, or a number of ticks. */
  datatype Wait = NoWait | Forever | Timed

  /** The control block, `struct v2lsem`. */
  datatype Block = Block(
    kind: Kind,
    tokens: int,
    sendType: SendType,
    level: nat,
    owner: Option<Task>,
    waiters: seq<Task>)

  /**
    Where a task is.  `Asleep` is inside pthread_cond_wait or pthread_cond_timedwait and has not been
    woken; `Awake` has been woken and will call waiting_on_sem again; `Polling` is inside the
    taskDelay(1) of waiting_on_sem.  `expired` is `retcode == ETIMEDOUT`.
  */
  datatype Pc =
    | Idle
    | Asleep(w: Wait)
    | Awake(w: Wait, expired: bool)
    | Polling(w: Wait, expired: bool)

  /** What a step does that the outside world can see. */
  datatype Obs =
    | Pended(t: Task)
    | Granted(t: Task)             // took a token
    | Reentered(t: Task)           // owner took its mutex again
    | Flushed(t: Task)             // sent on its way by semFlush, without a token
    | GaveUp(t: Task, w: Wait)     // left with retcode == ETIMEDOUT
    | Released(t: Task)            // gave a token back
    | Unnested(t: Task)            // gave, still the owner
    | Refused(t: Task)             // S_semLib_INVALID_OPERATION

  /** The outcome of one critical section of one task; `held` says that it does not unlock `sem_lock`. */
  datatype Section = Section(cb: Block, pc: Pc, obs: seq<Obs>, broadcast: bool, held: bool := false)

  // ---------------------------------------------------------------- creation

  function Created(kind: Kind, count: int): Block {
    Block(kind, count, Send, 0, None, [])
  }

  function SemBCreate(initialState: int): Block {
    Created(Binary, if initialState == 0 then 0 else 1)
  }

  function SemCCreate(initialCount: int): Block {
    Created(Counting, initialCount)
  }

  function SemMCreate(): Block {
    Created(Mutex, 1)
  }

  // ---------------------------------------------------------------- critical sections

  /** The tail of wait_for_token, from the unlink on; `ok` is `retcode == OK`. */
  function Depart(cb: Block, t: Task, ok: bool): Block {
    var b := cb.(waiters := Without(cb.waiters, t));
    if b.sendType.Flush? then
      if b.waiters == [] then b.(sendType := Send) else b
    else if ok then
      b.(owner := Some(t), level := if b.kind.Mutex? then b.level + 1 else b.level)
    else b
  }

  /** waiting_on_sem returned nonzero: sleep, unless the deadline was already reported. */
  function SleepOrLeave(cb: Block, t: Task, w: Wait, expired: bool): Section {
    if !w.Forever? && expired
    then Section(Depart(cb, t, false), Idle, [GaveUp(t, w)], false)
    else Section(cb, Asleep(w), [], false)
  }

  /** The loop of waiting_on_sem, entered at its condition. */
  function Loop(cb: Block, t: Task, w: Wait, expired: bool): (r: Section)
    ensures r.pc == Asleep(Forever) ==> cb.tokens <= 0
  {
    if cb.tokens > 0 then
      if cb.waiters != [] && cb.waiters[0] == t
      then Section(Depart(cb.(tokens := cb.tokens - 1), t, true), Idle, [Granted(t)], false)
      else Section(cb, Polling(w, expired), [], false)
    else SleepOrLeave(cb, t, w, expired)
  }

  /** waiting_on_sem from the top: a flush ends the wait at once. */
  function Enter(cb: Block, t: Task, w: Wait, expired: bool): (r: Section)
    ensures r.pc == Asleep(Forever) ==> cb.tokens <= 0 && cb.sendType.Send?
  {
    if cb.sendType.Flush?
    then Section(Depart(cb, t, true), Idle, [Flushed(t)], false)
    else Loop(cb, t, w, expired)
  }

  /** Back from taskDelay(1): look at the clock, then at the loop condition; not at send_type. */
  function Repoll(cb: Block, t: Task, w: Wait, expired: bool, late: bool): (r: Section)
    ensures r.pc == Asleep(Forever) ==> cb.tokens <= 0
  {
    if !w.Forever? && late then SleepOrLeave(cb, t, w, expired) else Loop(cb, t, w, expired)
  }

  function SemTake(cb: Block, t: Task, w: Wait): Section {
    if cb.kind.Mutex? && cb.owner == Some(t)
    then Section(cb.(level := cb.level + 1), Idle, [Reentered(t)], false)
    else
      var r := Enter(cb.(waiters := Linked(cb.waiters, t)), t, w, false);
      r.(obs := [Pended(t)] + r.obs)
  }

  function SemGive(cb: Block, t: Task): Section {
    if cb.kind.Mutex? && cb.owner != Some(t) then Section(cb, Idle, [Refused(t)], false)
    else if cb.level > 1 then Section(cb.(level := cb.level - 1), Idle, [Unnested(t)], cb.waiters != [])
    else if cb.level == 1 then
      Section(cb.(level := 0, tokens := cb.tokens + 1, owner := None), Idle, [Released(t)], cb.waiters != [])
    else Section(cb.(tokens := cb.tokens + 1), Idle, [Released(t)], cb.waiters != [])
  }

  /** The first section of semFlush: a mutex is refused; without waiters it does not unlock. */
  function SemFlush(cb: Block, t: Task): Section {
    if cb.kind.Mutex? then Section(cb, Idle, [Refused(t)], false)
    else if cb.waiters == [] then Section(cb, Idle, [], false, true)
    else Section(cb.(sendType := Flush), Idle, [], true)
  }

  // ---------------------------------------------------------------- runs

  /** `lock` is the task that has left a critical section with `sem_lock` still locked. */
  datatype State = State(cb: Block, pc: map<Task, Pc>, lock: Option<Task>)

  datatype Event =
    | Take(t: Task, w: Wait)
    | Give(t: Task)
    | FlushAll(t: Task)
    | Wake(t: Task)                 // a wake-up nobody asked for
    | Expire(t: Task)               // pthread_cond_timedwait returns ETIMEDOUT
    | Resume(t: Task, late: bool)   // an awake or polling task gets sem_lock again

  datatype Out = Out(s: State, obs: seq<Obs>)

  function At(s: State, t: Task): Pc {
    if t in s.pc then s.pc[t] else Idle
  }

  function Woken(p: Pc): Pc {
    if p.Asleep? then Awake(p.w, false) else p
  }

  function Commit(s: State, t: Task, r: Section): Out {
    var pc := if r.broadcast then map u | u in s.pc :: Woken(s.pc[u]) else s.pc;
    Out(State(r.cb, pc[t := r.pc], if r.held then Some(t) else s.lock), r.obs)
  }

  function Move(s: State, t: Task, p: Pc): Out {
    Out(s.(pc := s.pc[t := p]), [])
  }

  /** Waking up needs no lock; everything else begins by locking `sem_lock`. */
  predicate Locks(e: Event) {
    e.Take? || e.Give? || e.FlushAll? || e.Resume?
  }

  function Step(s: State, e: Event): Out {
    var p := At(s, e.t);
    if Locks(e) && s.lock.Some? then Out(s, [])
    else match e
      case Take(t, w) =>
        if p.Idle? then Commit(s, t, SemTake(s.cb, t, w)) else Out(s, [])
      case Give(t) =>
        if p.Idle? then Commit(s, t, SemGive(s.cb, t)) else Out(s, [])
      case FlushAll(t) =>
        if p.Idle? then Commit(s, t, SemFlush(s.cb, t)) else Out(s, [])
      case Wake(t) =>
        if p.Asleep? then Move(s, t, Awake(p.w, false)) else Out(s, [])
      case Expire(t) =>
        if p.Asleep? && !p.w.Forever? then Move(s, t, Awake(p.w, true)) else Out(s, [])
      case Resume(t, late) =>
        if p.Awake? then Commit(s, t, Enter(s.cb, t, p.w, p.expired))
        else if p.Polling? then Commit(s, t, Repoll(s.cb, t, p.w, p.expired, late))
        else Out(s, [])
  }

  function Start(cb: Block): State {
    State(cb, map[], None)
  }

  function Run(s: State, evs: seq<Event>): Out {
    if evs == [] then Out(s, [])
    else
      var r := Run(s, evs[..|evs| - 1]);
      var o := Step(r.s, evs[|evs| - 1]);
      Out(o.s, r.obs + o.obs)
  }
}
