/**
  Message queues (lib/lmsgQLib.c) as a step machine.

  A receiver decides and fetches inside one stretch of `queue_lock`.  A sender that finds the queue
  full links itself on the writer list, tests for space without holding `queue_lock` (event `Test`)
  and posts later under the lock (event `Post`), without testing again.  The messages in the ring
  are the sequence `q`; MessageRing shows that the byte extent holds exactly that sequence as long as
  it has no more than `n + 1` messages.  As for semaphores, an event that is not possible leaves the
  state as it is, so every sequence of events is a run.
*/
module MessageQueue {
  import opened Sequences
  import opened Selection

  type Task = nat
  type Byte = x: int | 0 <= x < 256
  type Message = seq<Byte>

  datatype Wait = NoWait | Forever | Timed

  /** The control block: `msgs_per_queue`, `msg_len`, `order`, the messages and the two wait lists. */
  datatype Block = Block(
    n: nat,
    msgLen: nat,
    byPriority: bool,
    q: seq<Message>,
    readers: seq<Task>,
    writers: seq<Task>)

  /**
    Where a task is.  `Asleep`, `Awake` and `Polling` are in msgQReceive: sleeping on `queue_send`,
    woken from it, or in the taskDelay(1) of waiting_on_q_msg; `expired` is `retcode == ETIMEDOUT`.
    `Blocked` is in waitToSend, `Selected` is past a successful waiting_on_q_space there.
  */
  datatype Pc =
    | Idle
    | Asleep(w: Wait)
    | Awake(w: Wait, expired: bool)
    | Polling(w: Wait, expired: bool)
    | Blocked(m: Message, urgent: bool, sw: Wait)
    | Selected(m: Message, urgent: bool)

  datatype Obs =
    | Pended(t: Task)                // a receiver joined first_susp
    | Fetched(t: Task, m: Message)   // a receiver left with a message
    | GaveUp(t: Task)                // a receiver left without one
    | Accepted(m: Message, urgent: bool)
    | Failed(t: Task)                // bad length, no space under NO_WAIT, or a sender's time-out

  datatype Section = Section(cb: Block, pc: Pc, obs: seq<Obs>, broadcast: bool)

  function MsgQCreate(n: nat, msgLen: nat, byPriority: bool): Block {
    Block(n, msgLen, byPriority, [], [], [])
  }

  // ---------------------------------------------------------------- sending

  /** send_msg_to or urgent_msg_to, with the broadcast that goes with it. */
  function PostTo(cb: Block, m: Message, urgent: bool): Section {
    Section(cb.(q := if urgent then [m] + cb.q else cb.q + [m]), Idle, [Accepted(m, urgent)], true)
  }

  /** waitToSend, up to the point where it lets go of `queue_lock`. */
  function WaitToSend(cb: Block, t: Task, m: Message, w: Wait, urgent: bool): Section {
    if w.NoWait? then Section(cb, Idle, [Failed(t)], false)
    else Section(cb.(writers := Linked(cb.writers, t)), Blocked(m, urgent, w), [], false)
  }

  function MsgQSend(cb: Block, t: Task, m: Message, w: Wait, urgent: bool): Section {
    if |m| > cb.msgLen then Section(cb, Idle, [Failed(t)], false)
    else if |cb.q| > cb.n then WaitToSend(cb, t, m, w, urgent)
    else if |cb.q| == cb.n then
      if cb.n == 0 && cb.readers != [] then PostTo(cb, m, false)
      else if urgent then PostTo(cb, m, true)
      else WaitToSend(cb, t, m, w, urgent)
    else PostTo(cb, m, urgent)
  }

  predicate SpaceFor(cb: Block) {
    |cb.q| <= cb.n - 1 || (cb.n == 0 && cb.readers != [])
  }

  /** A selected sender locks the queue again, leaves the writer list and posts. */
  function PostAfterWait(cb: Block, t: Task, m: Message, urgent: bool): Section {
    PostTo(cb.(writers := Without(cb.writers, t)), m, urgent)
  }

  function SendTimesOut(cb: Block, t: Task): Section {
    Section(cb.(writers := Without(cb.writers, t)), Idle, [Failed(t)], false)
  }

  // ---------------------------------------------------------------- receiving

  /** The end of msgQReceive for a task that got a message; there has to be one. */
  function Fetch(cb: Block, t: Task): Section
    requires cb.q != []
  {
    Section(cb.(readers := Without(cb.readers, t), q := cb.q[1..]), Idle, [Fetched(t, cb.q[0])], false)
  }

  /** waiting_on_q_msg returned nonzero: sleep, unless the deadline was already reported. */
  function SleepOrLeave(cb: Block, t: Task, w: Wait, expired: bool): Section {
    if !w.Forever? && expired
    then Section(cb.(readers := Without(cb.readers, t)), Idle, [GaveUp(t)], false)
    else Section(cb, Asleep(w), [], false)
  }

  /** The loop of waiting_on_q_msg, entered at its condition. */
  function Loop(cb: Block, prio: map<Task, int>, t: Task, w: Wait, expired: bool): Section {
    if |cb.q| > 0 then
      if SignalForMyTask(cb.readers, cb.byPriority, prio, t) then Fetch(cb, t)
      else Section(cb, Polling(w, expired), [], false)
    else SleepOrLeave(cb, t, w, expired)
  }

  /** Back from taskDelay(1): look at the clock, then at the loop condition. */
  function Repoll(cb: Block, prio: map<Task, int>, t: Task, w: Wait, expired: bool, late: bool): Section {
    if !w.Forever? && late then SleepOrLeave(cb, t, w, expired) else Loop(cb, prio, t, w, expired)
  }

  function MsgQReceive(cb: Block, prio: map<Task, int>, t: Task, buflen: nat, w: Wait): Section {
    if buflen < cb.msgLen then Section(cb, Idle, [Failed(t)], false)
    else
      var r := Loop(cb.(readers := Linked(cb.readers, t)), prio, t, w, false);
      r.(obs := [Pended(t)] + r.obs)
  }

  // ---------------------------------------------------------------- runs

  datatype State = State(cb: Block, pc: map<Task, Pc>, prio: map<Task, int>)

  datatype Event =
    | Send(t: Task, m: Message, w: Wait, urgent: bool)
    | Test(t: Task)                                      // waiting_on_q_space, lines 632 and 636
    | Post(t: Task)
    | SendExpire(t: Task)
    | Receive(t: Task, buflen: nat, w: Wait)
    | Wake(t: Task)                                      // a wake-up nobody asked for
    | Expire(t: Task)                                    // pthread_cond_timedwait returns ETIMEDOUT
    | Resume(t: Task, late: bool)                        // a receiver gets queue_lock again
    | SetPriority(t: Task, p: int)

  datatype Out = Out(s: State, obs: seq<Obs>)

  function At(s: State, t: Task): Pc {
    if t in s.pc then s.pc[t] else Idle
  }

  function Woken(p: Pc): Pc {
    if p.Asleep? then Awake(p.w, false) else p
  }

  function Commit(s: State, t: Task, r: Section): Out {
    var pc := if r.broadcast then map u | u in s.pc :: Woken(s.pc[u]) else s.pc;
    Out(State(r.cb, pc[t := r.pc], s.prio), r.obs)
  }

  function Move(s: State, t: Task, p: Pc): Out {
    Out(s.(pc := s.pc[t := p]), [])
  }

  function Step(s: State, e: Event): Out {
    var p := At(s, e.t);
    match e
    case Send(t, m, w, urgent) =>
      if p.Idle? then Commit(s, t, MsgQSend(s.cb, t, m, w, urgent)) else Out(s, [])
    case Test(t) =>
      if p.Blocked? && SpaceFor(s.cb) && SignalForMyTask(s.cb.writers, s.cb.byPriority, s.prio, t)
      then Move(s, t, Selected(p.m, p.urgent)) else Out(s, [])
    case Post(t) =>
      if p.Selected? then Commit(s, t, PostAfterWait(s.cb, t, p.m, p.urgent)) else Out(s, [])
    case SendExpire(t) =>
      if p.Blocked? && p.sw.Timed? then Commit(s, t, SendTimesOut(s.cb, t)) else Out(s, [])
    case Receive(t, buflen, w) =>
      if p.Idle? then Commit(s, t, MsgQReceive(s.cb, s.prio, t, buflen, w)) else Out(s, [])
    case Wake(t) =>
      if p.Asleep? then Move(s, t, Awake(p.w, false)) else Out(s, [])
    case Expire(t) =>
      if p.Asleep? && !p.w.Forever? then Move(s, t, Awake(p.w, true)) else Out(s, [])
    case Resume(t, late) =>
      if p.Awake? then Commit(s, t, Loop(s.cb, s.prio, t, p.w, p.expired))
      else if p.Polling? then Commit(s, t, Repoll(s.cb, s.prio, t, p.w, p.expired, late))
      else Out(s, [])
    case SetPriority(t, pr) =>
      Out(s.(prio := s.prio[t := pr]), [])
  }

  function Start(cb: Block): State {
    State(cb, map[], map[])
  }

  function Run(s: State, evs: seq<Event>): Out {
    if evs == [] then Out(s, [])
    else
      var r := Run(s, evs[..|evs| - 1]);
      var o := Step(r.s, evs[|evs| - 1]);
      Out(o.s, r.obs + o.obs)
  }
}
