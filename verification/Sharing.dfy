/**
  Any number of semaphores and message queues that the same tasks use.  A task is in one call at a time;
  an action of a task that is inside a call on another object is not possible and changes nothing.
*/
module Sharing {
  import S = Semaphore
  import Q = MessageQueue

  type Task = nat

  datatype Action =
    | OnSem(j: nat, se: S.Event)
    | OnQueue(j: nat, qe: Q.Event)
    | SetPriority(t: Task, p: int)

  /** Each object with the trace of what it has shown so far. */
  datatype World = World(sems: seq<S.Out>, queues: seq<Q.Out>)

  datatype Place = Sem(j: nat) | Queue(j: nat)

  predicate Exists(w: World, p: Place) {
    if p.Sem? then p.j < |w.sems| else p.j < |w.queues|
  }

  /** The task is inside a call on the object. */
  predicate Inside(w: World, p: Place, t: Task) {
    Exists(w, p) && if p.Sem? then !S.At(w.sems[p.j].s, t).Idle? else !Q.At(w.queues[p.j].s, t).Idle?
  }

  /** Nobody is inside two calls. */
  ghost predicate OneCall(w: World) {
    forall t, p, p' :: Inside(w, p, t) && Inside(w, p', t) ==> p == p'
  }

  ghost predicate FreeFor(w: World, t: Task, p: Place) {
    forall p' :: Inside(w, p', t) ==> p' == p
  }

  // ---------------------------------------------------------------- steps

  function SemGoesOn(o: S.Out, e: S.Event): S.Out {
    var o' := S.Step(o.s, e);
    S.Out(o'.s, o.obs + o'.obs)
  }

  function QueueGoesOn(o: Q.Out, e: Q.Event): Q.Out {
    var o' := Q.Step(o.s, e);
    Q.Out(o'.s, o.obs + o'.obs)
  }

  function Ranked(queues: seq<Q.Out>, t: Task, p: int): (r: seq<Q.Out>)
    ensures |r| == |queues|
  {
    seq(|queues|, j requires 0 <= j < |queues| => QueueGoesOn(queues[j], Q.SetPriority(t, p)))
  }

  /** The action gets through to the semaphore, or to the queue. */
  ghost predicate ReachesSem(w: World, a: Action, j: nat) {
    a.OnSem? && a.j == j < |w.sems| && FreeFor(w, a.se.t, Sem(j))
  }

  ghost predicate ReachesQueue(w: World, a: Action, j: nat) {
    a.OnQueue? && a.j == j < |w.queues| && !a.qe.SetPriority? && FreeFor(w, a.qe.t, Queue(j))
  }

  ghost function Step(w: World, a: Action): World {
    match a
    case OnSem(j, e) => if ReachesSem(w, a, j) then w.(sems := w.sems[j := SemGoesOn(w.sems[j], e)]) else w
    case OnQueue(j, e) => if ReachesQueue(w, a, j) then w.(queues := w.queues[j := QueueGoesOn(w.queues[j], e)]) else w
    case SetPriority(t, p) => w.(queues := Ranked(w.queues, t, p))
  }

  ghost function Run(w: World, acts: seq<Action>): (r: World)
    ensures |r.sems| == |w.sems| && |r.queues| == |w.queues|
  {
    if acts == [] then w else Step(Run(w, acts[..|acts| - 1]), acts[|acts| - 1])
  }

  // ---------------------------------------------------------------- every object for itself

  /** The events of a run that get through to semaphore `j`. */
  ghost function SemEvents(w: World, acts: seq<Action>, j: nat): seq<S.Event> {
    if acts == [] then []
    else
      var front, a := acts[..|acts| - 1], acts[|acts| - 1];
      SemEvents(w, front, j) + if ReachesSem(Run(w, front), a, j) then [a.se] else []
  }

  ghost function QueueEvents(w: World, acts: seq<Action>, j: nat): seq<Q.Event> {
    if acts == [] then []
    else
      var front, a := acts[..|acts| - 1], acts[|acts| - 1];
      QueueEvents(w, front, j)
      + if ReachesQueue(Run(w, front), a, j) then [a.qe]
        else if a.SetPriority? then [Q.SetPriority(a.t, a.p)]
        else []
  }

  lemma SemSnoc(s: S.State, evs: seq<S.Event>, e: S.Event)
    ensures S.Run(s, evs + [e]) == SemGoesOn(S.Run(s, evs), e)
  {
    assert (evs + [e])[..|evs|] == evs;
  }

  lemma QueueSnoc(s: Q.State, evs: seq<Q.Event>, e: Q.Event)
    ensures Q.Run(s, evs + [e]) == QueueGoesOn(Q.Run(s, evs), e)
  {
    assert (evs + [e])[..|evs|] == evs;
  }

  lemma SemStep(w: World, a: Action, j: nat)
    requires j < |w.sems|
    ensures |Step(w, a).sems| == |w.sems|
    ensures Step(w, a).sems[j] == if ReachesSem(w, a, j) then SemGoesOn(w.sems[j], a.se) else w.sems[j]
  {
    hide QueueGoesOn, SemGoesOn, FreeFor;
  }

  /** A semaphore in the world goes through a run of its own, which others have no part in. */
  lemma {:induction false} SemAlone(w: World, acts: seq<Action>, j: nat)
    requires j < |w.sems| && w.sems[j].obs == []
    ensures Run(w, acts).sems[j] == S.Run(w.sems[j].s, SemEvents(w, acts, j))
  {
    hide S.Step, Step, SemGoesOn, FreeFor;
    if acts != [] {
      var front, a := acts[..|acts| - 1], acts[|acts| - 1];
      SemStep(Run(w, front), a, j);
      SemAlone(w, front, j);
      var evs := SemEvents(w, front, j);
      if ReachesSem(Run(w, front), a, j) {
        SemSnoc(w.sems[j].s, evs, a.se);
      } else {
        assert evs + [] == evs;
      }
    }
  }

  lemma QueueStep(w: World, a: Action, j: nat)
    requires j < |w.queues|
    ensures |Step(w, a).queues| == |w.queues|
    ensures Step(w, a).queues[j] ==
            if ReachesQueue(w, a, j) then QueueGoesOn(w.queues[j], a.qe)
            else if a.SetPriority? then QueueGoesOn(w.queues[j], Q.SetPriority(a.t, a.p))
            else w.queues[j]
  {
    hide QueueGoesOn, SemGoesOn, FreeFor;
  }

  /** And so does a message queue, with the changes of priorities. */
  lemma {:induction false} QueueAlone(w: World, acts: seq<Action>, j: nat)
    requires j < |w.queues| && w.queues[j].obs == []
    ensures Run(w, acts).queues[j] == Q.Run(w.queues[j].s, QueueEvents(w, acts, j))
  {
    hide Q.Step, Step, QueueGoesOn, FreeFor;
    if acts != [] {
      var front, a := acts[..|acts| - 1], acts[|acts| - 1];
      QueueStep(Run(w, front), a, j);
      QueueAlone(w, front, j);
      var evs := QueueEvents(w, front, j);
      if ReachesQueue(Run(w, front), a, j) {
        QueueSnoc(w.queues[j].s, evs, a.qe);
      } else if a.SetPriority? {
        QueueSnoc(w.queues[j].s, evs, Q.SetPriority(a.t, a.p));
      } else {
        assert evs + [] == evs;
      }
    }
  }

  // ---------------------------------------------------------------- one call at a time

  lemma SemStepMovesOne(s: S.State, e: S.Event, u: Task)
    requires u != e.t
    ensures S.At(S.Step(s, e).s, u).Idle? <==> S.At(s, u).Idle?
  {
    hide S.SemTake, S.SemGive, S.SemFlush, S.Enter, S.Repoll;
  }

  lemma QueueStepMovesOne(s: Q.State, e: Q.Event, u: Task)
    requires u != e.t || e.SetPriority?
    ensures Q.At(Q.Step(s, e).s, u).Idle? <==> Q.At(s, u).Idle?
  {
    hide Q.MsgQSend, Q.MsgQReceive, Q.Loop, Q.Repoll, Q.PostAfterWait, Q.SendTimesOut, Q.SpaceFor;
  }

  /** A step moves nobody into a call on an object but the acting task, on the object it acts on. */
  lemma StepEnters(w: World, a: Action, p: Place, t: Task)
    requires Inside(Step(w, a), p, t)
    ensures Inside(w, p, t) || FreeFor(w, t, p)
    ensures || Inside(w, p, t)
            || (a.OnSem? && p == Sem(a.j) && t == a.se.t)
            || (a.OnQueue? && p == Queue(a.j) && t == a.qe.t)
  {
    hide S.Step, Q.Step, FreeFor;
    if a.OnSem? && p == Sem(a.j) && t != a.se.t && p.j < |w.sems| {
      SemStepMovesOne(w.sems[p.j].s, a.se, t);
    } else if a.OnQueue? && p == Queue(a.j) && t != a.qe.t && p.j < |w.queues| {
      QueueStepMovesOne(w.queues[p.j].s, a.qe, t);
    } else if a.SetPriority? && p.Queue? && p.j < |w.queues| {
      QueueStepMovesOne(w.queues[p.j].s, Q.SetPriority(a.t, a.p), t);
    }
  }

  lemma StepKeepsOneCall(w: World, a: Action)
    requires OneCall(w)
    ensures OneCall(Step(w, a))
  {
    hide Step, Inside;
    forall t, p, p' | Inside(Step(w, a), p, t) && Inside(Step(w, a), p', t)
      ensures p == p'
    {
      StepEnters(w, a, p, t);
      StepEnters(w, a, p', t);
    }
  }

  /** Everybody is out of all calls. */
  ghost predicate Quiet(w: World) {
    forall t, p :: !Inside(w, p, t)
  }

  /** In every run, nobody is ever inside two calls. */
  lemma {:induction false} RunKeepsOneCall(w: World, acts: seq<Action>)
    requires Quiet(w)
    ensures OneCall(Run(w, acts))
  {
    if acts != [] {
      RunKeepsOneCall(w, acts[..|acts| - 1]);
      StepKeepsOneCall(Run(w, acts[..|acts| - 1]), acts[|acts| - 1]);
    }
  }
}
