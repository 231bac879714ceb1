/**
  Watchdog timers (lib/lwdLib.c): a list of tick counters that the exception task walks once per tick.

  A callback can start, cancel and delete timers, its own included.  What the k-th callback of a run
  does is an arbitrary script `h(k, w)`, where `w` is the timer that fired.
*/
module Watchdogs {
  import opened Sequences
  import Priorities

  type Id = nat

  /** `func` is None for a null timeout_func. */
  datatype Timer = Timer(ticks: nat, func: Option<int>, parm: int)

  datatype Timers = Timers(list: seq<Id>, timer: map<Id, Timer>)

  ghost predicate Ok(s: Timers) {
    Distinct(s.list) && forall w :: w in s.list ==> w in s.timer
  }

  // ---------------------------------------------------------------- operations

  datatype Action =
    | Create(w: Id)
    | Start(w: Id, delay: int, func: Option<int>, parm: int)
    | Cancel(w: Id)
    | Delete(w: Id)

  /** wdStart halves the delay and makes it at least one tick. */
  function Started(delay: int, func: Option<int>, parm: int): Timer {
    var ticks := Priorities.CDiv(delay, 2);
    Timer(if ticks < 1 then 1 else ticks, func, parm)
  }

  /** An operation on a timer that is not on the list fails and changes nothing. */
  function Do(s: Timers, a: Action): (r: Timers)
    requires Ok(s)
    ensures Ok(r)
  {
    match a
    case Create(w) =>
      if w in s.list then s else Timers(s.list + [w], s.timer[w := Timer(0, None, 0)])
    case Start(w, delay, func, parm) =>
      if w in s.list then s.(timer := s.timer[w := Started(delay, func, parm)]) else s
    case Cancel(w) =>
      if w in s.list then s.(timer := s.timer[w := s.timer[w].(ticks := 0)]) else s
    case Delete(w) =>
      WithoutMembers(s.list, w);
      s.(list := Without(s.list, w))
  }

  function DoAll(s: Timers, script: seq<Action>): (r: Timers)
    requires Ok(s)
    ensures Ok(r)
  {
    if script == [] then s
    else Do(DoAll(s, script[..|script| - 1]), script[|script| - 1])
  }

  // ---------------------------------------------------------------- one pass

  type Handler = (nat, Id) -> seq<Action>

  ghost predicate CreatesNone(h: Handler) {
    forall k, w, i :: 0 <= i < |h(k, w)| ==> !h(k, w)[i].Create?
  }

  /** A callback made: which function, with which argument, for which timer. */
  datatype Firing = Firing(w: Id, func: int, parm: int)

  datatype Visit = Visit(s: Timers, fired: seq<Firing>)

  /** process_tick_for a timer that is on the list. */
  function Tick(s: Timers, w: Id, k: nat, h: Handler): (r: Visit)
    requires Ok(s) && w in s.list
    ensures Ok(r.s)
  {
    var t := s.timer[w];
    if t.ticks == 0 then Visit(s, [])
    else
      var s1 := s.(timer := s.timer[w := t.(ticks := t.ticks - 1)]);
      if t.ticks == 1 && t.func.Some?
      then Visit(DoAll(s1, h(k, w)), [Firing(w, t.func.value, t.parm)])
      else Visit(s1, [])
  }

  function First(list: seq<Id>): Option<Id> {
    if list == [] then None else Some(list[0])
  }

  /** `wdId->next`. */
  function Successor(list: seq<Id>, w: Id): Option<Id> {
    var p := Position(list, w);
    if p + 1 < |list| then Some(list[p + 1]) else None
  }

  /** What is still ahead of a walk that stands before `next`. */
  ghost function Ahead(list: seq<Id>, next: Option<Id>): set<Id> {
    if next.None? || next.value !in list then {}
    else set x | x in list && Position(list, next.value) <= Position(list, x)
  }

  /** `list'` is `list` with some timers taken out. */
  ghost predicate Thinned(list: seq<Id>, list': seq<Id>) {
    && Distinct(list') && (forall x :: x in list' ==> x in list)
    && forall x, y :: x in list' && y in list' ==>
         (Position(list', x) <= Position(list', y) <==> Position(list, x) <= Position(list, y))
  }

  lemma WithoutThins(list: seq<Id>, w: Id)
    requires Distinct(list)
    ensures Thinned(list, Without(list, w))
  {
    hide Without, Position;
    var list' := Without(list, w);
    WithoutMembers(list, w);
    forall x, y | x in list' && y in list'
      ensures Position(list', x) <= Position(list', y) <==> Position(list, x) <= Position(list, y)
    {
      var i, j := Position(list', x), Position(list', y);
      if i < j { WithoutKeepsOrder(list, w, i, j); }
      if j < i { WithoutKeepsOrder(list, w, j, i); }
    }
  }

  lemma ThinnedNot(list: seq<Id>)
    requires Distinct(list)
    ensures Thinned(list, list)
  {}

  lemma ThinnedTwice(a: seq<Id>, b: seq<Id>, c: seq<Id>)
    requires Thinned(a, b) && Thinned(b, c)
    ensures Thinned(a, c)
  {}

  lemma {:induction false} DoAllThins(s: Timers, script: seq<Action>)
    requires Ok(s) && forall i :: 0 <= i < |script| ==> !script[i].Create?
    ensures Thinned(s.list, DoAll(s, script).list)
  {
    hide Thinned, Without, Position, Distinct;
    ThinnedNot(s.list);
    if script != [] {
      var front, w := script[..|script| - 1], script[|script| - 1].w;
      DoAllThins(s, front);
      WithoutThins(DoAll(s, front).list, w);
      ThinnedTwice(s.list, DoAll(s, front).list, Without(DoAll(s, front).list, w));
    }
  }

  lemma TickThins(s: Timers, w: Id, k: nat, h: Handler)
    requires Ok(s) && w in s.list && CreatesNone(h)
    ensures Thinned(s.list, Tick(s, w, k, h).s.list)
  {
    var t := s.timer[w];
    if t.ticks == 1 && t.func.Some? {
      DoAllThins(s.(timer := s.timer[w := t.(ticks := 0)]), h(k, w));
    }
  }

  /** After a visit to `w`, what is ahead is what was ahead, less `w` and less what was deleted. */
  lemma WalkAdvances(list: seq<Id>, list': seq<Id>, w: Id)
    requires Distinct(list) && w in list && Thinned(list, list')
    ensures Ahead(list', Successor(list, w)) < Ahead(list, Some(w)) && w !in Ahead(list', Successor(list, w))
    ensures var next := Successor(list, w);
            (next.None? || next.value in list') ==>
              forall x :: x in list' && x in Ahead(list, Some(w)) && x != w ==> x in Ahead(list', next)
  {
    var next, p := Successor(list, w), Position(list, w);
    if next.Some? {
      PositionOfEntry(list, p + 1);
    }
    assert w in Ahead(list, Some(w));
  }

  datatype Walk = Walk(s: Timers, visited: seq<Id>, fired: seq<Firing>)

  /** process_timer_list from `next` on; `k` callbacks have been made so far in the run. */
  function Pass(s: Timers, next: Option<Id>, k: nat, h: Handler): (r: Walk)
    requires Ok(s) && CreatesNone(h)
    ensures Ok(r.s)
    decreases Ahead(s.list, next)
  {
    if next.None? || next.value !in s.list then Walk(s, [], [])
    else
      var w := next.value;
      var v := Tick(s, w, k, h);
      TickThins(s, w, k, h);
      WalkAdvances(s.list, v.s.list, w);
      var r := Pass(v.s, Successor(s.list, w), k + |v.fired|, h);
      Walk(r.s, [w] + r.visited, v.fired + r.fired)
  }

  /** No callback of the pass deletes the timer that the walk has noted as the next one. */
  ghost predicate KeepsNext(s: Timers, next: Option<Id>, k: nat, h: Handler)
    requires Ok(s) && CreatesNone(h)
    decreases Ahead(s.list, next)
  {
    next.None? ||
    (next.value in s.list &&
     var w := next.value;
     var v := Tick(s, w, k, h);
     TickThins(s, w, k, h);
     WalkAdvances(s.list, v.s.list, w);
     KeepsNext(v.s, Successor(s.list, w), k + |v.fired|, h))
  }

  /**
    When a callback of the pass deletes the timer noted as the next one, nobody who is still on the list
    stood behind the timer being visited.
  */
  ghost predicate LosesNobody(s: Timers, next: Option<Id>, k: nat, h: Handler)
    requires Ok(s) && CreatesNone(h)
    decreases Ahead(s.list, next)
  {
    next.None? || next.value !in s.list ||
    (var w := next.value;
     var v, next' := Tick(s, w, k, h), Successor(s.list, w);
     TickThins(s, w, k, h);
     WalkAdvances(s.list, v.s.list, w);
     if next'.Some? && next'.value !in v.s.list
     then forall x :: x in v.s.list ==> Position(s.list, x) <= Position(s.list, w)
     else LosesNobody(v.s, next', k + |v.fired|, h))
  }
}
