/** Who is visited in a pass, and when a timer fires. */
module WatchdogTiming {
  import opened Sequences
  import opened Watchdogs
  import opened Counting

  // ---------------------------------------------------------------- visits

  /**
    A pass visits nobody twice and nobody who was not ahead; and it visits everybody who was ahead and is
    still listed at the end exactly if no timer noted as next is deleted in front of anybody who stays.
  */
  lemma {:induction false} VisitsEachOnce(s: Timers, next: Option<Id>, k: nat, h: Handler)
    requires Ok(s) && CreatesNone(h)
    ensures var r := Pass(s, next, k, h);
            && Distinct(r.visited) && Thinned(s.list, r.s.list)
            && (forall x :: x in r.visited ==> x in Ahead(s.list, next))
            && (LosesNobody(s, next, k, h) <==>
                  forall x :: x in r.s.list && x in Ahead(s.list, next) ==> x in r.visited)
    decreases Ahead(s.list, next)
  {
    hide Tick, Position, Successor, Thinned;
    ThinnedNot(s.list);
    if next.Some? && next.value in s.list {
      var w := next.value;
      var v, next' := Tick(s, w, k, h), Successor(s.list, w);
      TickThins(s, w, k, h);
      WalkAdvances(s.list, v.s.list, w);
      var r := Pass(v.s, next', k + |v.fired|, h);
      VisitsEachOnce(v.s, next', k + |v.fired|, h);
      ThinnedTwice(s.list, v.s.list, r.s.list);
      Survivors(v.s.list, r.s.list);
      if next'.Some? && next'.value !in v.s.list {
        BehindIsAhead(s.list, v.s.list, w);
      }
    }
  }

  /** Who stands behind `w` is ahead of a walk that stands before `w`. */
  lemma BehindIsAhead(list: seq<Id>, list': seq<Id>, w: Id)
    requires Distinct(list) && w in list && Thinned(list, list')
    ensures (forall x :: x in list' ==> Position(list, x) <= Position(list, w)) <==>
            (forall x :: x in list' && x in Ahead(list, Some(w)) ==> x in [w])
  {
    hide Position;
    forall x | x in list' && Position(list, x) == Position(list, w)
      ensures x == w
    {
      assert list[Position(list, x)] == x;
    }
  }

  lemma Survivors(a: seq<Id>, b: seq<Id>)
    requires Thinned(a, b)
    ensures forall x :: x in b ==> x in a
  {}

  /** It is enough, but not necessary, that no timer noted as next is ever deleted. */
  lemma {:induction false} KeepingNextIsEnough(s: Timers, next: Option<Id>, k: nat, h: Handler)
    requires Ok(s) && CreatesNone(h) && KeepsNext(s, next, k, h)
    ensures LosesNobody(s, next, k, h)
    decreases Ahead(s.list, next)
  {
    hide Tick, Position, Successor, Thinned;
    if next.Some? {
      var w := next.value;
      var v := Tick(s, w, k, h);
      TickThins(s, w, k, h);
      WalkAdvances(s.list, v.s.list, w);
      KeepingNextIsEnough(v.s, Successor(s.list, w), k + |v.fired|, h);
    }
  }

  /** A whole pass, as the exception task makes it. */
  lemma WholePass(s: Timers, k: nat, h: Handler)
    requires Ok(s) && CreatesNone(h)
    ensures var r := Pass(s, First(s.list), k, h);
            && Distinct(r.visited)
            && ((forall x :: x in r.s.list ==> x in r.visited) <==> LosesNobody(s, First(s.list), k, h))
            && (KeepsNext(s, First(s.list), k, h) ==> forall x :: x in r.s.list ==> x in r.visited)
  {
    VisitsEachOnce(s, First(s.list), k, h);
    FirstIsBeforeAll(s.list);
    Survivors(s.list, Pass(s, First(s.list), k, h).s.list);
    if KeepsNext(s, First(s.list), k, h) {
      KeepingNextIsEnough(s, First(s.list), k, h);
    }
  }

  /** If a callback deletes the timer noted as next, the pass stops there and the rest wait a tick. */
  lemma LosingNextEndsPass(s: Timers, w: Id, k: nat, h: Handler)
    requires Ok(s) && CreatesNone(h) && w in s.list
    requires Successor(s.list, w).Some? && Successor(s.list, w).value !in Tick(s, w, k, h).s.list
    ensures Pass(s, Some(w), k, h).visited == [w] && Pass(s, Some(w), k, h).s == Tick(s, w, k, h).s
  {}

  const DUE := Timer(1, Some(7), 0)
  const THREE_DUE := Timers([0, 1, 2], map[0 := DUE, 1 := DUE, 2 := DUE])

  /** The callback of timer 0 deletes timer 1. */
  function DeletesNext(k: nat, w: Id): seq<Action> {
    if w == 0 then [Delete(1)] else []
  }

  lemma FirstOfThree()
    ensures Ok(THREE_DUE) && Successor(THREE_DUE.list, 0) == Some(1) && Without(THREE_DUE.list, 1) == [0, 2]
  {
    assert Position([0, 1, 2], 0) == 0 && Position([0, 1, 2], 1) == 1;
  }

  lemma TickOfFirst()
    ensures Ok(THREE_DUE)
    ensures var v := Tick(THREE_DUE, 0, 0, DeletesNext); v.s.list == [0, 2] && 2 in v.s.timer && v.s.timer[2] == DUE
  {
    hide Position, Without, Successor, Distinct;
    FirstOfThree();
    var s1 := THREE_DUE.(timer := THREE_DUE.timer[0 := DUE.(ticks := 0)]);
    assert [Delete(1)][..0] == [];
    assert DoAll(s1, [Delete(1)]) == Do(s1, Delete(1));
  }

  /** Three timers that are due; the callback of the first deletes the second, and the third is passed over. */
  lemma SkipsSurvivor()
    ensures Ok(THREE_DUE) && CreatesNone(DeletesNext)
    ensures var r := Pass(THREE_DUE, First(THREE_DUE.list), 0, DeletesNext);
            r.visited == [0] && r.s.list == [0, 2] && 2 in r.s.timer && r.s.timer[2] == DUE
  {
    hide Position, Without, Successor, Distinct, Tick, Pass;
    FirstOfThree();
    TickOfFirst();
    LosingNextEndsPass(THREE_DUE, 0, 0, DeletesNext);
  }

  // ---------------------------------------------------------------- what a pass does to one timer

  /** The actions of a script that name `w`. */
  function On(script: seq<Action>, w: Id): seq<Action> {
    if script == [] then []
    else
      var a := script[|script| - 1];
      On(script[..|script| - 1], w) + if a.w == w then [a] else []
  }

  /** A script that does not name a listed timer leaves it alone; one that only restarts it, restarts it. */
  lemma {:induction false} ScriptOn(s: Timers, script: seq<Action>, w: Id)
    requires Ok(s) && w in s.list
    ensures On(script, w) == [] ==> w in DoAll(s, script).list && DoAll(s, script).timer[w] == s.timer[w]
    ensures |On(script, w)| == 1 && On(script, w)[0].Start? ==>
              var a := On(script, w)[0];
              w in DoAll(s, script).list && DoAll(s, script).timer[w] == Started(a.delay, a.func, a.parm)
  {
    if script != [] {
      var front, a := script[..|script| - 1], script[|script| - 1];
      ScriptOn(s, front, w);
      WithoutMembers(DoAll(s, front).list, a.w);
      if |On(script, w)| == 1 && a.w == w {
        assert On(front, w) == [];
      }
    }
  }

  /**
    How callbacks treat `w`: nobody else's callback touches it, and its own either leaves it alone
    (`again` is None) or restarts it once, with these arguments.
  */
  ghost predicate Treats(h: Handler, w: Id, again: Option<Action>) {
    && (again.Some? ==> again.value.Start? && again.value.w == w)
    && forall k, u :: On(h(k, u), w) == if u == w && again.Some? then [again.value] else []
  }

  predicate Fires(t: Timer) {
    t.ticks == 1 && t.func.Some?
  }

  /** A timer after one visit. */
  function Aged(t: Timer, again: Option<Action>): Timer
    requires again.Some? ==> again.value.Start?
  {
    if t.ticks == 0 then t
    else if Fires(t) && again.Some? then Started(again.value.delay, again.value.func, again.value.parm)
    else t.(ticks := t.ticks - 1)
  }

  function FiringsOf(fired: seq<Firing>, w: Id): seq<Firing> {
    if fired == [] then []
    else (if fired[0].w == w then [fired[0]] else []) + FiringsOf(fired[1..], w)
  }

  lemma {:induction false} FiringsConcat(a: seq<Firing>, b: seq<Firing>, w: Id)
    ensures FiringsOf(a + b, w) == FiringsOf(a, w) + FiringsOf(b, w)
  {
    if a == [] {
      assert a + b == b;
    } else {
      FiringsConcat(a[1..], b, w);
      assert (a + b)[0] == a[0] && (a + b)[1..] == a[1..] + b;
      var one := if a[0].w == w then [a[0]] else [];
      assert one + (FiringsOf(a[1..], w) + FiringsOf(b, w)) == one + FiringsOf(a[1..], w) + FiringsOf(b, w);
    }
  }

  lemma NoFirings(w: Id)
    ensures FiringsOf([], w) == []
  {}

  /** One visit, seen from `w`. */
  lemma TickOn(s: Timers, u: Id, k: nat, h: Handler, w: Id, again: Option<Action>)
    requires Ok(s) && u in s.list && w in s.list && Treats(h, w, again)
    ensures var v := Tick(s, u, k, h);
            && w in v.s.list
            && v.s.timer[w] == (if u == w then Aged(s.timer[w], again) else s.timer[w])
            && FiringsOf(v.fired, w) == (if u == w && Fires(s.timer[w])
                                         then [Firing(w, s.timer[w].func.value, s.timer[w].parm)] else [])
  {
    var t := s.timer[u];
    if t.ticks > 0 {
      var s1 := s.(timer := s.timer[u := t.(ticks := t.ticks - 1)]);
      ScriptOn(s1, h(k, u), w);
    }
    if Tick(s, u, k, h).fired != [] {
      assert Tick(s, u, k, h).fired[1..] == [];
    }
  }

  /** A pass ages a timer that is ahead by exactly one visit, and leaves one that is behind alone. */
  lemma {:induction false} PassOn(s: Timers, next: Option<Id>, k: nat, h: Handler, w: Id, again: Option<Action>)
    requires Ok(s) && CreatesNone(h) && w in s.list && Treats(h, w, again) && LosesNobody(s, next, k, h)
    ensures var r := Pass(s, next, k, h);
            var now := w in Ahead(s.list, next);
            && w in r.s.list
            && r.s.timer[w] == (if now then Aged(s.timer[w], again) else s.timer[w])
            && FiringsOf(r.fired, w) == (if now && Fires(s.timer[w])
                                         then [Firing(w, s.timer[w].func.value, s.timer[w].parm)] else [])
    decreases Ahead(s.list, next)
  {
    hide Tick, Position, Successor, Thinned, Aged, Fires, Treats, FiringsOf, Distinct;
    NoFirings(w);
    if next.Some? && next.value in s.list {
      var u := next.value;
      var v, next' := Tick(s, u, k, h), Successor(s.list, u);
      TickThins(s, u, k, h);
      WalkAdvances(s.list, v.s.list, u);
      TickOn(s, u, k, h, w, again);
      PassOn(v.s, next', k + |v.fired|, h, w, again);
      FiringsConcat(v.fired, Pass(v.s, next', k + |v.fired|, h).fired, w);
      if next'.Some? && next'.value !in v.s.list {
        BehindIsAhead(s.list, v.s.list, u);
        assert w in Ahead(s.list, Some(u)) <==> w == u by { SelfAhead(s.list, u); }
      } else {
        BehindStaysBehind(s.list, v.s.list, u, w);
      }
    }
  }

  lemma SelfAhead(list: seq<Id>, u: Id)
    requires u in list
    ensures u in Ahead(list, Some(u))
  {}

  lemma BehindStaysBehind(list: seq<Id>, list': seq<Id>, u: Id, w: Id)
    requires Distinct(list) && u in list && w in list && w in list' && Thinned(list, list')
    requires var next := Successor(list, u); next.None? || next.value in list'
    ensures w in Ahead(list, Some(u)) <==> w == u || w in Ahead(list', Successor(list, u))
  {
    WalkAdvances(list, list', u);
  }

  // ---------------------------------------------------------------- many passes

  /** What other tasks do between passes. */
  type Between = nat -> seq<Action>

  datatype Stage = Stage(s: Timers, k: nat)

  /** The timers before pass number `n`, counting from zero, and the callbacks made until then. */
  function Before(s: Timers, h: Handler, between: Between, n: nat): (r: Stage)
    requires Ok(s) && CreatesNone(h)
    ensures Ok(r.s)
    decreases n, 0
  {
    if n == 0 then Stage(DoAll(s, between(0)), 0)
    else
      var p := PassNumber(s, h, between, n - 1);
      Stage(DoAll(p.s, between(n)), Before(s, h, between, n - 1).k + |p.fired|)
  }

  function PassNumber(s: Timers, h: Handler, between: Between, n: nat): (r: Walk)
    requires Ok(s) && CreatesNone(h)
    ensures Ok(r.s)
    decreases n, 1
  {
    var b := Before(s, h, between, n);
    Pass(b.s, First(b.s.list), b.k, h)
  }

  /** No pass leaves anybody out, and nobody in between touches `w`. */
  ghost predicate Undisturbed(s: Timers, h: Handler, between: Between, w: Id)
    requires Ok(s) && CreatesNone(h)
  {
    forall n: nat ::
      && On(between(n), w) == []
      && var b := Before(s, h, between, n);
         LosesNobody(b.s, First(b.s.list), b.k, h)
  }

  /** The timer as it stands before pass `n`. */
  function AgedTimes(t: Timer, again: Option<Action>, n: nat): Timer
    requires again.Some? ==> again.value.Start?
  {
    if n == 0 then t else Aged(AgedTimes(t, again, n - 1), again)
  }

  lemma {:induction false} PassesOn(s: Timers, h: Handler, between: Between, w: Id, again: Option<Action>, n: nat)
    requires Ok(s) && CreatesNone(h) && w in s.list && Treats(h, w, again) && Undisturbed(s, h, between, w)
    ensures var b := Before(s, h, between, n);
            && w in b.s.list && b.s.timer[w] == AgedTimes(s.timer[w], again, n)
            && FiringsOf(PassNumber(s, h, between, n).fired, w)
            == (if Fires(b.s.timer[w]) then [Firing(w, b.s.timer[w].func.value, b.s.timer[w].parm)] else [])
  {
    hide Pass, LosesNobody, DoAll, Aged, Fires, Treats, Ahead;
    assert On(between(n), w) == [];
    if n == 0 {
      ScriptOn(s, between(0), w);
    } else {
      PassesOn(s, h, between, w, again, n - 1);
      var c := Before(s, h, between, n - 1);
      FirstIsBeforeAll(c.s.list);
      PassOn(c.s, First(c.s.list), c.k, h, w, again);
      ScriptOn(PassNumber(s, h, between, n - 1).s, between(n), w);
    }
    var b := Before(s, h, between, n);
    FirstIsBeforeAll(b.s.list);
    PassOn(b.s, First(b.s.list), b.k, h, w, again);
  }

  lemma FirstIsBeforeAll(list: seq<Id>)
    ensures forall x :: x in list ==> x in Ahead(list, First(list))
  {}

  lemma {:induction false} OneShotAges(t: Timer, n: nat)
    ensures AgedTimes(t, None, n) == t.(ticks := if n < t.ticks then t.ticks - n else 0)
  {
    if n > 0 { OneShotAges(t, n - 1); }
  }

  /** wdStart, called with delay `d`, a function and an argument. */
  function WithStarted(s: Timers, w: Id, d: int, f: int, parm: int): (r: Timers)
    requires Ok(s)
    ensures Ok(r)
  {
    Do(s, Start(w, d, Some(f), parm))
  }

  /** It leaves half of the delay to go, but at least one tick, and touches no other timer. */
  lemma StartLeaves(s: Timers, w: Id, d: int, f: int, parm: int)
    requires Ok(s) && w in s.list
    ensures var r := WithStarted(s, w, d, f, parm);
            && r.list == s.list && r.timer[w] == Timer(if d >= 2 then d / 2 else 1, Some(f), parm)
            && forall u :: u in s.timer && u != w ==> u in r.timer && r.timer[u] == s.timer[u]
  {}

  /**
    A timer that wdStart is called for with delay `d`, and that is not restarted, cancelled or deleted after
    that, fires exactly once: in the max(1, d/2)-th pass, with the function and the argument it was given.
  */
  lemma FiresOnce(s0: Timers, h: Handler, between: Between, w: Id, d: int, f: int, parm: int, n: nat)
    requires Ok(s0) && CreatesNone(h) && w in s0.list
    requires var s := WithStarted(s0, w, d, f, parm); Treats(h, w, None) && Undisturbed(s, h, between, w)
    ensures var s := WithStarted(s0, w, d, f, parm);
            FiringsOf(PassNumber(s, h, between, n).fired, w) ==
            if n + 1 == (if d >= 2 then d / 2 else 1) then [Firing(w, f, parm)] else []
  {
    hide WithStarted, PassNumber, Before, Treats, Undisturbed, FiringsOf;
    var s := WithStarted(s0, w, d, f, parm);
    StartLeaves(s0, w, d, f, parm);
    PassesOn(s, h, between, w, None, n);
    OneShotAges(s.timer[w], n);
  }

  // ---------------------------------------------------------------- timers that do not fire

  /** A timer with no ticks to go, or without a function, does not fire until it is started again. */
  lemma SilentStaysSilent(s: Timers, h: Handler, between: Between, w: Id, n: nat)
    requires Ok(s) && CreatesNone(h) && w in s.list && (s.timer[w].ticks == 0 || s.timer[w].func.None?)
    requires Treats(h, w, None) && Undisturbed(s, h, between, w)
    ensures FiringsOf(PassNumber(s, h, between, n).fired, w) == []
  {
    hide PassNumber, Before, Treats, Undisturbed, FiringsOf;
    PassesOn(s, h, between, w, None, n);
    OneShotAges(s.timer[w], n);
  }

  /** A cancelled timer, and one just created, fires in no pass until it is started again. */
  lemma CancelledNeverFires(s: Timers, h: Handler, between: Between, w: Id, n: nat)
    requires Ok(s) && CreatesNone(h) && Treats(h, w, None)
    ensures w in s.list && Undisturbed(Do(s, Cancel(w)), h, between, w) ==>
              FiringsOf(PassNumber(Do(s, Cancel(w)), h, between, n).fired, w) == []
    ensures w !in s.list && Undisturbed(Do(s, Create(w)), h, between, w) ==>
              FiringsOf(PassNumber(Do(s, Create(w)), h, between, n).fired, w) == []
  {
    hide PassNumber, Treats, Undisturbed, FiringsOf, Before;
    var a := if w in s.list then Cancel(w) else Create(w);
    var s' := Do(s, a);
    assert w in s'.list && s'.timer[w].ticks == 0;
    if Undisturbed(s', h, between, w) {
      SilentStaysSilent(s', h, between, w, n);
    }
  }

  lemma {:induction false} ScriptLeavesOut(s: Timers, script: seq<Action>, w: Id)
    requires Ok(s) && w !in s.list && On(script, w) == []
    ensures w !in DoAll(s, script).list
  {
    if script != [] {
      var front := script[..|script| - 1];
      ScriptLeavesOut(s, front, w);
      WithoutMembers(DoAll(s, front).list, script[|script| - 1].w);
    }
  }

  lemma {:induction false} PassLeavesOut(s: Timers, next: Option<Id>, k: nat, h: Handler, w: Id)
    requires Ok(s) && CreatesNone(h) && w !in s.list
    ensures var r := Pass(s, next, k, h); w !in r.s.list && FiringsOf(r.fired, w) == []
    decreases Ahead(s.list, next)
  {
    hide Tick, Position, Successor, Thinned, FiringsOf, Distinct;
    NoFirings(w);
    if next.Some? && next.value in s.list {
      var u := next.value;
      var v, next' := Tick(s, u, k, h), Successor(s.list, u);
      TickThins(s, u, k, h);
      Survivors(s.list, v.s.list);
      WalkAdvances(s.list, v.s.list, u);
      FiresForItself(s, u, k, h, w);
      PassLeavesOut(v.s, next', k + |v.fired|, h, w);
      FiringsConcat(v.fired, Pass(v.s, next', k + |v.fired|, h).fired, w);
    }
  }

  lemma FiresForItself(s: Timers, u: Id, k: nat, h: Handler, w: Id)
    requires Ok(s) && u in s.list && u != w
    ensures FiringsOf(Tick(s, u, k, h).fired, w) == []
  {
    var fired := Tick(s, u, k, h).fired;
    assert fired == [] || fired[1..] == [];
  }

  lemma {:induction false} LeftOut(s: Timers, h: Handler, between: Between, w: Id, n: nat)
    requires Ok(s) && CreatesNone(h) && w !in s.list && forall i: nat :: On(between(i), w) == []
    ensures w !in Before(s, h, between, n).s.list
  {
    hide Pass, DoAll, On;
    if n == 0 {
      ScriptLeavesOut(s, between(0), w);
    } else {
      LeftOut(s, h, between, w, n - 1);
      var b := Before(s, h, between, n - 1);
      PassLeavesOut(b.s, First(b.s.list), b.k, h, w);
      ScriptLeavesOut(PassNumber(s, h, between, n - 1).s, between(n), w);
    }
  }

  /** A deleted timer never fires, whatever callbacks do, unless its memory is used for a new one. */
  lemma DeletedNeverFires(s: Timers, h: Handler, between: Between, w: Id, n: nat)
    requires Ok(s) && CreatesNone(h) && forall i: nat :: On(between(i), w) == []
    ensures FiringsOf(PassNumber(Do(s, Delete(w)), h, between, n).fired, w) == []
  {
    hide Pass, Before, FiringsOf, On;
    var s' := Do(s, Delete(w));
    WithoutMembers(s.list, w);
    LeftOut(s', h, between, w, n);
    var b := Before(s', h, between, n);
    PassLeavesOut(b.s, First(b.s.list), b.k, h, w);
  }

  lemma {:induction false} PeriodicAges(t: Timer, again: Option<Action>, n: nat)
    requires again.Some? && again.value.Start? && t.func.Some? && t.ticks >= 1
    requires Started(again.value.delay, again.value.func, again.value.parm) == t
    ensures AgedTimes(t, again, n) == t.(ticks := t.ticks - n % t.ticks)
  {
    if n > 0 {
      PeriodicAges(t, again, n - 1);
      CountsAround(n, t.ticks);
    }
  }

  /**
    A timer that wdStart is called for with delay `d`, and whose callback starts it again in the same way,
    fires in every max(1, d/2)-th pass for ever.
  */
  lemma FiresPeriodically(s0: Timers, h: Handler, between: Between, w: Id, d: int, f: int, parm: int, n: nat)
    requires Ok(s0) && CreatesNone(h) && w in s0.list
    requires var s := WithStarted(s0, w, d, f, parm);
             Treats(h, w, Some(Start(w, d, Some(f), parm))) && Undisturbed(s, h, between, w)
    ensures var s := WithStarted(s0, w, d, f, parm);
            FiringsOf(PassNumber(s, h, between, n).fired, w) ==
            if (n + 1) % (if d >= 2 then d / 2 else 1) == 0 then [Firing(w, f, parm)] else []
  {
    hide WithStarted, PassNumber, Before, AgedTimes, Treats, Undisturbed, FiringsOf;
    var s := WithStarted(s0, w, d, f, parm);
    StartLeaves(s0, w, d, f, parm);
    var again, t := Some(Start(w, d, Some(f), parm)), s.timer[w];
    PassesOn(s, h, between, w, again, n);
    PeriodicAges(t, again, n);
    CountsAround(n + 1, t.ticks);
  }
}
