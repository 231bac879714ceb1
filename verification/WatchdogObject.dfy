/**
  The watchdog list as it is on the heap: control blocks linked through `next`, a pointer-to-pointer walk
  to link and to unlink them, a search before every use, and process_timer_list as the loop it is.
*/
module WatchdogObject {
  import opened Sequences
  import opened Watchdogs

  /** `struct v2pt_wdog`; `id` stands for its address. */
  class Wdog {
    const id: Id
    var next: Wdog?
    var ticks: nat                  // ticks_remaining
    var func: Option<int>           // timeout_func
    var parm: int                   // timeout_parm

    function View(): Timer
      reads this
    {
      Timer(ticks, func, parm)
    }

    constructor (id: Id)
      ensures this.id == id && next == null && View() == Timer(0, None, 0)
    {
      this.id, next, ticks, func, parm := id, null, 0, None, 0;
    }
  }

  function Ids(s: seq<Wdog>): (r: seq<Id>)
    ensures |r| == |s|
    ensures forall i :: 0 <= i < |s| ==> r[i] == s[i].id
  {
    seq(|s|, i requires 0 <= i < |s| => s[i].id)
  }

  function Behind(s: seq<Wdog>, i: nat): Wdog? {
    if i + 1 < |s| then s[i + 1] else null
  }

  /** Following `next` from `first` visits exactly `s`. */
  ghost predicate Chain(first: Wdog?, s: seq<Wdog>)
    reads (set x | x in s)`next
  {
    && first == (if s == [] then null else s[0])
    && forall i :: 0 <= i < |s| ==> s[i].next == Behind(s, i)
  }

  /** Every control block is found at its address. */
  ghost predicate Located(s: seq<Wdog>, at: map<Id, Wdog>) {
    && (forall w :: w in at ==> at[w].id == w)
    && (forall i :: 0 <= i < |s| ==> s[i].id in at && at[s[i].id] == s[i])
  }

  lemma SamePlace(s: seq<Wdog>, at: map<Id, Wdog>, x: Wdog)
    requires Located(s, at) && Distinct(Ids(s)) && x.id in at && at[x.id] == x
    ensures Distinct(s) && Position(Ids(s), x.id) == Position(s, x) && (x in s <==> x.id in Ids(s))
    ensures Ids(Without(s, x)) == Without(Ids(s), x.id)
  {
    hide Position;
    var p, p' := Position(s, x), Position(Ids(s), x.id);
    assert p < |s| ==> Ids(s)[p] == x.id;
    assert p' < |s| ==> s[p'] == x;
  }

  lemma StillLocated(s: seq<Wdog>, at: map<Id, Wdog>, x: Wdog)
    requires Located(s, at) && Distinct(Ids(s)) && x.id in at && at[x.id] == x
    ensures Located(Without(s, x), at) && Distinct(Ids(Without(s, x))) && Distinct(s)
    ensures forall y :: y in s ==> y in at.Values
    ensures x !in s ==> Without(s, x) == s
    ensures Ids(Without(s, x)) == Without(Ids(s), x.id) && (x in s <==> x.id in Ids(s))
  {
    hide Without, Position;
    SamePlace(s, at, x);
    WithoutMembers(s, x);
    WithoutMembers(Ids(s), x.id);
    forall i | 0 <= i < |Without(s, x)|
      ensures Without(s, x)[i] in s
    {
      WithoutAt(s, x, i);
    }
  }

  lemma BehindWithout(s: seq<Wdog>, x: Wdog, i: nat)
    requires x in s && i < |Without(s, x)|
    ensures var p := Position(s, x);
            && Without(s, x)[i] == s[if i < p then i else i + 1]
            && Behind(Without(s, x), i) == if i + 1 == p then Behind(s, p) else Behind(s, if i < p then i else i + 1)
  {
    hide Position, Without;
    WithoutAt(s, x, i);
    if i + 1 < |Without(s, x)| { WithoutAt(s, x, i + 1); }
  }

  lemma DistinctMeans(s: seq<Wdog>)
    requires Distinct(s)
    ensures forall i, j :: 0 <= i < |s| && 0 <= j < |s| && i != j ==> s[i] != s[j]
  {}

  /** A chain from which `x` has been cut out. */
  lemma ChainWithout(first: Wdog?, s: seq<Wdog>, x: Wdog)
    requires x in s
    requires var p := Position(s, x);
             && first == (if p == 0 then Behind(s, p) else s[0])
             && (p > 0 ==> s[p - 1].next == Behind(s, p))
             && forall i :: 0 <= i < |s| && i != p && i + 1 != p ==> s[i].next == Behind(s, i)
    ensures Chain(first, Without(s, x))
  {
    hide Position, Without;
    var r := Without(s, x);
    forall i | 0 <= i < |r|
      ensures r[i].next == Behind(r, i)
    {
      BehindWithout(s, x, i);
    }
    if r != [] { BehindWithout(s, x, 0); }
  }

  class WatchdogList {
    var first: Wdog?                // wdog_list
    var at: map<Id, Wdog>           // the control blocks there have been, by address
    ghost var nodes: seq<Wdog>

    ghost predicate Valid()
      reads this, (set x | x in nodes)`next
    {
      Chain(first, nodes) && Located(nodes, at) && Distinct(Ids(nodes))
    }

    ghost function View(): Timers
      reads this, at.Values
    {
      Timers(Ids(nodes), map w | w in at :: at[w].View())
    }

    lemma ViewIsOk()
      requires Valid()
      ensures Ok(View())
    {}

    constructor ()
      ensures Valid() && View() == Timers([], map[]) && at == map[]
    {
      first, at, nodes := null, map[], [];
    }

    /** wdog_valid: whether the control block is on the list. */
    method WdogValid(x: Wdog) returns (found: bool)
      requires Valid()
      ensures found <==> x in nodes
    {
      var cur := first;
      ghost var k := 0;
      while cur != null && cur != x
        invariant 0 <= k <= |nodes| && cur == if k < |nodes| then nodes[k] else null
        invariant forall i :: 0 <= i < k ==> nodes[i] != x
        decreases |nodes| - k
      {
        assert nodes[k].next == Behind(nodes, k);
        cur := cur.next;
        k := k + 1;
      }
      found := cur != null;
    }

    /** link_wdog. */
    method LinkWdog(x: Wdog)
      requires Valid() && x.id !in Ids(nodes) && x.id in at && at[x.id] == x
      modifies this`first, this`nodes, at.Values`next
      ensures Valid() && nodes == old(nodes) + [x]
    {
      hide Chain;
      SamePlace(nodes, at, x);
      assert forall y :: y in nodes ==> y in at.Values;
      Append(x);
      assert Ids(nodes + [x]) == Ids(nodes) + [x.id];
      nodes := nodes + [x];
    }

    /** The walk to the tail. */
    method Append(x: Wdog)
      requires Chain(first, nodes) && Distinct(nodes) && x !in nodes
      modifies this`first, (set y | y in nodes)`next, x`next
      ensures Chain(first, nodes + [x])
    {
      x.next := null;
      var prev: Wdog? := null;      // the pointer `i` is &first, or &prev.next
      var cur := first;             // *i
      ghost var k := 0;
      while cur != null
        invariant 0 <= k <= |nodes| && cur == if k < |nodes| then nodes[k] else null
        invariant prev == if k == 0 then null else nodes[k - 1]
        decreases |nodes| - k
      {
        assert nodes[k].next == Behind(nodes, k);
        prev := cur;
        cur := cur.next;
        k := k + 1;
      }
      if prev == null { first := x; } else { prev.next := x; }
      ghost var r := nodes + [x];
      assert forall i :: 0 <= i < |nodes| - 1 ==> r[i].next == nodes[i + 1];
    }

    /** unlink_wdog: walks to the entry and takes it out; an entry that is not there changes nothing. */
    method UnlinkWdog(x: Wdog)
      requires Valid() && x.id in at && at[x.id] == x
      modifies this`first, this`nodes, at.Values`next
      ensures Valid() && nodes == Without(old(nodes), x)
    {
      hide Without, Distinct, Position, Chain;
      StillLocated(nodes, at, x);
      var prev, found := Search(x);
      if found {
        TakeOut(prev, x);
      }
      nodes := Without(nodes, x);
    }

    /** The block whose `next` leads to `x`, null if `x` is first. */
    method Search(x: Wdog) returns (prev: Wdog?, found: bool)
      requires Chain(first, nodes)
      ensures found <==> x in nodes
      ensures found ==> prev == if Position(nodes, x) == 0 then null else nodes[Position(nodes, x) - 1]
    {
      hide Position;
      prev := null;
      var cur := first;
      ghost var k := 0;
      while cur != null && cur != x
        invariant 0 <= k <= Position(nodes, x) && cur == if k < |nodes| then nodes[k] else null
        invariant prev == if k == 0 then null else nodes[k - 1]
        decreases |nodes| - k
      {
        assert nodes[k].next == Behind(nodes, k);
        prev := cur;
        cur := cur.next;
        k := k + 1;
      }
      found := cur != null;
    }

    method TakeOut(prev: Wdog?, x: Wdog)
      requires Chain(first, nodes) && Distinct(nodes) && x in nodes
      requires prev == if Position(nodes, x) == 0 then null else nodes[Position(nodes, x) - 1]
      modifies this`first, (set y | y in nodes)`next
      ensures Chain(first, Without(nodes, x))
    {
      hide Position, Distinct, Without;
      ghost var s, p := nodes, Position(nodes, x);
      DistinctMeans(s);
      assert s[p].next == Behind(s, p);
      if prev == null { first := x.next; } else { prev.next := x.next; }
      ChainWithout(first, s, x);
    }

    /** wdCreate, for a control block at an address `w` that malloc has just returned. */
    method WdCreate(w: Id)
      requires Valid() && w !in Ids(nodes)
      modifies this, at.Values`next
      ensures Valid() && View() == Do(old(View()), Create(w)) && fresh(at.Values - old(at.Values))
    {
      hide Chain, Position;
      ViewIsOk();
      var x := new Wdog(w);
      at := at[w := x];
      LinkWdog(x);
      assert View().timer == old(View()).timer[w := Timer(0, None, 0)];
    }

    /** Storing into one control block changes that timer and no other. */
    method Store(x: Wdog, t: Timer)
      requires Valid() && x.id in at && at[x.id] == x
      modifies x`ticks, x`func, x`parm
      ensures Valid() && x.View() == t
      ensures View() == old(View()).(timer := old(View()).timer[x.id := t])
    {
      hide Chain, Distinct, Ids;
      x.ticks, x.func, x.parm := t.ticks, t.func, t.parm;
      assert View().timer == old(View()).timer[x.id := t];
    }

    method WdStart(x: Wdog, delay: int, func: Option<int>, parm: int) returns (ok: bool)
      requires Valid() && x.id in at && at[x.id] == x
      modifies x`ticks, x`func, x`parm
      ensures Valid() && Ok(old(View())) && (ok <==> x in nodes)
      ensures View() == Do(old(View()), Start(x.id, delay, func, parm))
      ensures if ok then x.View() == Timer(if delay >= 2 then delay / 2 else 1, func, parm) else View() == old(View())
    {
      hide Position, Chain, Distinct, Located, Ids;
      ViewIsOk();
      SamePlace(nodes, at, x);
      ok := WdogValid(x);
      if ok {
        Store(x, Started(delay, func, parm));
      }
    }

    method WdCancel(x: Wdog) returns (ok: bool)
      requires Valid() && x.id in at && at[x.id] == x
      modifies x`ticks, x`func, x`parm
      ensures Valid() && Ok(old(View())) && View() == Do(old(View()), Cancel(x.id)) && (ok <==> x in nodes)
      ensures if ok then x.View() == old(x.View()).(ticks := 0) else View() == old(View())
    {
      hide Position, Chain, Distinct, Located, Ids;
      ViewIsOk();
      SamePlace(nodes, at, x);
      ok := WdogValid(x);
      if ok {
        Store(x, x.View().(ticks := 0));
      }
    }

    method WdDelete(x: Wdog) returns (ok: bool)
      requires Valid() && x.id in at && at[x.id] == x
      modifies this`first, this`nodes, at.Values`next
      ensures Valid() && View() == Do(old(View()), Delete(x.id)) && (ok <==> x in old(nodes))
      ensures nodes == Without(old(nodes), x) && View().timer == old(View()).timer
    {
      hide Position, Without, Chain;
      ViewIsOk();
      StillLocated(nodes, at, x);
      ok := WdogValid(x);
      if ok {
        UnlinkWdog(x);
      }
      assert View().timer == old(View()).timer;
    }

    /** Whether there is a timer at this address. */
    method Listed(w: Id) returns (yes: bool)
      requires Valid()
      ensures yes <==> w in View().list
      ensures yes ==> w in at && at[w].id == w
    {
      hide Chain, Position, Distinct, Without;
      yes := false;
      if w in at {
        SamePlace(nodes, at, at[w]);
        yes := WdogValid(at[w]);
      } else {
        NotListed(w);
      }
    }

    /** One call made by a callback; malloc returns no address that is in use. */
    method Call(a: Action)
      requires Valid()
      modifies this, at.Values
      ensures Valid() && Ok(old(View())) && View() == Do(old(View()), a)
      ensures fresh(at.Values - old(at.Values)) && (!a.Create? ==> at == old(at))
    {
      hide Chain, Position, Distinct, Without, Started, Located, Ids;
      ViewIsOk();
      var listed := Listed(a.w);
      NothingToDo(View(), a);
      match a
      case Create(w) => if !listed { WdCreate(w); }
      case Start(w, delay, func, parm) => if listed { var _ := WdStart(at[w], delay, func, parm); }
      case Cancel(w) => if listed { var _ := WdCancel(at[w]); }
      case Delete(w) => if listed { var _ := WdDelete(at[w]); }
    }

    lemma NotListed(w: Id)
      requires Valid() && w !in at
      ensures w !in Ids(nodes)
    {}

    /** A callback carries out its script. */
    method Callback(script: seq<Action>)
      requires Valid()
      modifies this, at.Values
      ensures Valid() && Ok(old(View())) && View() == DoAll(old(View()), script)
      ensures fresh(at.Values - old(at.Values))
      ensures (forall i :: 0 <= i < |script| ==> !script[i].Create?) ==> at == old(at)
    {
      hide Chain, Position, Distinct, Without, Do;
      ViewIsOk();
      for i := 0 to |script|
        invariant Valid() && View() == DoAll(old(View()), script[..i])
        invariant fresh(at.Values - old(at.Values))
        invariant (forall j :: 0 <= j < i ==> !script[j].Create?) ==> at == old(at)
      {
        assert script[..i + 1][..i] == script[..i];
        Call(script[i]);
      }
      assert script[..|script|] == script;
    }

    /** process_tick_for: `next` is noted before the callback runs. */
    method ProcessTickFor(x: Wdog, k: nat, h: Handler) returns (next: Wdog?, fired: seq<Firing>)
      requires Valid() && CreatesNone(h) && x.id in at && at[x.id] == x
      modifies this, at.Values
      ensures Valid() && Ok(old(View())) && at == old(at)
      ensures x in old(nodes) ==>
                var v := Tick(old(View()), x.id, k, h);
                && View() == v.s && fired == v.fired && IdOf(next) == Successor(old(View()).list, x.id)
                && (next != null ==> next.id in at && at[next.id] == next)
      ensures x !in old(nodes) ==> View() == old(View()) && fired == [] && next == null
    {
      hide Position, Without, DoAll, Chain, Distinct, Successor, Located, Ids;
      ViewIsOk();
      SamePlace(nodes, at, x);
      next, fired := null, [];
      var valid := WdogValid(x);
      if valid {
        NextIsSuccessor(x);
        next := x.next;
        if x.ticks > 0 {
          Store(x, x.View().(ticks := x.ticks - 1));
          if x.ticks == 0 && x.func.Some? {
            fired := [Firing(x.id, x.func.value, x.parm)];
            Callback(h(k, x.id));
          }
        }
      }
    }

    lemma NextIsSuccessor(x: Wdog)
      requires Valid() && x in nodes
      ensures IdOf(x.next) == Successor(Ids(nodes), x.id)
      ensures x.next != null ==> x.next.id in at && at[x.next.id] == x.next
    {
      hide Position;
      SamePlace(nodes, at, x);
      var p := Position(nodes, x);
      assert nodes[p].next == Behind(nodes, p);
    }

    /** One visit of a pass, and what is left of it. */
    method Visit(x: Wdog, k: nat, h: Handler) returns (next: Wdog?, visited: seq<Id>, fired: seq<Firing>)
      requires Valid() && CreatesNone(h) && x.id in at && at[x.id] == x
      modifies this, at.Values
      ensures Valid() && Ok(old(View())) && Ok(View()) && at == old(at)
      ensures next != null ==> next.id in at && at[next.id] == next
      ensures next != null ==> Ahead(View().list, IdOf(next)) < Ahead(old(View()).list, Some(x.id))
      ensures Pass(old(View()), Some(x.id), k, h)
           == (var r := Pass(View(), IdOf(next), k + |fired|, h); Walk(r.s, visited + r.visited, fired + r.fired))
    {
      hide Tick, Position, Successor, Thinned, Ahead, Without, Chain, Distinct, Pass, Located, Ids, CreatesNone;
      ViewIsOk();
      SamePlace(nodes, at, x);
      visited := [];
      var valid := WdogValid(x);
      if valid {
        OneVisit(View(), x.id, k, h);
        visited := [x.id];
      } else {
        PassEnds(View(), Some(x.id), k, h);
        PassEnds(View(), None, k, h);
      }
      next, fired := ProcessTickFor(x, k, h);
      ViewIsOk();
    }

    /** process_timer_list. */
    method ProcessTimerList(k: nat, h: Handler) returns (visited: seq<Id>, fired: seq<Firing>)
      requires Valid() && CreatesNone(h)
      modifies this, at.Values
      ensures Valid() && Ok(old(View()))
      ensures Walk(View(), visited, fired) == Pass(old(View()), First(old(View()).list), k, h)
    {
      hide Tick, Position, Successor, Thinned, Ahead, Without, Chain, Distinct, Pass, Located, Ids, CreatesNone;
      ViewIsOk();
      FirstIsFirst();
      visited, fired := [], [];
      var next := first;
      ghost var all := Pass(View(), IdOf(next), k, h);
      assert [] + all.visited == all.visited && [] + all.fired == all.fired;
      while next != null
        invariant Valid() && at == old(at) && Ok(View())
        invariant next != null ==> next.id in at && at[next.id] == next
        invariant var r := Pass(View(), IdOf(next), k + |fired|, h);
                  all == Walk(r.s, visited + r.visited, fired + r.fired)
        decreases next != null, Ahead(View().list, IdOf(next))
      {
        var v, f;
        next, v, f := Visit(next, k + |fired|, h);
        ghost var r := Pass(View(), IdOf(next), k + |fired| + |f|, h);
        Regroup(visited, v, r.visited);
        Regroup(fired, f, r.fired);
        visited, fired := visited + v, fired + f;
      }
      PassEnds(View(), None, k + |fired|, h);
      assert visited + [] == visited && fired + [] == fired;
    }

    lemma FirstIsFirst()
      requires Valid()
      ensures IdOf(first) == First(Ids(nodes))
      ensures first != null ==> first.id in at && at[first.id] == first
    {}
  }

  /** Operations on what is not listed, and creating what is, change nothing. */
  lemma NothingToDo(s: Timers, a: Action)
    requires Ok(s)
    ensures (a.w in s.list) == a.Create? ==> Do(s, a) == s
  {
    hide Position;
  }

  function IdOf(x: Wdog?): Option<Id> {
    if x == null then None else Some(x.id)
  }

  lemma Regroup<T>(a: seq<T>, b: seq<T>, c: seq<T>)
    ensures a + (b + c) == a + b + c
  {}

  lemma PassEnds(s: Timers, next: Option<Id>, k: nat, h: Handler)
    requires Ok(s) && CreatesNone(h) && (next.None? || next.value !in s.list)
    ensures Pass(s, next, k, h) == Walk(s, [], [])
  {}

  /** What a pass does first, and that less is ahead of it afterwards. */
  lemma OneVisit(s: Timers, w: Id, k: nat, h: Handler)
    requires Ok(s) && CreatesNone(h) && w in s.list
    ensures var v, next := Tick(s, w, k, h), Successor(s.list, w);
            && Pass(s, Some(w), k, h)
               == (var r := Pass(v.s, next, k + |v.fired|, h); Walk(r.s, [w] + r.visited, v.fired + r.fired))
            && Ahead(v.s.list, next) < Ahead(s.list, Some(w))
  {
    hide Tick, Position, Successor, Thinned, Ahead, Distinct;
    TickThins(s, w, k, h);
    WalkAdvances(s.list, Tick(s, w, k, h).s.list, w);
  }
}
