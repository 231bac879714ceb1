/**
  The wait lists on the heap (lib/ltaskLib.c:334-447): singly linked through the one field `nxt_susp`
  of the task control blocks, and changed through pointers to pointers.  Each operation does to its
  list what Sequences says, and nothing to any other list threaded through the same field.
*/
module WaitLists {
  import opened Sequences
  import opened Selection

  const PEND: bv8 := 1

  predicate HasPend(state: bv8) { state & PEND != 0 }

  function PendSet(state: bv8): bv8 { state | PEND }

  function PendCleared(state: bv8): bv8 { state & !PEND }

  /** Setting and clearing PEND do just that and leave the other bits alone. */
  lemma PendBits(state: bv8)
    ensures HasPend(PendSet(state)) && !HasPend(PendCleared(state))
    ensures PendSet(state) & !PEND == PendCleared(state) & !PEND == state & !PEND
  {}

  lemma PendBit(state: bv8)
    ensures HasPend(PendSet(state)) && !HasPend(PendCleared(state))
  {
    PendBits(state);
  }

  class Tcb {
    var nxtSusp: Tcb?
    var state: bv8              // the low byte of `state`, which holds all its flags
    var priority: int           // prv_priority.sched_priority

    /** On no list. */
    ghost predicate Blank()
      reads this
    {
      nxtSusp == null && !HasPend(state) && priority == 0
    }

    constructor ()
      ensures Blank()
    {
      nxtSusp, state, priority := null, 0, 0;
    }
  }

  /** An object that tasks can wait on, as far as its list is concerned. */
  class Head {
    var first: Tcb?

    constructor ()
      ensures first == null
    {
      first := null;
    }
  }

  /** Which tasks wait where, for a number of list heads. */
  type Lists = map<Head, seq<Tcb>>

  /** The tasks whose PEND bit is set. */
  ghost function Pending(all: set<Tcb>): set<Tcb>
    reads all`state
  {
    set t | t in all && HasPend(t.state)
  }

  /** The task behind task number `i`, if any. */
  function Next(s: seq<Tcb>, i: nat): Tcb? {
    if i + 1 < |s| then s[i + 1] else null
  }

  /** Following `nxt_susp` from `first` visits exactly `s`. */
  ghost predicate Chain(first: Tcb?, s: seq<Tcb>)
    reads (set t | t in s)`nxtSusp
  {
    && first == (if s == [] then null else s[0])
    && forall i :: 0 <= i < |s| ==> s[i].nxtSusp == Next(s, i)
  }

  /** Each list is a chain of its own, and no task is on two lists. */
  ghost predicate Threaded(g: Lists, all: set<Tcb>)
    reads g.Keys`first, all`nxtSusp
  {
    && (forall l :: l in g ==> Distinct(g[l]) && (forall t :: t in g[l] ==> t in all) && Chain(l.first, g[l]))
    && (forall l, m, t :: l in g && m in g && t in g[l] && t in g[m] ==> l == m)
  }

  /** A chain of what was ahead of `e`, ending in `e`. */
  lemma LinkedChain(first: Tcb?, s: seq<Tcb>, e: Tcb)
    requires var p := Position(s, e);
             && first == (if p == 0 then e else s[0]) && e.nxtSusp == null
             && (p > 0 ==> s[p - 1].nxtSusp == e)
             && forall i :: 0 <= i < p - 1 ==> s[i].nxtSusp == s[i + 1]
    ensures Chain(first, Linked(s, e))
  {
    hide Position;
  }

  /** link_susp_task, on the list it works on. */
  method LinkChain(l: Head, e: Tcb, ghost s: seq<Tcb>)
    requires Chain(l.first, s) && Distinct(s)
    modifies l`first, (set t | t in s)`nxtSusp, e`nxtSusp, e`state
    ensures Chain(l.first, Linked(s, e))
    ensures e.state == PendSet(old(e.state))
  {
    hide Position, Linked, PendSet;
    e.nxtSusp := null;
    var prev := WalkToEnd(l, e, s);
    if prev == null { l.first := e; } else { prev.nxtSusp := e; }
    e.state := PendSet(e.state);
    LinkedChain(l.first, s, e);
  }

  /** The pointer-to-pointer walk, which cuts the chain at `e` if it comes across it. */
  method WalkToEnd(l: Head, e: Tcb, ghost s: seq<Tcb>) returns (prev: Tcb?)
    requires Distinct(s) && e.nxtSusp == null && l.first == if s == [] then null else s[0]
    requires forall i :: 0 <= i < |s| && s[i] != e ==> s[i].nxtSusp == Next(s, i)
    modifies l`first, (set t | t in s)`nxtSusp
    ensures var p := Position(s, e);
            && prev == (if p == 0 then null else s[p - 1]) && (p > 0 ==> l.first == s[0])
            && e.nxtSusp == null && forall i :: 0 <= i < p - 1 ==> s[i].nxtSusp == s[i + 1]
  {
    hide Position;
    ghost var p := Position(s, e);
    prev := null;               // the pointer `i` is &l.first, or &prev.nxtSusp
    var cur := l.first;         // *i
    ghost var k := 0;
    while cur != null
      invariant 0 <= k <= p && prev == (if k == 0 then null else s[k - 1])
      invariant if cur == null then k == p else k < |s| && cur == s[k]
      invariant cur != null || prev != null ==> l.first == s[0]
      invariant e.nxtSusp == null
      invariant forall i :: 0 <= i < p - 1 ==> s[i].nxtSusp == s[i + 1]
      invariant cur != null ==> forall i :: k <= i < p ==> s[i].nxtSusp == Next(s, i)
      decreases cur != null, |s| - k
    {
      if cur == e {
        cur := cur.nxtSusp;
        if prev == null { l.first := cur; } else { prev.nxtSusp := cur; }
      } else {
        prev := cur;
        cur := cur.nxtSusp;
        k := k + 1;
      }
    }
  }

  /** The search of unlink_susp_task: the entry ahead of `e`, null if `e` is first. */
  method Search(l: Head, e: Tcb, ghost s: seq<Tcb>) returns (prev: Tcb?, found: bool)
    requires Chain(l.first, s)
    ensures found <==> e in s
    ensures found ==> prev == if Position(s, e) == 0 then null else s[Position(s, e) - 1]
  {
    prev := null;
    var cur := l.first;
    ghost var k := 0;
    while cur != null && cur != e
      invariant 0 <= k <= Position(s, e) && prev == (if k == 0 then null else s[k - 1])
      invariant cur == if k < |s| then s[k] else null
      decreases |s| - k
    {
      assert s[k].nxtSusp == Next(s, k);
      prev := cur;
      cur := cur.nxtSusp;
      k := k + 1;
    }
    found := cur != null;
  }

  /** unlink_susp_task, on the list it works on. */
  method UnlinkChain(l: Head, e: Tcb, ghost s: seq<Tcb>)
    requires Chain(l.first, s) && Distinct(s)
    modifies l`first, (set t | t in s)`nxtSusp, e`state
    ensures Chain(l.first, Without(s, e))
    ensures e.state == if e in s then PendCleared(old(e.state)) else old(e.state)
  {
    hide Position, PendCleared;
    var prev, found := Search(l, e, s);
    if found {
      CutOut(l, prev, e, s);
      e.state := PendCleared(e.state);
    }
  }

  /** Takes out the entry that `prev` leads to. */
  method CutOut(l: Head, prev: Tcb?, e: Tcb, ghost s: seq<Tcb>)
    requires Chain(l.first, s) && Distinct(s) && e in s
    requires prev == if Position(s, e) == 0 then null else s[Position(s, e) - 1]
    modifies l`first, (set t | t in s)`nxtSusp
    ensures Chain(l.first, Without(s, e))
  {
    hide Position, Distinct, Without;
    ghost var p := Position(s, e);
    DistinctMeans(s);
    assert s[p].nxtSusp == Next(s, p);
    if prev == null { l.first := e.nxtSusp; } else { prev.nxtSusp := e.nxtSusp; }
    e.nxtSusp := null;
    ChainWithout(l.first, s, e);
  }

  lemma DistinctMeans(s: seq<Tcb>)
    requires Distinct(s)
    ensures forall i, j :: 0 <= i < |s| && 0 <= j < |s| && i != j ==> s[i] != s[j]
  {}

  /** A chain from which `e` has been cut out. */
  lemma ChainWithout(first: Tcb?, s: seq<Tcb>, e: Tcb)
    requires e in s
    requires var p := Position(s, e);
             && first == (if p == 0 then Next(s, p) else s[0])
             && (p > 0 ==> s[p - 1].nxtSusp == Next(s, p))
             && forall i :: 0 <= i < |s| && i != p && i + 1 != p ==> s[i].nxtSusp == Next(s, i)
    ensures Chain(first, Without(s, e))
  {
    hide Position, Without;
    ghost var r := Without(s, e);
    forall i | 0 <= i < |r|
      ensures r[i].nxtSusp == Next(r, i)
    {
      NextWithout(s, e, i);
    }
    if r != [] { NextWithout(s, e, 0); }
  }

  lemma NextWithout(s: seq<Tcb>, e: Tcb, i: nat)
    requires e in s && i < |Without(s, e)|
    ensures var p := Position(s, e);
            && Without(s, e)[i] == s[if i < p then i else i + 1]
            && Next(Without(s, e), i) == if i + 1 == p then Next(s, p) else Next(s, if i < p then i else i + 1)
  {
    hide Position, Without;
    WithoutAt(s, e, i);
    if i + 1 < |Without(s, e)| { WithoutAt(s, e, i + 1); }
  }

  /** The operations bring no task onto a list but the entry itself. */
  lemma NoStrangers(s: seq<Tcb>, e: Tcb)
    requires Distinct(s)
    ensures Distinct(Linked(s, e)) && Distinct(Without(s, e))
    ensures forall t :: t in Linked(s, e) ==> t == e || t in s
    ensures forall t :: t in Without(s, e) ==> t in s
  {
    LinkedMembers(s, e);
    WithoutMembers(s, e);
  }

  /** Replacing one list, by one with no new task but possibly `e`, keeps the lists apart. */
  lemma Rethread(g: Lists, l: Head, s: seq<Tcb>, e: Tcb, all: set<Tcb>)
    requires l in g && Chain(l.first, s) && Distinct(s) && forall t :: t in s ==> t in all
    requires forall m :: m in g && m != l ==>
               Distinct(g[m]) && (forall t :: t in g[m] ==> t in all) && Chain(m.first, g[m])
    requires forall m, n, t :: m in g && n in g && t in g[m] && t in g[n] ==> m == n
    requires forall t :: t in s ==> t in g[l] || (t == e && forall m :: m in g && e in g[m] ==> m == l)
    ensures Threaded(g[l := s], all)
  {}

  ghost predicate OnSomeList(g: Lists, t: Tcb) {
    exists m :: m in g && t in g[m]
  }

  /** Exactly the tasks on some list have the PEND bit; `pend` are those that have it. */
  ghost predicate Truthful(g: Lists, pend: set<Tcb>, all: set<Tcb>) {
    forall t :: t in all ==> (t in pend <==> OnSomeList(g, t))
  }

  ghost predicate Apart(g: Lists) {
    && (forall m :: m in g ==> Distinct(g[m]))
    && (forall m, n, t :: m in g && n in g && t in g[m] && t in g[n] ==> m == n)
  }

  /**
    The PEND bit keeps telling the truth when a task is linked exactly if the task was on no list or
    last on this one; otherwise those cut off keep the bit.
  */
  lemma LinkKeepsPend(g: Lists, l: Head, e: Tcb, pend: set<Tcb>, all: set<Tcb>)
    requires Apart(g) && Truthful(g, pend, all) && l in g && e in all && forall t :: t in g[l] ==> t in all
    requires forall m :: m in g && e in g[m] ==> m == l
    ensures Truthful(g[l := Linked(g[l], e)], pend + {e}, all) <==> (e !in g[l] || g[l][|g[l]| - 1] == e)
  {
    var g' := g[l := Linked(g[l], e)];
    LinkedMembers(g[l], e);
    LinkedLosesNobody(g[l], e);
    assert e in g'[l];
    forall t | t in all && t !in g[l]
      ensures t in pend + {e} <==> OnSomeList(g', t)
    {
      if OnSomeList(g, t) {
        var m: Head :| m in g && t in g[m];
        assert t in g'[m];
      }
    }
    if y :| y in g[l] && y !in g'[l] {
      assert OnSomeList(g, y) && !OnSomeList(g', y);
    }
  }

  /** And it always does when a task is unlinked. */
  lemma UnlinkKeepsPend(g: Lists, l: Head, e: Tcb, pend: set<Tcb>, all: set<Tcb>)
    requires Apart(g) && Truthful(g, pend, all) && l in g && e in all && forall t :: t in g[l] ==> t in all
    ensures Truthful(g[l := Without(g[l], e)], if e in g[l] then pend - {e} else pend, all)
  {
    var g' := g[l := Without(g[l], e)];
    var pend' := if e in g[l] then pend - {e} else pend;
    WithoutMembers(g[l], e);
    forall t | t in all
      ensures t in pend' <==> OnSomeList(g', t)
    {
      if OnSomeList(g, t) {
        var m: Head :| m in g && t in g[m];
        assert t in g'[m] || t == e;
      }
    }
  }

  /**
    link_susp_task among all lists: an entry that is on no list is appended; an entry that is on this
    list is moved to the end of what was ahead of it and cuts off what was behind.  Every other list
    stays as it is.
  */
  method Link(l: Head, e: Tcb?, ghost g: Lists, ghost all: set<Tcb>)
    requires Threaded(g, all) && l in g
    requires e != null ==> e in all && forall m :: m in g && e in g[m] ==> m == l
    modifies l`first, all`nxtSusp, all`state
    ensures e == null ==> Threaded(g, all)
    ensures e != null ==> var x: Tcb := e; Threaded(g[l := Linked(g[l], x)], all)
    ensures forall t :: t in all && t != e ==> t.state == old(t.state)
    ensures e != null ==> e.state == PendSet(old(e.state)) && Pending(all) == old(Pending(all)) + {e}
    ensures e != null && old(Truthful(g, Pending(all), all)) ==>
              var x: Tcb := e;
              (Truthful(g[l := Linked(g[l], x)], Pending(all), all) <==> x !in g[l] || g[l][|g[l]| - 1] == x)
  {
    hide PendSet, HasPend, Linked, Truthful, Threaded, Distinct;
    if e != null {
      var x: Tcb := e;
      PendBit(x.state);
      ThreadedIsApart(g, all);
      LinkThreaded(l, x, g, all);
      if old(Truthful(g, Pending(all), all)) {
        LinkKeepsPend(g, l, x, old(Pending(all)), all);
      }
    }
  }

  method LinkThreaded(l: Head, e: Tcb, ghost g: Lists, ghost all: set<Tcb>)
    requires Threaded(g, all) && l in g && e in all && forall m :: m in g && e in g[m] ==> m == l
    modifies l`first, all`nxtSusp, e`state
    ensures Threaded(g[l := Linked(g[l], e)], all) && e.state == PendSet(old(e.state))
  {
    hide PendSet, Linked, Position, Next;
    ghost var s := g[l];
    assert Chain(l.first, s) && Distinct(s) && forall t :: t in s ==> t in all;
    LinkChain(l, e, s);
    assert forall m :: m in g && m != l ==> Chain(m.first, g[m]);
    NoStrangers(s, e);
    Rethread(g, l, Linked(s, e), e, all);
  }

  lemma ThreadedIsApart(g: Lists, all: set<Tcb>)
    requires Threaded(g, all)
    ensures Apart(g) && forall m, t :: m in g && t in g[m] ==> t in all
  {}

  /** unlink_susp_task among all lists: exactly the entry goes, from this list only. */
  method Unlink(l: Head, e: Tcb?, ghost g: Lists, ghost all: set<Tcb>)
    requires Threaded(g, all) && l in g && (e != null ==> e in all)
    modifies l`first, all`nxtSusp, all`state
    ensures e == null ==> Threaded(g, all)
    ensures e != null ==> var x: Tcb := e; Threaded(g[l := Without(g[l], x)], all)
    ensures forall t :: t in all && t != e ==> t.state == old(t.state)
    ensures e != null && e in g[l] ==> e.state == PendCleared(old(e.state)) && Pending(all) == old(Pending(all)) - {e}
    ensures e != null && e !in g[l] ==> e.state == old(e.state) && Pending(all) == old(Pending(all))
    ensures e != null && old(Truthful(g, Pending(all), all)) ==>
              var x: Tcb := e; Truthful(g[l := Without(g[l], x)], Pending(all), all)
  {
    hide PendCleared, HasPend, Without, Truthful, Threaded, Distinct;
    if e != null {
      var x: Tcb := e;
      PendBit(x.state);
      ThreadedIsApart(g, all);
      UnlinkThreaded(l, x, g, all);
      if old(Truthful(g, Pending(all), all)) {
        UnlinkKeepsPend(g, l, x, old(Pending(all)), all);
      }
    }
  }

  method UnlinkThreaded(l: Head, e: Tcb, ghost g: Lists, ghost all: set<Tcb>)
    requires Threaded(g, all) && l in g && e in all
    modifies l`first, all`nxtSusp, e`state
    ensures Threaded(g[l := Without(g[l], e)], all)
    ensures e.state == if e in g[l] then PendCleared(old(e.state)) else old(e.state)
  {
    hide PendCleared, Without, Position, Next;
    ghost var s := g[l];
    assert Chain(l.first, s) && Distinct(s) && forall t :: t in s ==> t in all;
    UnlinkChain(l, e, s);
    assert forall m :: m in g && m != l ==> Chain(m.first, g[m]);
    NoStrangers(s, e);
    Rethread(g, l, Without(s, e), e, all);
  }

  /** The priorities along a list. */
  ghost function Priorities(s: seq<Tcb>): (r: seq<int>)
    reads s
    ensures |r| == |s|
  {
    seq(|s|, i requires 0 <= i < |s| reads s => s[i].priority)
  }

  /** signal_for_my_task: whether the signal is for the caller. */
  method SignalForMyTask(l: Head, byPriority: bool, me: Tcb, ghost s: seq<Tcb>) returns (mine: bool)
    requires Chain(l.first, s)
    ensures mine <==> s != [] && s[Chosen(Priorities(s), byPriority)] == me
  {
    hide FirstMax;
    var signalled := l.first;
    if byPriority && l.first != null {
      ghost var ps := Priorities(s);
      var t := l.first;
      ghost var k := 0;
      while t != null
        invariant 0 <= k <= |s| && t == if k < |s| then s[k] else null
        invariant signalled == s[if k == 0 then 0 else FirstMax(ps[..k])]
        decreases |s| - k
      {
        assert s[k].nxtSusp == Next(s, k) && ps[k] == s[k].priority;
        FirstMaxNext(ps, k);
        if t.priority > signalled.priority {
          signalled := t;
        }
        t := t.nxtSusp;
        k := k + 1;
      }
      assert ps[..|s|] == ps;
    }
    mine := signalled == me;
  }
}
