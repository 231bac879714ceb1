/**
  The table of registered tasks, and all the wait lists that are threaded through the one `nxt_susp`
  field of their control blocks.  Task number `t` is the control block `task[t]`.  What callers see of a
  wait list is the sequence of the numbers on it.
*/
module TaskTable {
  import opened Sequences
  import Selection
  import opened WaitLists

  /** The line names only tasks of the table. */
  predicate Fits(line: seq<nat>, task: seq<Tcb>) {
    forall i :: 0 <= i < |line| ==> line[i] < |task|
  }

  function Tcbs(line: seq<nat>, task: seq<Tcb>): (r: seq<Tcb>)
    requires Fits(line, task)
    ensures |r| == |line|
    ensures forall i :: 0 <= i < |line| ==> r[i] == task[line[i]]
  {
    seq(|line|, i requires 0 <= i < |line| => task[line[i]])
  }

  lemma SameMembers(line: seq<nat>, task: seq<Tcb>, t: nat)
    requires Distinct(task) && Fits(line, task) && t < |task|
    ensures task[t] in Tcbs(line, task) <==> t in line
    ensures line != [] ==> (Tcbs(line, task)[|line| - 1] == task[t] <==> line[|line| - 1] == t)
  {
    var r := Tcbs(line, task);
    if t in line {
      var i :| 0 <= i < |line| && line[i] == t;
      assert r[i] == task[t];
    }
  }

  lemma SamePosition(line: seq<nat>, task: seq<Tcb>, t: nat)
    requires Distinct(task) && Fits(line, task) && t < |task|
    ensures Position(Tcbs(line, task), task[t]) == Position(line, t)
  {
    hide Position;
    var r, p, p' := Tcbs(line, task), Position(line, t), Position(Tcbs(line, task), task[t]);
    assert p < |line| ==> r[p] == task[t];
    assert p' < |line| ==> task[line[p']] == task[t];
  }

  lemma SameLinked(line: seq<nat>, task: seq<Tcb>, t: nat)
    requires Distinct(task) && Fits(line, task) && t < |task|
    ensures Fits(Linked(line, t), task) && Tcbs(Linked(line, t), task) == Linked(Tcbs(line, task), task[t])
  {
    hide Position, Tcbs, Distinct;
    SamePosition(line, task, t);
    var p := Position(line, t);
    assert Tcbs(line[..p], task) == Tcbs(line, task)[..p];
    assert Tcbs(line[..p] + [t], task) == Tcbs(line[..p], task) + [task[t]];
  }

  lemma SameWithout(line: seq<nat>, task: seq<Tcb>, t: nat)
    requires Distinct(task) && Fits(line, task) && t < |task|
    ensures Fits(Without(line, t), task) && Tcbs(Without(line, t), task) == Without(Tcbs(line, task), task[t])
  {
    hide Position, Tcbs, Distinct;
    SamePosition(line, task, t);
    var p := Position(line, t);
    if p < |line| {
      assert Tcbs(line[..p] + line[p + 1..], task) == Tcbs(line, task)[..p] + Tcbs(line, task)[p + 1..];
    }
  }

  type Lines = map<Head, seq<nat>>

  ghost predicate AllFit(lines: Lines, task: seq<Tcb>) {
    forall l :: l in lines ==> Fits(lines[l], task)
  }

  ghost function ListsOf(lines: Lines, task: seq<Tcb>): Lists
    requires AllFit(lines, task)
  {
    map l | l in lines :: Tcbs(lines[l], task)
  }

  lemma OneLineChanged(lines: Lines, task: seq<Tcb>, l: Head, line: seq<nat>)
    requires AllFit(lines, task) && l in lines && Fits(line, task)
    ensures AllFit(lines[l := line], task) && l in ListsOf(lines, task)
    ensures ListsOf(lines, task)[l] == Tcbs(lines[l], task)
    ensures ListsOf(lines[l := line], task) == ListsOf(lines, task)[l := Tcbs(line, task)]
  {
    hide Tcbs, Fits;
  }

  class Tasks {
    const task: seq<Tcb>
    ghost const all: set<Tcb>
    ghost const heads: set<Head>
    ghost var lines: Lines
    ghost var prio: map<nat, int>

    ghost predicate Valid()
      reads this, heads`first, all`nxtSusp, all`priority
    {
      lines.Keys == heads && Woven()
    }

    /** Following `nxt_susp` from each head visits exactly the tasks of its line. */
    ghost predicate Woven()
      reads this, heads`first, all`nxtSusp, all`priority
    {
      && Distinct(task) && all == (set x | x in task) && lines.Keys == heads && AllFit(lines, task)
      && Threaded(ListsOf(lines, task), all)
      && forall t :: 0 <= t < |task| ==> task[t].priority == Selection.PriorityOf(prio, t)
    }

    /** PEND is set in exactly the tasks on some list. */
    ghost predicate Honest()
      reads this, all`state
    {
      AllFit(lines, task) && Truthful(ListsOf(lines, task), Pending(all), all)
    }

    /** `count` new tasks, and empty lists. */
    constructor (count: nat, ghost heads: set<Head>)
      requires forall l :: l in heads ==> l.first == null
      ensures Valid() && Honest() && |task| == count && this.heads == heads && prio == map[]
      ensures fresh(all) && forall l :: l in lines ==> lines[l] == []
    {
      var table: seq<Tcb> := [];
      for i := 0 to count
        invariant |table| == i && Distinct(table) && forall x :: x in table ==> fresh(x) && x.Blank()
      {
        var x := new Tcb();
        table := table + [x];
      }
      task, all := table, set x | x in table;
      this.heads, lines, prio := heads, map l | l in heads :: [], map[];
      new;
      BlankPend(all);
      assert forall t :: 0 <= t < |task| ==> task[t] in all;
    }

    ghost predicate OnlyOn(l: Head, t: nat)
      reads this
    {
      forall m :: m in lines && t in lines[m] ==> m == l
    }

    /** link_susp_task, for a task that is on no other list. */
    method LinkTask(l: Head, t: nat)
      requires Valid() && l in heads && t < |task| && OnlyOn(l, t)
      modifies this`lines, heads`first, all`nxtSusp, all`state
      ensures Valid() && lines == old(lines)[l := Linked(old(lines[l]), t)]
      ensures old(Honest()) ==> (Honest() <==> t !in old(lines[l]) || old(lines[l][|lines[l]| - 1]) == t)
    {
      hide Linked, Tcbs, Fits, Threaded, Truthful, Distinct, ListsOf;
      ghost var g := ListsOf(lines, task);
      SameLinked(lines[l], task, t);
      SameMembers(lines[l], task, t);
      OneLineChanged(lines, task, l, Linked(lines[l], t));
      OnlyThere(l, t);
      Link(l, task[t], g, all);
      lines := lines[l := Linked(lines[l], t)];
    }

    lemma OnlyThere(l: Head, t: nat)
      requires Valid() && t < |task| && OnlyOn(l, t)
      ensures forall m :: m in ListsOf(lines, task) && task[t] in ListsOf(lines, task)[m] ==> m == l
    {
      forall m | m in lines && task[t] in ListsOf(lines, task)[m]
        ensures m == l
      {
        SameMembers(lines[m], task, t);
      }
    }

    lemma PendIsListed(t: nat)
      requires Valid() && Honest() && t < |task|
      ensures HasPend(task[t].state) <==> exists l :: l in lines && t in lines[l]
    {
      var g := ListsOf(lines, task);
      assert task[t] in all;
      assert task[t] in Pending(all) <==> OnSomeList(g, task[t]);
      forall l | l in lines
        ensures task[t] in g[l] <==> t in lines[l]
      {
        SameMembers(lines[l], task, t);
      }
    }

    /** unlink_susp_task. */
    method UnlinkTask(l: Head, t: nat)
      requires Valid() && l in heads && t < |task|
      modifies this`lines, heads`first, all`nxtSusp, all`state
      ensures Valid() && lines == old(lines)[l := Without(old(lines[l]), t)]
      ensures old(Honest()) ==> Honest()
    {
      hide Without, Tcbs, Fits, Threaded, Truthful, Distinct, ListsOf;
      ghost var g := ListsOf(lines, task);
      SameWithout(lines[l], task, t);
      OneLineChanged(lines, task, l, Without(lines[l], t));
      Unlink(l, task[t], g, all);
      lines := lines[l := Without(lines[l], t)];
    }

    /** signal_for_my_task. */
    method SignalFor(l: Head, byPriority: bool, t: nat) returns (mine: bool)
      requires Valid() && l in heads && t < |task|
      ensures mine <==> Selection.SignalForMyTask(lines[l], byPriority, prio, t)
    {
      ghost var s := Tcbs(lines[l], task);
      assert ListsOf(lines, task)[l] == s;
      mine := SignalForMyTask(l, byPriority, task[t], s);
      assert Priorities(s) == Selection.Priorities(lines[l], prio);
    }

    method IsEmpty(l: Head) returns (yes: bool)
      requires Valid() && l in heads
      ensures yes <==> lines[l] == []
    {
      assert Chain(l.first, ListsOf(lines, task)[l]);
      yes := l.first == null;
    }

    method SetPriority(t: nat, p: int)
      requires Valid() && t < |task|
      modifies this`prio, all`priority
      ensures Valid() && prio == old(prio)[t := p] && (old(Honest()) ==> Honest())
    {
      task[t].priority := p;
      prio := prio[t := p];
    }
  }

  lemma BlankPend(all: set<Tcb>)
    requires forall x :: x in all ==> x.Blank()
    ensures Pending(all) == {}
  {}
}
