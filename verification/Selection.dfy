/** Which task of a wait list a signal is for (signal_for_my_task in lib/ltaskLib.c). */
module Selection {

  /** The first position holding the largest number: what the scan of signal_for_my_task ends on. */
  function FirstMax(ps: seq<int>): (r: nat)
    requires ps != []
    ensures r < |ps|
    ensures forall i :: 0 <= i < |ps| ==> ps[i] <= ps[r]
    ensures forall i :: 0 <= i < r ==> ps[i] < ps[r]
  {
    if |ps| == 1 then 0
    else
      var k := FirstMax(ps[..|ps| - 1]);
      if ps[|ps| - 1] > ps[k] then |ps| - 1 else k
  }

  /** One more number. */
  lemma FirstMaxNext(ps: seq<int>, k: nat)
    requires k < |ps|
    ensures FirstMax(ps[..k + 1]) == if k > 0 && ps[k] <= ps[FirstMax(ps[..k])] then FirstMax(ps[..k]) else k
  {
    assert ps[..k + 1][..k] == ps[..k];
  }

  /** The position selected: the head in FIFO order, else the earliest of the highest priority. */
  function Chosen(ps: seq<int>, byPriority: bool): (r: nat)
    requires ps != []
    ensures r < |ps|
    ensures !byPriority ==> r == 0
    ensures byPriority ==> forall i :: 0 <= i < |ps| ==> ps[i] < ps[r] || (ps[i] == ps[r] && r <= i)
  {
    if byPriority then FirstMax(ps) else 0
  }

  /** That property determines the selection. */
  lemma ChosenIsUnique(ps: seq<int>, r: nat)
    requires r < |ps| && forall i :: 0 <= i < |ps| ==> ps[i] < ps[r] || (ps[i] == ps[r] && r <= i)
    ensures r == Chosen(ps, true)
  {
    var k := Chosen(ps, true);
    assert ps[k] <= ps[r] && ps[r] <= ps[k];
  }

  /** The priorities along a wait list; a task without an entry has priority zero. */
  function Priorities(list: seq<nat>, prio: map<nat, int>): (r: seq<int>)
    ensures |r| == |list|
  {
    seq(|list|, i requires 0 <= i < |list| => PriorityOf(prio, list[i]))
  }

  function PriorityOf(prio: map<nat, int>, t: nat): int {
    if t in prio then prio[t] else 0
  }

  /** Whether the signal is for task `t`. */
  predicate SignalForMyTask(list: seq<nat>, byPriority: bool, prio: map<nat, int>, t: nat) {
    list != [] && list[Chosen(Priorities(list, prio), byPriority)] == t
  }
}
