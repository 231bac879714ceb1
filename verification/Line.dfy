/**
  A plain waiting line, as a reference for the wait lists: tasks join at the back, are served or quit.
  A trace says what happened; replaying it gives the line.
*/
module Line {
  import opened Sequences

  type Task = nat

  datatype Mark = Join(t: Task) | Serve(t: Task) | Quit(t: Task) | Pass

  function Apply(line: seq<Task>, m: Mark): seq<Task> {
    match m
    case Join(t) => line + [t]
    case Serve(t) => Without(line, t)
    case Quit(t) => Without(line, t)
    case Pass => line
  }

  /** Nobody joins twice, and only those in line can leave it. */
  predicate Admits(line: seq<Task>, m: Mark) {
    match m
    case Join(t) => t !in line
    case Serve(t) => t in line
    case Quit(t) => t in line
    case Pass => true
  }

  /** Only the front of the line is served. */
  predicate ServesFront(line: seq<Task>, m: Mark) {
    m.Serve? ==> line != [] && line[0] == m.t
  }

  function Replay(tr: seq<Mark>): seq<Task> {
    if tr == [] then [] else Apply(Replay(tr[..|tr| - 1]), tr[|tr| - 1])
  }

  ghost predicate Orderly(tr: seq<Mark>) {
    forall k :: 0 <= k < |tr| ==> Admits(Replay(tr[..k]), tr[k])
  }

  ghost predicate Fair(tr: seq<Mark>) {
    forall k :: 0 <= k < |tr| ==> ServesFront(Replay(tr[..k]), tr[k])
  }

  // ---------------------------------------------------------------- building a trace

  lemma PrefixOf(tr: seq<Mark>, m: Mark, k: nat)
    requires k <= |tr|
    ensures (tr + [m])[..k] == tr[..k]
  {}

  lemma Extend(tr: seq<Mark>, m: Mark)
    requires Orderly(tr) && Admits(Replay(tr), m)
    ensures Orderly(tr + [m]) && Replay(tr + [m]) == Apply(Replay(tr), m)
    ensures Fair(tr) && ServesFront(Replay(tr), m) ==> Fair(tr + [m])
  {
    forall k | 0 <= k < |tr + [m]|
      ensures (tr + [m])[..k] == tr[..k]
    {
      PrefixOf(tr, m, k);
    }
    assert tr[..|tr|] == tr;
  }

  /** `marks` can happen to `line`, which then becomes `line'`; if `fair`, serving the front only. */
  ghost predicate Follows(line: seq<Task>, marks: seq<Mark>, line': seq<Task>, fair: bool)
    decreases |marks|
  {
    if marks == [] then line' == line
    else
      && Admits(line, marks[0]) && (fair ==> ServesFront(line, marks[0]))
      && Follows(Apply(line, marks[0]), marks[1..], line', fair)
  }

  lemma {:induction false} Continue(tr: seq<Mark>, marks: seq<Mark>, line: seq<Task>, fair: bool)
    requires Orderly(tr) && (fair ==> Fair(tr)) && Follows(Replay(tr), marks, line, fair)
    ensures Orderly(tr + marks) && (fair ==> Fair(tr + marks)) && Replay(tr + marks) == line
    decreases |marks|
  {
    hide Orderly, Fair, Replay, Apply, Admits, ServesFront;
    if marks == [] {
      assert tr + marks == tr;
    } else {
      Extend(tr, marks[0]);
      Continue(tr + [marks[0]], marks[1..], line, fair);
      assert tr + marks == tr + [marks[0]] + marks[1..];
    }
  }

  // ---------------------------------------------------------------- traces of something else

  /** A trace of observations that `f` reads as marks. */
  function MarksOf<O>(tr: seq<O>, f: O -> Mark): seq<Mark> {
    seq(|tr|, i requires 0 <= i < |tr| => f(tr[i]))
  }

  lemma MarkAt<O>(tr: seq<O>, f: O -> Mark, i: nat)
    requires i < |tr|
    ensures MarksOf(tr, f)[i] == f(tr[i]) && MarksOf(tr, f)[..i] == MarksOf(tr[..i], f)
  {}

  /** The observations can happen to `line`, which then becomes `line'`. */
  ghost predicate InLine<O>(line: seq<Task>, obs: seq<O>, f: O -> Mark, line': seq<Task>, fair: bool) {
    Follows(line, MarksOf(obs, f), line', fair)
  }

  lemma NoMark<O>(line: seq<Task>, f: O -> Mark, fair: bool)
    ensures InLine(line, [], f, line, fair)
  {}

  lemma FirstMark<O>(line: seq<Task>, o: O, rest: seq<O>, f: O -> Mark, line': seq<Task>, fair: bool)
    requires Admits(line, f(o)) && (fair ==> ServesFront(line, f(o)))
    requires InLine(Apply(line, f(o)), rest, f, line', fair)
    ensures InLine(line, [o] + rest, f, line', fair)
  {
    assert MarksOf([o] + rest, f)[1..] == MarksOf(rest, f);
  }

  lemma OneMark<O>(line: seq<Task>, o: O, f: O -> Mark, fair: bool)
    requires Admits(line, f(o)) && (fair ==> ServesFront(line, f(o)))
    ensures InLine(line, [o], f, Apply(line, f(o)), fair)
  {
    hide InLine;
    NoMark(Apply(line, f(o)), f, fair);
    FirstMark(line, o, [], f, Apply(line, f(o)), fair);
    assert [o] + [] == [o];
  }

  /** The trace so far is that of a line, and `line` is what is left of it. */
  ghost predicate LineSoFar<O>(tr: seq<O>, f: O -> Mark, line: seq<Task>, fair: bool) {
    Orderly(MarksOf(tr, f)) && (fair ==> Fair(MarksOf(tr, f))) && Replay(MarksOf(tr, f)) == line
  }

  lemma LineGoesOn<O>(tr: seq<O>, f: O -> Mark, line: seq<Task>, obs: seq<O>, line': seq<Task>, fair: bool)
    requires LineSoFar(tr, f, line, fair) && InLine(line, obs, f, line', fair)
    ensures LineSoFar(tr + obs, f, line', fair)
  {
    hide Orderly, Fair, Replay, Follows;
    Continue(MarksOf(tr, f), MarksOf(obs, f), line', fair);
    assert MarksOf(tr + obs, f) == MarksOf(tr, f) + MarksOf(obs, f);
  }

  // ---------------------------------------------------------------- order of joining

  /** When `t` last joined, as an index into the trace; -1 if it never did. */
  function JoinedAt(tr: seq<Mark>, t: Task): (r: int)
    ensures -1 <= r < |tr|
    ensures r >= 0 ==> tr[r] == Join(t)
    ensures forall k :: r < k < |tr| ==> tr[k] != Join(t)
  {
    if tr == [] then -1
    else if tr[|tr| - 1] == Join(t) then |tr| - 1
    else JoinedAt(tr[..|tr| - 1], t)
  }

  lemma JoinedAtExtend(tr: seq<Mark>, m: Mark, t: Task)
    ensures JoinedAt(tr + [m], t) == if m == Join(t) then |tr| else JoinedAt(tr, t)
  {
    assert (tr + [m])[..|tr|] == tr;
  }

  /** The line stands in the order of joining. */
  ghost predicate Increasing(tr: seq<Mark>, line: seq<Task>) {
    && (forall a :: 0 <= a < |line| ==> 0 <= JoinedAt(tr, line[a]))
    && (forall a, b :: 0 <= a < b < |line| ==> JoinedAt(tr, line[a]) < JoinedAt(tr, line[b]))
  }

  lemma IncreasingJoin(tr: seq<Mark>, line: seq<Task>, t: Task)
    requires Increasing(tr, line) && t !in line
    ensures Increasing(tr + [Join(t)], line + [t])
  {
    forall a | 0 <= a < |line + [t]|
      ensures JoinedAt(tr + [Join(t)], (line + [t])[a]) == if a < |line| then JoinedAt(tr, line[a]) else |tr|
    {
      JoinedAtExtend(tr, Join(t), (line + [t])[a]);
    }
  }

  lemma IncreasingLeave(tr: seq<Mark>, line: seq<Task>, m: Mark, x: Task)
    requires Increasing(tr, line) && !m.Join?
    ensures Increasing(tr + [m], Without(line, x))
  {
    hide JoinedAt, Without, Position;
    var line', p := Without(line, x), Position(line, x);
    forall a | 0 <= a < |line'|
      ensures line'[a] == line[if a < p then a else a + 1]
      ensures JoinedAt(tr + [m], line'[a]) == JoinedAt(tr, line'[a])
    {
      WithoutAt(line, x, a);
      JoinedAtExtend(tr, m, line'[a]);
    }
  }

  lemma IncreasingExtend(tr: seq<Mark>, line: seq<Task>, m: Mark)
    requires Increasing(tr, line) && Admits(line, m)
    ensures Increasing(tr + [m], Apply(line, m))
  {
    if m.Join? {
      IncreasingJoin(tr, line, m.t);
    } else if m.Pass? {
      forall a | 0 <= a < |line|
        ensures JoinedAt(tr + [m], line[a]) == JoinedAt(tr, line[a])
      {
        JoinedAtExtend(tr, m, line[a]);
      }
    } else {
      IncreasingLeave(tr, line, m, m.t);
    }
  }

  lemma OrderlyPrefix(tr: seq<Mark>, n: nat)
    requires Orderly(tr) && n <= |tr|
    ensures Orderly(tr[..n])
  {
    forall k | 0 <= k < n
      ensures tr[..n][..k] == tr[..k]
    {}
  }

  lemma {:induction false} StandsInOrder(tr: seq<Mark>)
    requires Orderly(tr)
    ensures Increasing(tr, Replay(tr))
  {
    if tr != [] {
      var front, m := tr[..|tr| - 1], tr[|tr| - 1];
      assert tr == front + [m];
      assert Admits(Replay(front), m);
      OrderlyPrefix(tr, |tr| - 1);
      StandsInOrder(front);
      IncreasingExtend(front, Replay(front), m);
    }
  }

  // ---------------------------------------------------------------- order of service

  /** Everybody served so far joined before `stamp`. */
  ghost predicate ServedBefore(tr: seq<Mark>, stamp: int) {
    forall g :: 0 <= g < |tr| && tr[g].Serve? ==> JoinedAt(tr[..g], tr[g].t) < stamp
  }

  lemma ServedBeforeExtend(tr: seq<Mark>, m: Mark, stamp: int)
    requires ServedBefore(tr, stamp)
    requires m.Serve? ==> JoinedAt(tr, m.t) < stamp
    ensures ServedBefore(tr + [m], stamp)
  {
    forall g | 0 <= g < |tr + [m]|
      ensures (tr + [m])[..g] == tr[..g]
    {}
  }

  /** Where the task now at place `a` was before `m`; `|line|` if it has just joined. */
  lemma WasAt(line: seq<Task>, m: Mark, a: nat) returns (b: nat)
    requires Admits(line, m) && a < |Apply(line, m)|
    ensures b <= |line|
    ensures if b < |line| then line[b] == Apply(line, m)[a] && m != Join(line[b]) else m == Join(Apply(line, m)[a])
    ensures m.Serve? && ServesFront(line, m) ==> b == a + 1
  {
    hide Position, Without;
    if m.Serve? || m.Quit? {
      WithoutAt(line, m.t, a);
      b := if a < Position(line, m.t) then a else a + 1;
    } else {
      b := a;
    }
  }

  lemma {:induction false} ServedBeforeLine(tr: seq<Mark>, a: nat)
    requires Orderly(tr) && Fair(tr) && a < |Replay(tr)|
    ensures ServedBefore(tr, JoinedAt(tr, Replay(tr)[a]))
  {
    hide JoinedAt, Without, Position;
    if tr != [] {
      var front, m := tr[..|tr| - 1], tr[|tr| - 1];
      var line, line' := Replay(front), Replay(tr);
      assert tr == front + [m];
      assert Admits(line, m) && ServesFront(line, m);
      OrderlyPrefix(tr, |tr| - 1);
      FairPrefix(tr, |tr| - 1);
      StandsInOrder(front);
      JoinedAtExtend(front, m, line'[a]);
      var b := WasAt(line, m, a);
      if b < |line| {
        ServedBeforeLine(front, b);
      }
      ServedBeforeExtend(front, m, JoinedAt(tr, line'[a]));
    }
  }

  lemma FairPrefix(tr: seq<Mark>, n: nat)
    requires Fair(tr) && n <= |tr|
    ensures Fair(tr[..n])
  {
    forall k | 0 <= k < n
      ensures tr[..n][..k] == tr[..k]
    {}
  }

  /** If only the front is served, service is in the order of joining. */
  lemma ServedInOrder(tr: seq<Mark>, i: nat, j: nat)
    requires Orderly(tr) && Fair(tr) && i < j < |tr| && tr[i].Serve? && tr[j].Serve?
    ensures 0 <= JoinedAt(tr[..i], tr[i].t) < JoinedAt(tr[..j], tr[j].t)
  {
    OrderlyPrefix(tr, i);
    OrderlyPrefix(tr, j);
    FairPrefix(tr, j);
    StandsInOrder(tr[..i]);
    assert Admits(Replay(tr[..i]), tr[i]) && ServesFront(Replay(tr[..i]), tr[i]);
    assert ServesFront(Replay(tr[..j]), tr[j]);
    ServedBeforeLine(tr[..j], 0);
    assert tr[..j][..i] == tr[..i] && tr[..j][i] == tr[i];
  }
}
