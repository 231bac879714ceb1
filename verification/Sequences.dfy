/** Order-preserving operations on wait lists, viewed as sequences of tasks. */
module Sequences {

  datatype Option<+T> = None | Some(value: T)

  predicate Distinct<T(==)>(s: seq<T>) {
    forall i, j :: 0 <= i < j < |s| ==> s[i] != s[j]
  }

  /** The index of the first occurrence of `x`, or `|s|`. */
  function Position<T(==)>(s: seq<T>, x: T): (r: nat)
    ensures r <= |s|
    ensures r < |s| ==> s[r] == x
    ensures forall i :: 0 <= i < r ==> s[i] != x
  {
    if s == [] then 0
    else if s[0] == x then 0
    else 1 + Position(s[1..], x)
  }

  /** What link_susp_task leaves: whatever was ahead of `x`, then `x`. */
  function Linked<T(==)>(s: seq<T>, x: T): (r: seq<T>)
    ensures x !in s ==> r == s + [x]
  {
    s[..Position(s, x)] + [x]
  }

  /** What unlink_susp_task leaves. */
  function Without<T(==)>(s: seq<T>, x: T): (r: seq<T>)
    ensures x !in s ==> r == s
    ensures s != [] && s[0] == x ==> r == s[1..]
    ensures |r| == if x in s then |s| - 1 else |s|
  {
    var p := Position(s, x);
    if p == |s| then s else s[..p] + s[p + 1..]
  }

  /** Unlinking takes out exactly `x`. */
  lemma WithoutMembers<T>(s: seq<T>, x: T)
    requires Distinct(s)
    ensures Distinct(Without(s, x))
    ensures forall y :: y in Without(s, x) <==> y in s && y != x
  {
    hide Position;
    var r, p := Without(s, x), Position(s, x);
    forall y
      ensures y in r <==> y in s && y != x
    {
      if y in s && y != x {
        var i := Position(s, y);
        assert r[if i < p then i else i - 1] == y;
      }
    }
  }

  /** Unlinking keeps the order of all the others. */
  lemma WithoutKeepsOrder<T>(s: seq<T>, x: T, i: nat, j: nat)
    requires Distinct(s)
    requires i < j < |Without(s, x)|
    ensures Position(s, Without(s, x)[i]) < Position(s, Without(s, x)[j])
  {
    hide Position;
    var p := Position(s, x);
    PositionOfEntry(s, if i < p then i else i + 1);
    PositionOfEntry(s, if j < p then j else j + 1);
  }

  lemma PositionOfEntry<T>(s: seq<T>, i: nat)
    requires Distinct(s) && i < |s|
    ensures Position(s, s[i]) == i
  {
    hide Position;
    assert s[Position(s, s[i])] == s[i];
  }

  /** Unlinking undoes linking. */
  lemma WithoutLast<T>(s: seq<T>, x: T)
    requires x !in s
    ensures Without(s + [x], x) == s
  {
    hide Position;
    assert (s + [x])[|s|] == x;
  }

  /** What is at place `i` after unlinking. */
  lemma WithoutAt<T>(s: seq<T>, x: T, i: nat)
    requires i < |Without(s, x)|
    ensures |Without(s, x)| <= |s| && (x in s ==> |Without(s, x)| < |s|)
    ensures Without(s, x)[i] == s[if i < Position(s, x) then i else i + 1]
  {
    hide Position;
  }

  /** Linking keeps what was ahead of `x` and nothing of what was behind it. */
  lemma LinkedMembers<T>(s: seq<T>, x: T)
    requires Distinct(s)
    ensures Distinct(Linked(s, x))
    ensures forall y :: y in Linked(s, x) <==> y == x || (y in s && Position(s, y) < Position(s, x))
  {
    var r, p := Linked(s, x), Position(s, x);
    forall y
      ensures y in r <==> y == x || (y in s && Position(s, y) < p)
    {
      if y in s && Position(s, y) < p {
        assert r[Position(s, y)] == y;
      }
      assert r[p] == x;
    }
  }

  /** So linking loses no task exactly when `x` was on no list, or last on this one. */
  lemma LinkedLosesNobody<T>(s: seq<T>, x: T)
    requires Distinct(s)
    ensures (forall y :: y in s ==> y in Linked(s, x)) <==> (x !in s || s[|s| - 1] == x)
  {
    LinkedMembers(s, x);
    forall i | 0 <= i < |s|
      ensures Position(s, s[i]) == i
    {
      PositionOfEntry(s, i);
    }
    if x in s && s[|s| - 1] != x {
      assert s[|s| - 1] !in Linked(s, x);
    }
  }
}
