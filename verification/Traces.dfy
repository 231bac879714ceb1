/** Reading a trace of observations. */
module Traces {
  import opened Sequences

  /** What the observations add up to. */
  function Sum<O>(tr: seq<O>, weight: O -> int): int {
    if tr == [] then 0 else Sum(tr[..|tr| - 1], weight) + weight(tr[|tr| - 1])
  }

  lemma SumNext<O>(tr: seq<O>, o: O, weight: O -> int)
    ensures Sum(tr + [o], weight) == Sum(tr, weight) + weight(o)
  {
    assert (tr + [o])[..|tr|] == tr;
  }

  lemma SumOne<O(!new)>(weight: O -> int)
    ensures Sum([], weight) == 0 && forall o: O :: Sum([o], weight) == weight(o)
  {
    forall o: O
      ensures Sum([o], weight) == weight(o)
    {
      assert [o][..0] == [];
    }
  }

  lemma {:induction false} SumConcat<O>(a: seq<O>, b: seq<O>, weight: O -> int)
    ensures Sum(a + b, weight) == Sum(a, weight) + Sum(b, weight)
  {
    if b == [] {
      assert a + b == a;
    } else {
      SumConcat(a, b[..|b| - 1], weight);
      assert (a + b)[..|a + b| - 1] == a + b[..|b| - 1];
    }
  }

  /** What `f` sees in the trace, in order. */
  function Pick<O, T>(tr: seq<O>, f: O -> Option<T>): seq<T> {
    if tr == [] then []
    else
      var x := f(tr[|tr| - 1]);
      Pick(tr[..|tr| - 1], f) + if x.Some? then [x.value] else []
  }

  lemma PickOne<O, T>(o: O, f: O -> Option<T>)
    ensures Pick([], f) == [] && Pick([o], f) == if f(o).Some? then [f(o).value] else []
  {
    assert [o][..0] == [];
  }

  lemma {:induction false} PickConcat<O, T>(a: seq<O>, b: seq<O>, f: O -> Option<T>)
    ensures Pick(a + b, f) == Pick(a, f) + Pick(b, f)
  {
    if b == [] {
      assert a + b == a;
    } else {
      PickConcat(a, b[..|b| - 1], f);
      assert (a + b)[..|a + b| - 1] == a + b[..|b| - 1];
    }
  }
}
