/** The first occurrences of a list, and what a second list adds to them. */
module FirstOccurrences {
  import opened DeduplicateStages

  /** What y adds to the first occurrences of x. */
  function Newer<T(==)>(x: seq<T>, y: seq<T>): seq<T> {
    if y == [] then []
    else
      var before, last := y[..|y| - 1], y[|y| - 1];
      Newer(x, before) + (if last in x || last in before then [] else [last])
  }

  lemma {:induction false} NewerSnoc<T>(x: seq<T>, y: seq<T>, e: T)
    ensures Newer(x, y + [e]) == Newer(x, y) + (if e in x || e in y then [] else [e])
  {
    assert (y + [e])[..|y|] == y;
  }

  lemma {:induction false} KeepFirstConcat<T>(x: seq<T>, y: seq<T>)
    ensures KeepFirst(x + y) == KeepFirst(x) + Newer(x, y)
  {
    if y == [] {
      assert x + y == x;
    } else {
      var before := y[..|y| - 1];
      KeepFirstConcat(x, before);
      assert (x + y)[..|x + y| - 1] == x + before;
    }
  }

  lemma {:induction false} NewerConcat<T>(x: seq<T>, y: seq<T>, z: seq<T>)
    ensures Newer(x, y + z) == Newer(x, y) + Newer(x + y, z)
  {
    if z == [] {
      assert y + z == y;
    } else {
      var before := z[..|z| - 1];
      NewerConcat(x, y, before);
      assert (y + z)[..|y + z| - 1] == y + before;
    }
  }

  lemma {:induction false} NewerSame<T>(x: seq<T>, y: seq<T>, z: seq<T>)
    requires forall e :: e in z ==> (e in x <==> e in y)
    ensures Newer(x, z) == Newer(y, z)
  {
    if z != [] {
      var before, last := z[..|z| - 1], z[|z| - 1];
      assert z == before + [last];
      NewerSame(x, y, before);
    }
  }

  lemma {:induction false} NewerMembers<T>(x: seq<T>, y: seq<T>, e: T)
    ensures e in Newer(x, y) <==> e in y && e !in x
  {
    if y != [] {
      var before, last := y[..|y| - 1], y[|y| - 1];
      assert y == before + [last];
      NewerMembers(x, before, e);
    }
  }

  /** Of a list whose members are all in x, except for the one at k at most, that one is added. */
  lemma {:induction false} NewerOnly<T>(x: seq<T>, y: seq<T>, k: nat)
    requires forall i :: 0 <= i < |y| && i != k ==> y[i] in x
    ensures Newer(x, y) == if k < |y| && y[k] !in x then [y[k]] else []
  {
    if y != [] {
      var before, last := y[..|y| - 1], y[|y| - 1];
      NewerOnly(x, before, k);
      if last in before {
        var i :| 0 <= i < |before| && before[i] == last;
        assert y[i] == last;
      }
    }
  }

  lemma {:induction false} KeepFirstApart<T>(xs: seq<T>)
    ensures forall i, j :: 0 <= i < j < |KeepFirst(xs)| ==> KeepFirst(xs)[i] != KeepFirst(xs)[j]
  {
    KeepFirstOrder(xs);
  }

  lemma {:induction false} KeepFirstOfApart<T>(xs: seq<T>)
    requires forall i, j :: 0 <= i < j < |xs| ==> xs[i] != xs[j]
    ensures KeepFirst(xs) == xs
  {
    if xs != [] {
      KeepFirstOfApart(xs[..|xs| - 1]);
    }
  }

  lemma {:induction false} KeptWith<T>(a: seq<T>, x: T, b: seq<T>)
    requires x !in a
    ensures KeepFirst(a + [x]) == KeepFirst(a) + [x]
    ensures KeepFirst(a + [x] + b) == KeepFirst(a) + [x] + Newer(a + [x], b)
  {
    assert (a + [x])[..|a|] == a;
    KeepFirstConcat(a + [x], b);
  }

  lemma {:induction false} KeptElsewhere<T>(a: seq<T>, x: T, b: seq<T>)
    requires x !in a && x !in b
    ensures x !in KeepFirst(a) && x !in Newer(a + [x], b)
  {
    KeepFirstMembers(a, x);
    NewerMembers(a + [x], b, x);
  }
}
