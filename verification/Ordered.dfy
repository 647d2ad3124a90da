/** First-occurrence de-duplication of a list (`list(dict.fromkeys(xs))`) and order-preserving filters. */
module Ordered {

  function Distinct<T(==, !new)>(xs: seq<T>): (ys: seq<T>)
    ensures forall x :: x in ys <==> x in xs
  {
    if xs == [] then []
    else
      var ys := Distinct(xs[..|xs| - 1]);
      var last := xs[|xs| - 1];
      assert xs == xs[..|xs| - 1] + [last];
      if last in ys then ys else ys + [last]
  }

  function Elements<T(==)>(xs: seq<T>): set<T> {
    set x | x in xs
  }

  predicate NoDuplicates<T(==, !new)>(xs: seq<T>) {
    forall i, j :: 0 <= i < j < |xs| ==> xs[i] != xs[j]
  }

  lemma {:induction false} DistinctNoDuplicates<T(!new)>(xs: seq<T>)
    ensures NoDuplicates(Distinct(xs))
  {
    if xs == [] {
    } else {
      DistinctNoDuplicates(xs[..|xs| - 1]);
    }
  }

  lemma {:induction false} DistinctFixpoint<T(!new)>(xs: seq<T>)
    requires NoDuplicates(xs)
    ensures Distinct(xs) == xs
  {
    if xs == [] {
    } else {
      DistinctFixpoint(xs[..|xs| - 1]);
      assert xs == xs[..|xs| - 1] + [xs[|xs| - 1]];
    }
  }

  /** The elements of `xs` outside `drop`, in order. */
  function Without<T(==, !new)>(xs: seq<T>, drop: set<T>): (ys: seq<T>)
    ensures forall x :: x in ys <==> x in xs && x !in drop
  {
    if xs == [] then []
    else
      var ys := Without(xs[..|xs| - 1], drop);
      var last := xs[|xs| - 1];
      assert xs == xs[..|xs| - 1] + [last];
      if last in drop then ys else ys + [last]
  }

  lemma Associates<T>(xs: seq<T>, ys: seq<T>, zs: seq<T>)
    ensures xs + (ys + zs) == (xs + ys) + zs
  {
  }

  lemma WithoutStep<T(!new)>(prefix: seq<T>, last: T, drop: set<T>)
    ensures Without(prefix + [last], drop) == Without(prefix, drop) + if last in drop then [] else [last]
  {
    assert (prefix + [last])[..|prefix|] == prefix;
  }

  lemma DistinctStep<T(!new)>(prefix: seq<T>, last: T)
    ensures Distinct(prefix + [last]) == Distinct(prefix) + if last in prefix then [] else [last]
  {
    assert (prefix + [last])[..|prefix|] == prefix;
  }

  lemma {:induction false} WithoutConcat<T(!new)>(xs: seq<T>, ys: seq<T>, drop: set<T>)
    ensures Without(xs + ys, drop) == Without(xs, drop) + Without(ys, drop)
  {
    if ys == [] {
      assert xs + ys == xs;
    } else {
      hide *;
      var prefix, last := ys[..|ys| - 1], ys[|ys| - 1];
      assert ys == prefix + [last];
      WithoutConcat(xs, prefix, drop);
      WithoutStep(prefix, last, drop);
      WithoutStep(xs + prefix, last, drop);
      Associates(xs, prefix, [last]);
      Associates(Without(xs, drop), Without(prefix, drop), if last in drop then [] else [last]);
    }
  }

  /** De-duplicating a concatenation: the first list de-duplicated, then what only the second one has. */
  lemma {:induction false} DistinctConcat<T(!new)>(xs: seq<T>, ys: seq<T>)
    ensures Distinct(xs + ys) == Distinct(xs) + Without(Distinct(ys), Elements(xs))
  {
    if ys == [] {
      assert xs + ys == xs;
    } else {
      var prefix, last := ys[..|ys| - 1], ys[|ys| - 1];
      assert last in xs + prefix <==> last in Elements(xs) || last in prefix;
      hide *;
      assert ys == prefix + [last];
      DistinctConcat(xs, prefix);
      DistinctStep(prefix, last);
      DistinctStep(xs + prefix, last);
      Associates(xs, prefix, [last]);
      var d := Distinct(prefix);
      if last in prefix {
        assert Distinct(ys) == d;
      } else {
        assert Distinct(ys) == d + [last];
        WithoutStep(d, last, Elements(xs));
        Associates(Distinct(xs), Without(d, Elements(xs)), if last in Elements(xs) then [] else [last]);
      }
    }
  }

  /** Dropping elements commutes with de-duplication. */
  lemma {:induction false} WithoutDistinct<T(!new)>(xs: seq<T>, drop: set<T>)
    ensures Without(Distinct(xs), drop) == Distinct(Without(xs, drop))
  {
    if xs == [] {
    } else {
      var prefix, last := xs[..|xs| - 1], xs[|xs| - 1];
      WithoutDistinct(prefix, drop);
      var d, w := Distinct(prefix), Without(prefix, drop);
      if last !in d {
        assert (d + [last])[..|d|] == d;
      }
      if last !in drop {
        assert (w + [last])[..|w|] == w;
      }
    }
  }
}
