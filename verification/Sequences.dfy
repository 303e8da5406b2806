/** Small facts about sequences that the stores share. */
module Sequences {

  predicate Distinct<T(==)>(xs: seq<T>) {
    forall i, j | 0 <= i < j < |xs| :: xs[i] != xs[j]
  }

  /** The last `n` elements, or all when there are fewer. */
  function LastN<T>(xs: seq<T>, n: nat): seq<T> {
    if |xs| <= n then xs else xs[|xs| - n..]
  }

  lemma LastNAvoids<T>(xs: seq<T>, n: nat, x: T)
    requires forall i | 0 <= i < |xs| :: xs[i] != x
    ensures x !in LastN(xs, n)
  {
  }

  lemma LastNIs<T>(xs: seq<T>, n: nat)
    ensures |LastN(xs, n)| == (if |xs| <= n then |xs| else n)
    ensures forall i | 0 <= i < |LastN(xs, n)| :: LastN(xs, n)[i] == xs[|xs| - |LastN(xs, n)| + i]
  {
  }

  lemma LastNOfLastN<T>(xs: seq<T>, x: T, n: nat)
    requires n > 0
    ensures LastN(LastN(xs, n) + [x], n) == LastN(xs + [x], n)
  {
  }

  lemma LastNOfConcat<T>(xs: seq<T>, ys: seq<T>, n: nat)
    requires |ys| >= n
    ensures LastN(xs + ys, n) == LastN(ys, n)
  {
  }

  lemma DistinctSnoc<T>(xs: seq<T>, x: T)
    requires Distinct(xs) && x !in xs
    ensures Distinct(xs + [x])
  {
  }

  lemma DistinctParts<T>(xs: seq<T>, k: nat)
    requires Distinct(xs) && k <= |xs|
    ensures Distinct(xs[..k]) && Distinct(xs[k..])
    ensures forall x | x in xs[..k] :: x !in xs[k..]
  {
  }

  function Without<T(==)>(xs: seq<T>, x: T): seq<T> {
    if xs == [] then [] else (if xs[0] == x then [] else [xs[0]]) + Without(xs[1..], x)
  }

  lemma {:induction false} WithoutConcat<T>(xs: seq<T>, ys: seq<T>, x: T)
    ensures Without(xs + ys, x) == Without(xs, x) + Without(ys, x)
  {
    if xs == [] {
      assert xs + ys == ys;
    } else {
      assert (xs + ys)[1..] == xs[1..] + ys;
      WithoutConcat(xs[1..], ys, x);
    }
  }

  lemma WithoutSnoc<T>(xs: seq<T>, y: T, x: T)
    ensures Without(xs + [y], x) == Without(xs, x) + if y == x then [] else [y]
  {
    WithoutConcat(xs, [y], x);
    assert [y][1..] == [];
  }

  lemma {:induction false} WithoutMembers<T>(xs: seq<T>, x: T)
    ensures forall y :: y in Without(xs, x) <==> y in xs && y != x
    ensures |Without(xs, x)| <= |xs|
  {
    if xs != [] { WithoutMembers(xs[1..], x); }
  }

  lemma {:induction false} WithoutDistinct<T>(xs: seq<T>, x: T)
    requires Distinct(xs)
    ensures Distinct(Without(xs, x))
  {
    if xs != [] {
      WithoutDistinct(xs[1..], x);
      WithoutMembers(xs[1..], x);
      assert forall j | 0 <= j < |xs| - 1 :: xs[1..][j] == xs[j + 1];
      assert xs[0] !in xs[1..];
    }
  }

  lemma {:induction false} WithoutAbsent<T>(xs: seq<T>, x: T)
    requires x !in xs
    ensures Without(xs, x) == xs
  {
    if xs != [] { WithoutAbsent(xs[1..], x); }
  }

  /** Cutting the only occurrence out is dropping the element. */
  lemma {:induction false} RemoveAt<T>(xs: seq<T>, i: nat)
    requires i < |xs| && Distinct(xs)
    ensures Without(xs, xs[i]) == xs[..i] + xs[i + 1..]
  {
    var rest := xs[1..];
    DistinctParts(xs, 1);
    if i == 0 {
      assert xs[0] in xs[..1];
      WithoutAbsent(rest, xs[0]);
    } else {
      assert xs[0] in xs[..1] && rest[i - 1] == xs[i] && xs[i] in rest;
      RemoveAt(rest, i - 1);
      assert xs[..i] == [xs[0]] + rest[..i - 1] && xs[i + 1..] == rest[i..];
    }
  }

  method Position<T(==)>(xs: seq<T>, x: T) returns (i: nat)
    ensures i <= |xs| && x !in xs[..i]
    ensures i < |xs| ==> xs[i] == x
    ensures i == |xs| <==> x !in xs
  {
    i := 0;
    while i < |xs| && xs[i] != x
      invariant i <= |xs| && x !in xs[..i]
    {
      i := i + 1;
    }
    assert xs[..|xs|] == xs;
  }
}
