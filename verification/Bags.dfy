/** Multisets collected over sequences: the arithmetic of "nothing is lost, nothing is invented". */
module Bags {

  datatype Option<+T> = None | Some(value: T)

  /** The multiset sum of `f` over all elements of `xs`. */
  ghost function Sum<T(!new), K(!new)>(xs: seq<T>, f: T -> multiset<K>): multiset<K> {
    if xs == [] then multiset{} else f(xs[0]) + Sum(xs[1..], f)
  }

  lemma {:induction false} SumAppend<T(!new), K(!new)>(xs: seq<T>, ys: seq<T>, f: T -> multiset<K>)
    ensures Sum(xs + ys, f) == Sum(xs, f) + Sum(ys, f)
  {
    if xs == [] {
      assert xs + ys == ys;
    } else {
      assert (xs + ys)[1..] == xs[1..] + ys;
      SumAppend(xs[1..], ys, f);
    }
  }

  lemma SumOne<T(!new), K(!new)>(x: T, f: T -> multiset<K>)
    ensures Sum([x], f) == f(x)
  {
  }

  /** Appending one element adds its contribution. */
  lemma SumPush<T(!new), K(!new)>(xs: seq<T>, x: T, f: T -> multiset<K>)
    ensures Sum(xs + [x], f) == Sum(xs, f) + f(x)
  {
    SumAppend(xs, [x], f);
    SumOne(x, f);
  }

  /** Taking one element out of the middle. */
  lemma SumSplit<T(!new), K(!new)>(xs: seq<T>, i: nat, f: T -> multiset<K>)
    requires i < |xs|
    ensures Sum(xs, f) == Sum(xs[..i], f) + f(xs[i]) + Sum(xs[i + 1..], f)
  {
    var left, rest := xs[..i], xs[i..];
    assert xs == left + rest;
    SumAppend(left, rest, f);
    assert rest[0] == xs[i] && rest[1..] == xs[i + 1..];
    assert Sum(left, f) + (f(xs[i]) + Sum(rest[1..], f)) == Sum(left, f) + f(xs[i]) + Sum(rest[1..], f);
  }

  /** Overwriting one element exchanges its contribution. */
  lemma SumUpdate<T(!new), K(!new)>(xs: seq<T>, i: nat, y: T, f: T -> multiset<K>)
    requires i < |xs|
    ensures Sum(xs[i := y], f) + f(xs[i]) == Sum(xs, f) + f(y)
  {
    var ys := xs[i := y];
    SumSplit(xs, i, f);
    SumSplit(ys, i, f);
    assert ys[..i] == xs[..i] && ys[i + 1..] == xs[i + 1..];
  }

  /** An element of the sum comes from some element of the sequence. */
  lemma {:induction false} SumOrigin<T(!new), K(!new)>(xs: seq<T>, f: T -> multiset<K>, k: K) returns (i: nat)
    requires k in Sum(xs, f)
    ensures i < |xs| && k in f(xs[i])
  {
    if k in f(xs[0]) {
      i := 0;
    } else {
      var j := SumOrigin(xs[1..], f, k);
      i := j + 1;
    }
  }

  /** The sum of `f` over all elements of `xs`. */
  function Total<T>(xs: seq<T>, f: T -> nat): nat {
    if xs == [] then 0 else f(xs[0]) + Total(xs[1..], f)
  }

  lemma {:induction false} TotalUpdate<T>(xs: seq<T>, i: nat, y: T, f: T -> nat)
    requires i < |xs|
    ensures Total(xs[i := y], f) + f(xs[i]) == Total(xs, f) + f(y)
  {
    if i == 0 {
      assert xs[0 := y][1..] == xs[1..];
    } else {
      assert xs[i := y][1..] == xs[1..][i - 1 := y];
      TotalUpdate(xs[1..], i - 1, y, f);
    }
  }
}
