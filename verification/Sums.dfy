/** Totals that do not depend on the order things are added up in. */
module Sums {
  import opened Ordering

  function Sum(xs: seq<nat>): nat {
    if xs == [] then 0 else xs[0] + Sum(xs[1..])
  }

  function UpTo(n: nat): (r: seq<nat>)
    ensures |r| == n && forall i :: 0 <= i < n ==> r[i] == i
  {
    if n == 0 then [] else UpTo(n - 1) + [n - 1]
  }

  /** Each of the first `n` numbers, once, in any order. */
  predicate IsPermutation(order: seq<nat>, n: nat) {
    multiset(order) == multiset(UpTo(n))
  }

  lemma PermutationInRange(order: seq<nat>, n: nat)
    requires IsPermutation(order, n)
    ensures |order| == n && forall i :: 0 <= i < n ==> order[i] < n
  {
    SameMembers(UpTo(n), order);
    forall i | 0 <= i < n ensures order[i] < n {
      assert order[i] in order;
    }
  }

  function Picked(xs: seq<nat>, order: seq<nat>): (ys: seq<nat>)
    requires forall i :: 0 <= i < |order| ==> order[i] < |xs|
    ensures |ys| == |order|
  {
    seq(|order|, i requires 0 <= i < |order| => xs[order[i]])
  }

  lemma SumConcat(xs: seq<nat>, ys: seq<nat>)
    ensures Sum(xs + ys) == Sum(xs) + Sum(ys)
  {
    if xs == [] {
      assert xs + ys == ys;
    } else {
      assert (xs + ys)[1..] == xs[1..] + ys;
      SumConcat(xs[1..], ys);
    }
  }

  /** Taking one element out of a total. */
  lemma SumWithout(xs: seq<nat>, k: nat)
    requires k < |xs|
    ensures Sum(xs) == xs[k] + Sum(xs[..k] + xs[k + 1..])
  {
    assert xs == xs[..k] + ([xs[k]] + xs[k + 1..]);
    SumConcat(xs[..k], [xs[k]] + xs[k + 1..]);
    SumConcat(xs[..k], xs[k + 1..]);
    assert ([xs[k]] + xs[k + 1..])[1..] == xs[k + 1..];
  }

  /** Without its `k`th element. */
  function Without<T>(b: seq<T>, k: nat): (rest: seq<T>)
    requires k < |b|
    ensures multiset(rest) == multiset(b) - multiset{b[k]}
    ensures |rest| == |b| - 1
    ensures forall i :: 0 <= i < |rest| ==> rest[i] == b[if i < k then i else i + 1]
  {
    assert b == b[..k] + [b[k]] + b[k + 1..];
    b[..k] + b[k + 1..]
  }

  lemma PickedWithout(xs: seq<nat>, b: seq<nat>, k: nat)
    requires k < |b| && forall i :: 0 <= i < |b| ==> b[i] < |xs|
    ensures forall i :: 0 <= i < |Without(b, k)| ==> Without(b, k)[i] < |xs|
    ensures Sum(Picked(xs, b)) == xs[b[k]] + Sum(Picked(xs, Without(b, k)))
  {
    SumWithout(Picked(xs, b), k);
    assert Picked(xs, b)[..k] + Picked(xs, b)[k + 1..] == Picked(xs, Without(b, k));
  }

  /** Reordering what is picked does not change the total. */
  lemma {:induction false} SumReordered(xs: seq<nat>, a: seq<nat>, b: seq<nat>)
    requires multiset(a) == multiset(b)
    requires forall i :: 0 <= i < |a| ==> a[i] < |xs|
    requires forall i :: 0 <= i < |b| ==> b[i] < |xs|
    ensures Sum(Picked(xs, a)) == Sum(Picked(xs, b))
    decreases |a|
  {
    SameMembers(a, b);
    if a != [] {
      assert a[0] in b;
      var k :| 0 <= k < |b| && b[k] == a[0];
      PickedWithout(xs, a, 0);
      PickedWithout(xs, b, k);
      SumReordered(xs, Without(a, 0), Without(b, k));
    }
  }

  lemma SumPermuted(xs: seq<nat>, order: seq<nat>)
    requires IsPermutation(order, |xs|)
    ensures |order| == |xs| && (forall i :: 0 <= i < |order| ==> order[i] < |xs|)
    ensures Sum(Picked(xs, order)) == Sum(xs)
  {
    PermutationInRange(order, |xs|);
    SumReordered(xs, order, UpTo(|xs|));
    assert Picked(xs, UpTo(|xs|)) == xs;
  }

  lemma SumMonotone(xs: seq<nat>, ys: seq<nat>)
    requires |xs| == |ys| && forall i :: 0 <= i < |xs| ==> xs[i] <= ys[i]
    ensures Sum(xs) <= Sum(ys)
  {
    if xs != [] {
      SumMonotone(xs[1..], ys[1..]);
    }
  }

  function Added(xs: seq<nat>, ys: seq<nat>): (zs: seq<nat>)
    requires |xs| == |ys|
    ensures |zs| == |xs| && forall i :: 0 <= i < |xs| ==> zs[i] == xs[i] + ys[i]
  {
    seq(|xs|, i requires 0 <= i < |xs| => xs[i] + ys[i])
  }

  lemma {:induction false} SumAdded(xs: seq<nat>, ys: seq<nat>)
    requires |xs| == |ys|
    ensures Sum(Added(xs, ys)) == Sum(xs) + Sum(ys)
  {
    if xs != [] {
      SumAdded(xs[1..], ys[1..]);
      assert Added(xs, ys)[0] == xs[0] + ys[0];
      assert Added(xs, ys)[1..] == Added(xs[1..], ys[1..]);
    }
  }

  lemma SumBounded(xs: seq<nat>, c: nat)
    requires forall i :: 0 <= i < |xs| ==> xs[i] <= c
    ensures Sum(xs) <= |xs| * c
  {
    if xs != [] {
      SumBounded(xs[1..], c);
      assert |xs| * c == c + (|xs| - 1) * c;
    }
  }
}
