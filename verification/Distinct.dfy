/** First occurrences, as `dict.fromkeys` and "append if not in" keep them. */
module Distinct {
  import opened Ordering
  import opened Flattening

  /** What of `xs` is new after `seen`, in first-seen order. */
  function New<T(==)>(seen: seq<T>, xs: seq<T>): seq<T>
    decreases |xs|
  {
    if xs == [] then []
    else if xs[0] in seen then New(seen, xs[1..])
    else [xs[0]] + New(seen + [xs[0]], xs[1..])
  }

  function FirstSeen<T(==)>(xs: seq<T>): seq<T> {
    New([], xs)
  }

  lemma {:induction false} NewConcat<T>(seen: seq<T>, a: seq<T>, b: seq<T>)
    ensures New(seen, a + b) == New(seen, a) + New(seen + New(seen, a), b)
    decreases |a|
  {
    if a == [] {
      assert a + b == b;
      assert seen + [] == seen;
    } else {
      assert (a + b)[1..] == a[1..] + b;
      if a[0] in seen {
        NewConcat(seen, a[1..], b);
      } else {
        var first := [a[0]];
        NewConcat(seen + first, a[1..], b);
        Regroup(seen, first, New(seen + first, a[1..]));
      }
    }
  }

  lemma {:induction false} NewOne<T>(seen: seq<T>, a: seq<T>, x: T)
    ensures New(seen, a + [x]) == New(seen, a) + if x in seen + New(seen, a) then [] else [x]
  {
    NewConcat(seen, a, [x]);
    assert [x][1..] == [];
  }

  lemma {:induction false} NewIsNew<T>(seen: seq<T>, xs: seq<T>)
    ensures forall x :: x in New(seen, xs) <==> x in xs && x !in seen
    ensures NoDuplicates(New(seen, xs))
    decreases |xs|
  {
    if xs != [] {
      assert forall x :: x in xs <==> x == xs[0] || x in xs[1..];
      NewIsNew(seen, xs[1..]);
      NewIsNew(seen + [xs[0]], xs[1..]);
    }
  }

  /** Dropping repeats first changes nothing. */
  lemma {:induction false} NewOfNew<T>(seen: seq<T>, more: seq<T>, xs: seq<T>)
    requires forall x :: x in more ==> x in seen
    ensures New(seen, New(more, xs)) == New(seen, xs)
    decreases |xs|
  {
    if xs != [] {
      var x := xs[0];
      if x in more {
        NewOfNew(seen, more, xs[1..]);
      } else {
        var rest := New(more + [x], xs[1..]);
        assert ([x] + rest)[1..] == rest;
        if x in seen {
          NewOfNew(seen, more + [x], xs[1..]);
        } else {
          NewOfNew(seen + [x], more + [x], xs[1..]);
        }
      }
    }
  }

  function Elements<T(==)>(xs: seq<T>): set<T> {
    set x | x in xs
  }

  lemma {:induction false} DistinctCount<T>(xs: seq<T>)
    ensures |Elements(xs)| <= |xs|
    ensures NoDuplicates(xs) ==> |Elements(xs)| == |xs|
  {
    if xs != [] {
      DistinctCount(xs[1..]);
      assert Elements(xs) == {xs[0]} + Elements(xs[1..]);
    }
  }

  lemma SubsetIsSmaller<T>(a: set<T>, b: set<T>)
    requires a <= b
    ensures |a| <= |b|
  {
    assert b == a + (b - a);
  }

  /** Of distinct elements, at most as many were seen as there are seen ones. */
  lemma MostAreNew<T>(seen: seq<T>, xs: seq<T>)
    requires NoDuplicates(xs)
    ensures |New(seen, xs)| >= |xs| - |seen|
  {
    NewIsNew(seen, xs);
    var added := New(seen, xs);
    assert Elements(xs) <= Elements(seen) + Elements(added);
    SubsetIsSmaller(Elements(xs), Elements(seen) + Elements(added));
    DistinctCount(xs);
    DistinctCount(seen);
    DistinctCount(added);
  }

  function Capped<T>(xs: seq<T>, n: nat): seq<T> {
    if |xs| > n then xs[..n] else xs
  }

  lemma {:induction false} CappedPrefix<T>(xs: seq<T>, p: seq<T>, n: nat)
    requires p <= xs && (|p| >= n || p == xs)
    ensures Capped(p, n) == Capped(xs, n)
  {
  }

  /** First occurrences up to a cap, of two lists in turn, are those of what
      each of the two keeps under the same cap. */
  lemma CapsMerge<T>(a: seq<T>, b: seq<T>, n: nat)
    ensures Capped(FirstSeen(Capped(FirstSeen(a), n) + Capped(FirstSeen(b), n)), n) == Capped(FirstSeen(a + b), n)
  {
    var x, y := FirstSeen(a), FirstSeen(b);
    var z := Capped(y, n);
    NewIsNew([], a);
    NewIsNew([], b);
    NewConcat([], a, b);
    assert [] + x == x;
    if |x| >= n {
      CapFull(a, b, z, n);
    } else {
      NewOfNew([], [], a);
      NewConcat([], x, z);
      NewOfNew(x, [], b);
      CapRest(x, y, z, n);
    }
  }

  lemma CapFull<T>(a: seq<T>, b: seq<T>, z: seq<T>, n: nat)
    requires |FirstSeen(a)| >= n
    ensures Capped(FirstSeen(Capped(FirstSeen(a), n) + z), n) == Capped(FirstSeen(a + b), n)
  {
    var x := FirstSeen(a);
    var w := x[..n];
    assert Capped(x, n) == w;
    NewConcat([], a, b);
    NewConcat([], w, z);
    NewIsNew([], a);
    NewOfDistinct(w);
    CappedPrefix(FirstSeen(a + b), w, n);
    CappedPrefix(FirstSeen(w + z), w, n);
  }

  lemma NewOfDistinct<T>(xs: seq<T>)
    requires NoDuplicates(xs)
    ensures FirstSeen(xs) == xs
  {
    if xs != [] {
      var init, last := xs[..|xs| - 1], xs[|xs| - 1];
      NewOfDistinct(init);
      NewOne([], init, last);
      assert xs == init + [last];
      assert last !in [] + init;
    }
  }

  lemma CapRest<T>(x: seq<T>, y: seq<T>, z: seq<T>, n: nat)
    requires |x| < n && NoDuplicates(y) && z == Capped(y, n)
    ensures Capped(x + New(x, z), n) == Capped(x + New(x, y), n)
  {
    if |y| > n {
      NewConcat(x, y[..n], y[n..]);
      assert y == y[..n] + y[n..];
      MostAreNew(x, z);
      assert x + New(x, y) == (x + New(x, z)) + New(x + New(x, z), y[n..]);
      CappedPrefix(x + New(x, y), x + New(x, z), n);
    }
  }
}
