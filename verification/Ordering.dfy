/** Sorting, as `sorted(xs, key=...)` does it: a stable insertion sort over a
    total preorder, with what its callers rely on. */
module Ordering {

  ghost predicate TotalPreorder<T(!new)>(le: (T, T) -> bool) {
    && (forall a, b :: le(a, b) || le(b, a))
    && (forall a, b, c :: le(a, b) && le(b, c) ==> le(a, c))
  }

  /** `le` tells the elements of `xs` apart. */
  ghost predicate Separates<T(!new)>(le: (T, T) -> bool, xs: seq<T>) {
    forall a, b :: a in xs && b in xs && le(a, b) && le(b, a) ==> a == b
  }

  predicate SortedBy<T>(le: (T, T) -> bool, xs: seq<T>) {
    forall i, j :: 0 <= i < j < |xs| ==> le(xs[i], xs[j])
  }

  predicate NoDuplicates<T(==)>(xs: seq<T>) {
    forall i, j :: 0 <= i < j < |xs| ==> xs[i] != xs[j]
  }

  function Insert<T>(le: (T, T) -> bool, x: T, xs: seq<T>): (r: seq<T>)
    ensures multiset(r) == multiset([x]) + multiset(xs)
  {
    if xs == [] || le(x, xs[0]) then [x] + xs
    else
      assert xs == [xs[0]] + xs[1..];
      [xs[0]] + Insert(le, x, xs[1..])
  }

  function Sort<T>(le: (T, T) -> bool, xs: seq<T>): (r: seq<T>)
    ensures multiset(r) == multiset(xs)
    ensures |r| == |xs|
  {
    if xs == [] then []
    else
      assert xs == [xs[0]] + xs[1..];
      var r := Insert(le, xs[0], Sort(le, xs[1..]));
      assert |r| == |multiset(r)| == |multiset(xs)| == |xs|;
      r
  }

  lemma SameMembers<T>(xs: seq<T>, ys: seq<T>)
    requires multiset(xs) == multiset(ys)
    ensures |xs| == |ys|
    ensures forall x :: x in xs <==> x in ys
  {
    assert |multiset(xs)| == |xs| && |multiset(ys)| == |ys|;
    forall x ensures x in xs <==> x in ys {
      assert x in xs <==> x in multiset(xs);
      assert x in ys <==> x in multiset(ys);
    }
  }

  lemma {:induction false} InsertSorted<T(!new)>(le: (T, T) -> bool, x: T, xs: seq<T>)
    requires TotalPreorder(le) && SortedBy(le, xs)
    ensures SortedBy(le, Insert(le, x, xs))
  {
    if xs == [] {
    } else if le(x, xs[0]) {
      forall j | 0 <= j < |xs| ensures le(x, xs[j]) {
        assert j == 0 || le(xs[0], xs[j]);
      }
    } else {
      InsertSorted(le, x, xs[1..]);
      var rest := Insert(le, x, xs[1..]);
      SameMembers(rest, [x] + xs[1..]);
      forall j | 0 <= j < |rest| ensures le(xs[0], rest[j]) {
        assert rest[j] in [x] + xs[1..];
      }
    }
  }

  lemma {:induction false} SortSorts<T(!new)>(le: (T, T) -> bool, xs: seq<T>)
    requires TotalPreorder(le)
    ensures SortedBy(le, Sort(le, xs))
  {
    if xs != [] {
      SortSorts(le, xs[1..]);
      InsertSorted(le, xs[0], Sort(le, xs[1..]));
    }
  }

  lemma SameHead<T(!new)>(le: (T, T) -> bool, xs: seq<T>, ys: seq<T>)
    requires xs != [] && ys != []
    requires SortedBy(le, xs) && SortedBy(le, ys)
    requires xs[0] in ys && ys[0] in xs
    requires Separates(le, xs)
    ensures xs[0] == ys[0]
  {
    var i :| 0 <= i < |xs| && xs[i] == ys[0];
    var j :| 0 <= j < |ys| && ys[j] == xs[0];
    if i > 0 && j > 0 {
      assert le(xs[0], xs[i]) && le(ys[0], ys[j]);
    }
  }

  lemma TailMultiset<T>(xs: seq<T>)
    requires xs != []
    ensures multiset(xs[1..]) == multiset(xs) - multiset{xs[0]}
  {
    assert xs == [xs[0]] + xs[1..];
  }

  /** Two sorted arrangements of the same elements are the same sequence, when
      the order tells the elements apart. */
  lemma {:induction false} SortedIsUnique<T(!new)>(le: (T, T) -> bool, xs: seq<T>, ys: seq<T>)
    requires multiset(xs) == multiset(ys)
    requires SortedBy(le, xs) && SortedBy(le, ys)
    requires Separates(le, xs)
    ensures xs == ys
  {
    SameMembers(xs, ys);
    if xs != [] {
      SameHead(le, xs, ys);
      TailMultiset(xs);
      TailMultiset(ys);
      assert SortedBy(le, xs[1..]) && SortedBy(le, ys[1..]);
      assert Separates(le, xs[1..]) by {
        assert forall a :: a in xs[1..] ==> a in xs;
      }
      SortedIsUnique(le, xs[1..], ys[1..]);
      assert xs == [xs[0]] + xs[1..] && ys == [ys[0]] + ys[1..];
    }
  }

  /** Sorting forgets the order its input arrived in. */
  lemma SortIgnoresArrival<T(!new)>(le: (T, T) -> bool, xs: seq<T>, ys: seq<T>)
    requires TotalPreorder(le) && multiset(xs) == multiset(ys) && Separates(le, xs)
    ensures Sort(le, xs) == Sort(le, ys)
  {
    SortSorts(le, xs);
    SortSorts(le, ys);
    SameMembers(xs, Sort(le, xs));
    SortedIsUnique(le, Sort(le, xs), Sort(le, ys));
  }

  lemma SortKeepsSorted<T(!new)>(le: (T, T) -> bool, xs: seq<T>)
    requires SortedBy(le, xs)
    ensures Sort(le, xs) == xs
  {
    if xs != [] {
      SortKeepsSorted(le, xs[1..]);
      assert |xs| > 1 ==> le(xs[0], xs[1]);
    }
  }

  lemma DistinctSameMultiset<T>(xs: seq<T>, ys: seq<T>)
    requires NoDuplicates(xs) && multiset(xs) == multiset(ys)
    ensures NoDuplicates(ys)
  {
    SameMembers(xs, ys);
    forall i, j | 0 <= i < j < |ys| ensures ys[i] != ys[j] {
      if ys[i] == ys[j] {
        var y := ys[i];
        assert ys == ys[..j] + [y] + ys[j + 1..];
        assert y in ys[..j] by { assert ys[..j][i] == y; }
        assert multiset(ys)[y] >= 2;
        NoDuplicatesCount(xs, y);
        assert false;
      }
    }
  }

  lemma NoDuplicatesCount<T>(xs: seq<T>, y: T)
    requires NoDuplicates(xs)
    ensures multiset(xs)[y] <= 1
  {
    if xs != [] {
      assert xs == [xs[0]] + xs[1..];
      NoDuplicatesCount(xs[1..], y);
      if xs[0] == y { assert y !in xs[1..]; }
    }
  }
}
