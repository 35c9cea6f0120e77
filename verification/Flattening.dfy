/** Sequences of sequences, end to end. */
module Flattening {

  function Flattened<T>(parts: seq<seq<T>>): seq<T> {
    if parts == [] then [] else Flattened(parts[..|parts| - 1]) + parts[|parts| - 1]
  }

  lemma Regroup<T>(a: seq<T>, b: seq<T>, c: seq<T>)
    ensures (a + b) + c == a + (b + c)
  {
  }

  lemma FlattenOne<T>(parts: seq<seq<T>>, n: nat)
    requires n < |parts|
    ensures Flattened(parts[..n + 1]) == Flattened(parts[..n]) + parts[n]
  {
    assert parts[..n + 1][..n] == parts[..n];
  }

  lemma {:induction false} FlattenNothing<T>(parts: seq<seq<T>>, from: nat, to: nat)
    requires from <= to <= |parts| && forall i :: from <= i < to ==> parts[i] == []
    ensures Flattened(parts[..to]) == Flattened(parts[..from])
  {
    if from < to {
      FlattenNothing(parts, from, to - 1);
      FlattenOne(parts, to - 1);
    }
  }

  lemma {:induction false} FlattenConcat<T>(a: seq<seq<T>>, b: seq<seq<T>>)
    ensures Flattened(a + b) == Flattened(a) + Flattened(b)
  {
    if b == [] {
      assert a + b == a;
    } else {
      var init, last := b[..|b| - 1], b[|b| - 1];
      FlattenConcat(a, init);
      assert (a + b)[..|a + b| - 1] == a + init;
      Regroup(Flattened(a), Flattened(init), last);
    }
  }

  lemma FlattenCons<T>(first: seq<T>, rest: seq<seq<T>>)
    ensures Flattened([first] + rest) == first + Flattened(rest)
  {
    FlattenConcat([first], rest);
    FlattenOne([first], 0);
    assert [first][..1] == [first];
  }

  /** What a part holds, the whole holds. */
  lemma {:induction false} FlattenHolds<T>(parts: seq<seq<T>>, i: nat, x: T)
    requires i < |parts| && x in parts[i]
    ensures x in Flattened(parts)
  {
    if i < |parts| - 1 {
      FlattenHolds(parts[..|parts| - 1], i, x);
    }
  }

  /** What the whole holds, some part holds. */
  lemma {:induction false} FlattenFrom<T>(parts: seq<seq<T>>, x: T) returns (i: nat)
    requires x in Flattened(parts)
    ensures i < |parts| && x in parts[i]
  {
    if x in parts[|parts| - 1] {
      i := |parts| - 1;
    } else {
      i := FlattenFrom(parts[..|parts| - 1], x);
    }
  }
}
