/** How writes made in one superstep fold into the run's state (`agents/state.py`). */
module Reducers {
  import opened Wrappers
  import opened Schemas

  // --- merge_by_id ---------------------------------------------------------------

  /** Where an item with this id is in a list, as a dictionary keyed by id has it. */
  function IndexOf<T>(idOf: T -> Id, items: seq<T>, id: Id): (i: Option<nat>)
    ensures i.Some? ==> i.value < |items| && idOf(items[i.value]) == id
    ensures i.None? ==> forall k :: 0 <= k < |items| ==> idOf(items[k]) != id
  {
    if items == [] then None
    else if idOf(items[|items| - 1]) == id then Some(|items| - 1)
    else IndexOf(idOf, items[..|items| - 1], id)
  }

  /** Assignment under the item's id: in place if the id is there, else at the
      end. */
  function Put<T>(idOf: T -> Id, items: seq<T>, item: T): seq<T> {
    var at := IndexOf(idOf, items, idOf(item));
    if at.Some? then items[at.value := item] else items + [item]
  }

  function PutAll<T>(idOf: T -> Id, items: seq<T>, more: seq<T>): seq<T> {
    if more == [] then items
    else Put(idOf, PutAll(idOf, items, more[..|more| - 1]), more[|more| - 1])
  }

  function MergedById<T>(idOf: T -> Id, left: seq<T>, right: seq<T>): seq<T> {
    PutAll(idOf, PutAll(idOf, [], left), right)
  }

  predicate UniqueIds<T>(idOf: T -> Id, items: seq<T>) {
    forall i, j :: 0 <= i < j < |items| ==> idOf(items[i]) != idOf(items[j])
  }

  /** The item with this id, if there is one. */
  function Lookup<T>(idOf: T -> Id, items: seq<T>, id: Id): Option<T> {
    var i := IndexOf(idOf, items, id);
    if i.Some? then Some(items[i.value]) else None
  }

  /** Later versions of the same rows: each item keeps its place and its id. */
  predicate Extends<T>(idOf: T -> Id, before: seq<T>, after: seq<T>) {
    |before| <= |after| && forall i :: 0 <= i < |before| ==> idOf(after[i]) == idOf(before[i])
  }

  lemma LookupUnique<T>(idOf: T -> Id, items: seq<T>, i: nat)
    requires UniqueIds(idOf, items) && i < |items|
    ensures Lookup(idOf, items, idOf(items[i])) == Some(items[i])
  {
  }

  lemma PutKeeps<T>(idOf: T -> Id, items: seq<T>, item: T)
    requires UniqueIds(idOf, items)
    ensures UniqueIds(idOf, Put(idOf, items, item))
    ensures Extends(idOf, items, Put(idOf, items, item))
    ensures forall x :: x in Put(idOf, items, item) ==> x == item || x in items
    ensures item in Put(idOf, items, item)
    ensures forall x :: x in items && idOf(x) != idOf(item) ==> x in Put(idOf, items, item)
  {
    var at := IndexOf(idOf, items, idOf(item));
    var next := Put(idOf, items, item);
    if at.Some? {
      assert next[at.value] == item;
      forall x | x in items && idOf(x) != idOf(item) ensures x in next {
        var k :| 0 <= k < |items| && items[k] == x;
        assert next[k] == x;
      }
    } else {
      assert next[|items|] == item;
      forall x | x in items ensures x in next {
        var k :| 0 <= k < |items| && items[k] == x;
        assert next[k] == x;
      }
    }
  }

  /** Folding writes keeps ids unique and existing rows in place, and every row
      of the result was there before or was written. */
  lemma {:induction false} PutAllKeeps<T>(idOf: T -> Id, items: seq<T>, more: seq<T>)
    requires UniqueIds(idOf, items)
    ensures UniqueIds(idOf, PutAll(idOf, items, more))
    ensures Extends(idOf, items, PutAll(idOf, items, more))
    ensures forall x :: x in PutAll(idOf, items, more) ==> x in items || x in more
    ensures forall x :: x in items && (forall y :: y in more ==> idOf(y) != idOf(x)) ==> x in PutAll(idOf, items, more)
  {
    if more != [] {
      var init, last := more[..|more| - 1], more[|more| - 1];
      assert more == init + [last];
      PutAllKeeps(idOf, items, init);
      PutKeeps(idOf, PutAll(idOf, items, init), last);
    }
  }

  /** The rewritten list has the ids of both, and the written version wins. */
  lemma {:induction false} PutAllWins<T>(idOf: T -> Id, items: seq<T>, more: seq<T>)
    requires UniqueIds(idOf, items) && UniqueIds(idOf, more)
    ensures forall y :: y in more ==> y in PutAll(idOf, items, more)
  {
    if more != [] {
      var init, last := more[..|more| - 1], more[|more| - 1];
      assert more == init + [last];
      PutAllWins(idOf, items, init);
      PutAllKeeps(idOf, items, init);
      PutKeeps(idOf, PutAll(idOf, items, init), last);
      forall y | y in init ensures idOf(y) != idOf(last) {
        var k :| 0 <= k < |init| && init[k] == y;
        assert more[k] == y;
      }
    }
  }

  lemma {:induction false} PutAllUnique<T>(idOf: T -> Id, items: seq<T>)
    requires UniqueIds(idOf, items)
    ensures PutAll(idOf, [], items) == items
  {
    if items != [] {
      var init := items[..|items| - 1];
      PutAllUnique(idOf, init);
      assert items == init + [items[|items| - 1]];
    }
  }

  // --- a dictionary keyed by id ----------------------------------------------------

  /** What a dictionary that keeps its keys in the order they came holds, as a
      list. */
  ghost predicate Holds<T>(idOf: T -> Id, order: seq<Id>, values: map<Id, T>, items: seq<T>) {
    && |order| == |items| && UniqueIds(idOf, items)
    && (forall i :: 0 <= i < |items| ==> order[i] == idOf(items[i]))
    && (forall i :: 0 <= i < |items| ==> order[i] in values && values[order[i]] == items[i])
    && (forall id :: id in values ==> id in order)
  }

  lemma HoldsIndex<T>(idOf: T -> Id, order: seq<Id>, values: map<Id, T>, items: seq<T>, id: Id)
    requires Holds(idOf, order, values, items)
    ensures id in values <==> IndexOf(idOf, items, id).Some?
  {
    if id in values {
      var i :| 0 <= i < |order| && order[i] == id;
      assert idOf(items[i]) == id;
    }
  }

  lemma HoldsPut<T>(idOf: T -> Id, order: seq<Id>, values: map<Id, T>, items: seq<T>, item: T)
    requires Holds(idOf, order, values, items)
    ensures Holds(idOf, if idOf(item) in values then order else order + [idOf(item)], values[idOf(item) := item], Put(idOf, items, item))
  {
    HoldsIndex(idOf, order, values, items, idOf(item));
    PutKeeps(idOf, items, item);
  }

  /** One more assignment to the dictionary. */
  method Assign<T>(idOf: T -> Id, order: seq<Id>, values: map<Id, T>, item: T, ghost items: seq<T>)
    returns (order': seq<Id>, values': map<Id, T>)
    requires Holds(idOf, order, values, items)
    ensures Holds(idOf, order', values', Put(idOf, items, item))
  {
    HoldsPut(idOf, order, values, items, item);
    order' := if idOf(item) in values then order else order + [idOf(item)];
    values' := values[idOf(item) := item];
  }

  /** The dictionary's values, in the order of its keys. */
  function ValuesOf<T>(order: seq<Id>, values: map<Id, T>): (items: seq<T>)
    requires forall i :: 0 <= i < |order| ==> order[i] in values
    ensures |items| == |order|
  {
    seq(|order|, i requires 0 <= i < |order| => values[order[i]])
  }

  method MergeById<T>(idOf: T -> Id, left: seq<T>, right: seq<T>) returns (merged: seq<T>)
    ensures merged == MergedById(idOf, left, right)
  {
    var order: seq<Id>, values: map<Id, T> := [], map[];
    for i := 0 to |left|
      invariant Holds(idOf, order, values, PutAll(idOf, [], left[..i]))
    {
      assert left[..i + 1][..i] == left[..i];
      order, values := Assign(idOf, order, values, left[i], PutAll(idOf, [], left[..i]));
    }
    assert left[..|left|] == left;
    for i := 0 to |right|
      invariant Holds(idOf, order, values, PutAll(idOf, PutAll(idOf, [], left), right[..i]))
    {
      assert right[..i + 1][..i] == right[..i];
      order, values := Assign(idOf, order, values, right[i], PutAll(idOf, PutAll(idOf, [], left), right[..i]));
    }
    assert right[..|right|] == right;
    merged := ValuesOf(order, values);
  }

  // --- what is written last ----------------------------------------------------------

  /** Assignments one after another, where each may come to nothing. */
  function PutGiven<T>(idOf: T -> Id, given: seq<Option<T>>): seq<T> {
    if given == [] then []
    else
      var before, last := PutGiven(idOf, given[..|given| - 1]), given[|given| - 1];
      if last.None? then before else Put(idOf, before, last.value)
  }

  /** The `i`th gives `x`, and no later one writes over it. */
  predicate GivenLast<T(==)>(idOf: T -> Id, given: seq<Option<T>>, i: int, x: T) {
    && 0 <= i < |given| && given[i] == Some(x)
    && forall j :: i < j < |given| && given[j].Some? ==> idOf(given[j].value) != idOf(x)
  }

  lemma PutHas<T>(idOf: T -> Id, items: seq<T>, item: T)
    requires UniqueIds(idOf, items)
    ensures UniqueIds(idOf, Put(idOf, items, item))
    ensures forall x :: x in Put(idOf, items, item) <==> x == item || (x in items && idOf(x) != idOf(item))
  {
    PutKeeps(idOf, items, item);
    var next := Put(idOf, items, item);
    forall x | x in next && x != item ensures idOf(x) != idOf(item) {
      var i :| 0 <= i < |next| && next[i] == x;
      var k :| 0 <= k < |next| && next[k] == item;
      assert i < k || k < i;
    }
  }

  lemma PutKeepsIds<T>(idOf: T -> Id, items: seq<T>, item: T)
    requires UniqueIds(idOf, items)
    ensures IndexOf(idOf, Put(idOf, items, item), idOf(item)).Some?
    ensures forall id :: IndexOf(idOf, items, id).Some? ==> IndexOf(idOf, Put(idOf, items, item), id).Some?
  {
    PutKeeps(idOf, items, item);
    var next := Put(idOf, items, item);
    var k :| 0 <= k < |next| && next[k] == item;
    forall id | IndexOf(idOf, items, id).Some? ensures IndexOf(idOf, next, id).Some? {
      var i := IndexOf(idOf, items, id).value;
      assert idOf(next[i]) == id;
    }
  }

  lemma GivenOneMore<T>(idOf: T -> Id, given: seq<Option<T>>, x: T)
    requires given != []
    ensures var init, last := given[..|given| - 1], given[|given| - 1];
            (exists i :: GivenLast(idOf, given, i, x)) <==>
              last == Some(x) || ((last.Some? ==> idOf(last.value) != idOf(x)) && exists i :: GivenLast(idOf, init, i, x))
  {
    var init, last := given[..|given| - 1], given[|given| - 1];
    if i :| GivenLast(idOf, given, i, x) {
      if i < |init| {
        assert init[i] == given[i];
        assert forall j :: i < j < |init| ==> init[j] == given[j];
        assert GivenLast(idOf, init, i, x);
      }
    }
    if last == Some(x) {
      assert GivenLast(idOf, given, |given| - 1, x);
    } else if (last.Some? ==> idOf(last.value) != idOf(x)) && exists i :: GivenLast(idOf, init, i, x) {
      var i :| GivenLast(idOf, init, i, x);
      assert forall j :: i < j < |init| ==> init[j] == given[j];
      assert GivenLast(idOf, given, i, x);
    }
  }

  /** What is held in the end is exactly what was written last under each id. */
  lemma {:induction false} LastGivenIsHeld<T>(idOf: T -> Id, given: seq<Option<T>>)
    ensures UniqueIds(idOf, PutGiven(idOf, given))
    ensures forall x :: x in PutGiven(idOf, given) <==> exists i :: GivenLast(idOf, given, i, x)
    ensures forall i :: 0 <= i < |given| && given[i].Some? ==>
              IndexOf(idOf, PutGiven(idOf, given), idOf(given[i].value)).Some?
  {
    if given != [] {
      var init, last := given[..|given| - 1], given[|given| - 1];
      LastGivenIsHeld(idOf, init);
      if last.Some? {
        PutHas(idOf, PutGiven(idOf, init), last.value);
        PutKeepsIds(idOf, PutGiven(idOf, init), last.value);
      }
      assert forall i :: 0 <= i < |init| ==> init[i] == given[i];
      forall x ensures x in PutGiven(idOf, given) <==> exists i :: GivenLast(idOf, given, i, x) {
        GivenOneMore(idOf, given, x);
      }
    }
  }

  // --- merge_sources --------------------------------------------------------------

  function SourceIdOf(ref: SourceRef): Id {
    ref.sourceId
  }

  /** Whether a source is among those retrieved. */
  predicate Retrieved(sources: seq<SourceRef>, sourceId: Id) {
    IndexOf(SourceIdOf, sources, sourceId).Some?
  }

  /** An entry for a source that has none yet. */
  function SetDefault(sources: seq<SourceRef>, ref: SourceRef): seq<SourceRef> {
    if IndexOf(SourceIdOf, sources, ref.sourceId).Some? then sources else sources + [ref]
  }

  function SetDefaults(sources: seq<SourceRef>, more: seq<SourceRef>): seq<SourceRef> {
    if more == [] then sources
    else SetDefault(SetDefaults(sources, more[..|more| - 1]), more[|more| - 1])
  }

  function MergedSources(left: seq<SourceRef>, right: seq<SourceRef>): seq<SourceRef> {
    SetDefaults([], left + right)
  }

  lemma HoldsSetDefault(order: seq<Id>, values: map<Id, SourceRef>, sources: seq<SourceRef>, ref: SourceRef)
    requires Holds(SourceIdOf, order, values, sources)
    ensures ref.sourceId in values ==> SetDefault(sources, ref) == sources
    ensures ref.sourceId !in values ==>
              Holds(SourceIdOf, order + [ref.sourceId], values[ref.sourceId := ref], SetDefault(sources, ref))
  {
    HoldsIndex(SourceIdOf, order, values, sources, ref.sourceId);
  }

  method MergeSources(left: seq<SourceRef>, right: seq<SourceRef>) returns (merged: seq<SourceRef>)
    ensures merged == MergedSources(left, right)
  {
    var items := left + right;
    var order: seq<Id>, values: map<Id, SourceRef> := [], map[];
    for i := 0 to |items|
      invariant Holds(SourceIdOf, order, values, SetDefaults([], items[..i]))
    {
      assert items[..i + 1] == items[..i] + [items[i]];
      SetDefaultsOne([], items[..i], items[i]);
      HoldsSetDefault(order, values, SetDefaults([], items[..i]), items[i]);
      if items[i].sourceId !in values {
        order := order + [items[i].sourceId];
        values := values[items[i].sourceId := items[i]];
      }
    }
    assert items[..|items|] == items;
    merged := ValuesOf(order, values);
  }

  lemma SetDefaultsOne(sources: seq<SourceRef>, more: seq<SourceRef>, ref: SourceRef)
    ensures SetDefaults(sources, more + [ref]) == SetDefault(SetDefaults(sources, more), ref)
  {
    assert (more + [ref])[..|more|] == more;
  }

  lemma LastOfJoined<T>(a: seq<T>, b: seq<T>)
    requires b != []
    ensures b == b[..|b| - 1] + [b[|b| - 1]] && a + b == (a + b[..|b| - 1]) + [b[|b| - 1]]
  {
  }

  lemma {:induction false} SetDefaultsConcat(sources: seq<SourceRef>, a: seq<SourceRef>, b: seq<SourceRef>)
    ensures SetDefaults(sources, a + b) == SetDefaults(SetDefaults(sources, a), b)
  {
    if b == [] {
      assert a + b == a;
    } else {
      var init, last := b[..|b| - 1], b[|b| - 1];
      SetDefaultsConcat(sources, a, init);
      SetDefaultsOne(sources, a + init, last);
      SetDefaultsOne(SetDefaults(sources, a), init, last);
      LastOfJoined(a, b);
    }
  }

  lemma {:induction false} SetDefaultsUnique(sources: seq<SourceRef>)
    requires UniqueIds(SourceIdOf, sources)
    ensures SetDefaults([], sources) == sources
  {
    if sources != [] {
      var init := sources[..|sources| - 1];
      SetDefaultsUnique(init);
      assert sources == init + [sources[|sources| - 1]];
    }
  }

  /** Sources are only added, one entry each; the first report of one stands. */
  lemma {:induction false} SetDefaultsGrow(sources: seq<SourceRef>, more: seq<SourceRef>)
    requires UniqueIds(SourceIdOf, sources)
    ensures UniqueIds(SourceIdOf, SetDefaults(sources, more))
    ensures sources <= SetDefaults(sources, more)
    ensures |SetDefaults(sources, more)| <= |sources| + |more|
    ensures forall x :: x in SetDefaults(sources, more) ==> x in sources || x in more
  {
    if more != [] {
      var init, last := more[..|more| - 1], more[|more| - 1];
      assert more == init + [last];
      SetDefaultsGrow(sources, init);
    }
  }

  lemma MergedSourcesGrow(left: seq<SourceRef>, right: seq<SourceRef>)
    requires UniqueIds(SourceIdOf, left)
    ensures UniqueIds(SourceIdOf, MergedSources(left, right))
    ensures left <= MergedSources(left, right)
    ensures |MergedSources(left, right)| <= |left| + |right|
    ensures forall x :: x in MergedSources(left, right) ==> x in left || x in right
  {
    SetDefaultsConcat([], left, right);
    SetDefaultsUnique(left);
    SetDefaultsGrow(left, right);
  }

  // --- the clock and the stop -------------------------------------------------------

  /** Of two readings the one that has measured more; of two that have measured
      the same, the one taken later. */
  function LatestClock(left: RunClock, right: RunClock): RunClock {
    if right.elapsed != left.elapsed then (if right.elapsed > left.elapsed then right else left)
    else if right.asOf >= left.asOf then right else left
  }

  /** Whatever stopped a run first stays on record, unless it is then cancelled. */
  function KeepStop(left: Option<Stop>, right: Option<Stop>): Option<Stop> {
    if right.Some? && right.value.reason == Cancelled then right
    else if left.Some? then left else right
  }

  /** Folding in any order, and folding a reading again, comes to the same. */
  lemma LatestClockIsJoin(a: RunClock, b: RunClock, c: RunClock)
    ensures LatestClock(a, LatestClock(b, c)) == LatestClock(LatestClock(a, b), c)
    ensures LatestClock(a, b) == LatestClock(b, a)
    ensures LatestClock(a, a) == a
    ensures LatestClock(a, b).elapsed >= a.elapsed
  {
  }
}
