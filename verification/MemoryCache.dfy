/** A bounded cache with expiry, least recently used out first
    (`InMemoryCache` in `cache/backend.py`). */
module MemoryCache {
  import opened Wrappers
  import opened Distinct

  type Time = int

  /** An entry of the ordered dictionary; the least recently used comes first. */
  datatype Entry = Entry(key: string, expiresAt: Time, value: string)

  datatype Op =
    | Get(key: string, now: Time)
    | Set(key: string, value: string, ttl: int, now: Time)
    | Delete(key: string)
    | Close

  // --- the ordered dictionary --------------------------------------------------------------------

  function Find(entries: seq<Entry>, key: string): (e: Option<Entry>)
    ensures e.Some? ==> e.value in entries && e.value.key == key
    ensures e.None? ==> forall i :: 0 <= i < |entries| ==> entries[i].key != key
  {
    if entries == [] then None
    else if entries[0].key == key then Some(entries[0]) else Find(entries[1..], key)
  }

  function Without(entries: seq<Entry>, key: string): seq<Entry> {
    if entries == [] then []
    else (if entries[0].key == key then [] else [entries[0]]) + Without(entries[1..], key)
  }

  /** What is left when the oldest go. */
  function Trimmed(entries: seq<Entry>, limit: nat): seq<Entry> {
    if |entries| > limit then entries[|entries| - limit..] else entries
  }

  function Hit(entries: seq<Entry>, key: string, now: Time): Option<Entry> {
    var found := Find(entries, key);
    if found.Some? && found.value.expiresAt > now then found else None
  }

  function AfterOp(limit: nat, entries: seq<Entry>, op: Op): seq<Entry> {
    match op
    case Get(key, now) =>
      var hit := Hit(entries, key, now);
      Without(entries, key) + if hit.Some? then [hit.value] else []
    case Set(key, value, ttl, now) => Trimmed(Without(entries, key) + [Entry(key, now + ttl, value)], limit)
    case Delete(key) => Without(entries, key)
    case Close => []
  }

  function AfterOps(limit: nat, ops: seq<Op>): seq<Entry> {
    if ops == [] then [] else AfterOp(limit, AfterOps(limit, ops[..|ops| - 1]), ops[|ops| - 1])
  }

  lemma OneMoreOp(limit: nat, ops: seq<Op>, op: Op)
    ensures AfterOps(limit, ops + [op]) == AfterOp(limit, AfterOps(limit, ops), op)
  {
    assert (ops + [op])[..|ops|] == ops;
  }

  predicate DistinctKeys(entries: seq<Entry>) {
    forall i, j :: 0 <= i < j < |entries| ==> entries[i].key != entries[j].key
  }

  lemma {:induction false} WithoutKeeps(entries: seq<Entry>, key: string)
    ensures forall e :: e in Without(entries, key) <==> e in entries && e.key != key
    ensures |Without(entries, key)| <= |entries|
    ensures DistinctKeys(entries) ==> DistinctKeys(Without(entries, key))
    ensures (exists e :: e in entries && e.key == key) ==> |Without(entries, key)| < |entries|
  {
    if entries != [] {
      WithoutKeeps(entries[1..], key);
      assert entries == [entries[0]] + entries[1..];
    }
  }

  lemma {:induction false} WithoutAbsent(entries: seq<Entry>, key: string)
    requires forall i :: 0 <= i < |entries| ==> entries[i].key != key
    ensures Without(entries, key) == entries
  {
    if entries != [] {
      WithoutAbsent(entries[1..], key);
      assert entries == [entries[0]] + entries[1..];
    }
  }

  // --- what its users have asked of it --------------------------------------------------------------

  datatype Write = Write(value: string, expiresAt: Time)

  /** A key's latest write, after one more operation. */
  function Superseded(before: Option<Write>, op: Op, key: string): Option<Write> {
    match op
    case Get(_, _) => before
    case Set(k, value, ttl, now) => if k == key then Some(Write(value, now + ttl)) else before
    case Delete(k) => if k == key then None else before
    case Close => None
  }

  /** The latest write of a key that has not been taken back. */
  function LatestWrite(ops: seq<Op>, key: string): Option<Write> {
    if ops == [] then None else Superseded(LatestWrite(ops[..|ops| - 1], key), ops[|ops| - 1], key)
  }

  /** The key an operation makes the most recently used, if any. */
  function Touched(entries: seq<Entry>, op: Op): Option<string> {
    match op
    case Get(key, now) => if Hit(entries, key, now).Some? then Some(key) else None
    case Set(key, _, _, _) => Some(key)
    case _ => None
  }

  /** What an operation adds to the keys used since `key` was. */
  function UsedThen(before: seq<Entry>, used: set<string>, op: Op, key: string): set<string> {
    var touched := Touched(before, op);
    if touched == Some(key) then {} else used + if touched.Some? then {touched.value} else {}
  }

  /** The other keys used since a key was last set or hit. */
  function UsedSince(limit: nat, ops: seq<Op>, key: string): set<string> {
    if ops == [] then {}
    else UsedThen(AfterOps(limit, ops[..|ops| - 1]), UsedSince(limit, ops[..|ops| - 1], key), ops[|ops| - 1], key)
  }

  /** Whether a key wanted before an operation, or not, is wanted after it. */
  predicate StillWanted(before: seq<Entry>, wanted: bool, op: Op, key: string) {
    match op
    case Get(k, now) => wanted && (k != key || Find(before, k).None? || Hit(before, k, now).Some?)
    case Set(k, _, _, _) => k == key || wanted
    case Delete(k) => k != key && wanted
    case Close => false
  }

  /** Whether a key was set, and has not been deleted, cleared, or found to have
      expired, since. */
  predicate Wanted(limit: nat, ops: seq<Op>, key: string) {
    ops != [] && StillWanted(AfterOps(limit, ops[..|ops| - 1]), Wanted(limit, ops[..|ops| - 1], key), ops[|ops| - 1], key)
  }

  // --- what holds after any operations ------------------------------------------------------------------

  predicate IsLatest(ops: seq<Op>, e: Entry) {
    LatestWrite(ops, e.key) == Some(Write(e.value, e.expiresAt))
  }

  predicate AllLatest(ops: seq<Op>, entries: seq<Entry>) {
    forall e :: e in entries ==> IsLatest(ops, e)
  }

  lemma TrimmedKeeps(entries: seq<Entry>, limit: nat)
    ensures |Trimmed(entries, limit)| <= limit
    ensures forall e :: e in Trimmed(entries, limit) ==> e in entries
    ensures DistinctKeys(entries) ==> DistinctKeys(Trimmed(entries, limit))
  {
  }

  lemma TrimOne(entries: seq<Entry>, limit: nat)
    requires |entries| > limit
    ensures Trimmed(entries[1..], limit) == Trimmed(entries, limit)
  {
  }

  lemma NothingOfKey(entries: seq<Entry>, key: string)
    ensures forall i :: 0 <= i < |Without(entries, key)| ==> Without(entries, key)[i].key != key
  {
    WithoutKeeps(entries, key);
    forall i | 0 <= i < |Without(entries, key)| ensures Without(entries, key)[i].key != key {
      assert Without(entries, key)[i] in Without(entries, key);
    }
  }

  lemma SetIsDistinct(before: seq<Entry>, e: Entry)
    requires DistinctKeys(before)
    ensures var all := Without(before, e.key) + [e];
            DistinctKeys(all) && |all| <= |before| + 1
  {
    WithoutKeeps(before, e.key);
    NothingOfKey(before, e.key);
  }

  lemma HitKeepsBound(entries: seq<Entry>, key: string, now: Time)
    requires DistinctKeys(entries) && Hit(entries, key, now).Some?
    ensures var all := Without(entries, key) + [Hit(entries, key, now).value];
            DistinctKeys(all) && |all| <= |entries|
  {
    var e := Hit(entries, key, now).value;
    SetIsDistinct(entries, e);
    WithoutKeeps(entries, key);
    assert e in entries && e.key == key;
  }

  lemma OpKeepsBound(limit: nat, entries: seq<Entry>, op: Op)
    requires DistinctKeys(entries) && |entries| <= limit
    ensures DistinctKeys(AfterOp(limit, entries, op)) && |AfterOp(limit, entries, op)| <= limit
  {
    match op
    case Get(key, now) =>
      WithoutKeeps(entries, key);
      if Hit(entries, key, now).Some? {
        HitKeepsBound(entries, key, now);
      } else {
        assert Without(entries, key) + [] == Without(entries, key);
      }
    case Set(key, value, ttl, now) =>
      SetIsDistinct(entries, Entry(key, now + ttl, value));
      TrimmedKeeps(Without(entries, key) + [Entry(key, now + ttl, value)], limit);
    case Delete(key) => WithoutKeeps(entries, key);
    case Close =>
  }

  /** Never more entries than allowed, and never two for one key. */
  lemma {:induction false} NeverTooMany(limit: nat, ops: seq<Op>)
    ensures |AfterOps(limit, ops)| <= limit && DistinctKeys(AfterOps(limit, ops))
  {
    if ops != [] {
      NeverTooMany(limit, ops[..|ops| - 1]);
      OpKeepsBound(limit, AfterOps(limit, ops[..|ops| - 1]), ops[|ops| - 1]);
    }
  }

  lemma {:induction false} EntriesAreLatest(limit: nat, ops: seq<Op>)
    ensures AllLatest(ops, AfterOps(limit, ops))
  {
    if ops != [] {
      var init, op := ops[..|ops| - 1], ops[|ops| - 1];
      var before := AfterOps(limit, init);
      EntriesAreLatest(limit, init);
      forall e | e in AfterOp(limit, before, op) ensures IsLatest(ops, e) {
        EntryIsLatest(limit, init, op, before, e);
        assert ops == init + [op];
      }
    }
  }

  /** Where an entry is from: it was there, or it has just been written. */
  predicate Survives(before: seq<Entry>, op: Op, e: Entry) {
    match op
    case Get(_, _) => e in before
    case Set(key, value, ttl, now) => e == Entry(key, now + ttl, value) || (e in before && e.key != key)
    case Delete(key) => e in before && e.key != key
    case Close => false
  }

  lemma EntrySurvives(limit: nat, before: seq<Entry>, op: Op, e: Entry)
    requires e in AfterOp(limit, before, op)
    ensures Survives(before, op, e)
  {
    match op
    case Get(key, now) => WithoutKeeps(before, key);
    case Set(key, value, ttl, now) =>
      WithoutKeeps(before, key);
      TrimmedKeeps(Without(before, key) + [Entry(key, now + ttl, value)], limit);
    case Delete(key) => WithoutKeeps(before, key);
    case Close =>
  }

  lemma LatestAfter(init: seq<Op>, op: Op, key: string)
    ensures LatestWrite(init + [op], key) == Superseded(LatestWrite(init, key), op, key)
  {
    assert (init + [op])[..|init|] == init;
  }

  lemma SurvivorIsLatest(init: seq<Op>, op: Op, before: seq<Entry>, e: Entry)
    requires Survives(before, op, e) && (e in before ==> IsLatest(init, e))
    ensures Superseded(LatestWrite(init, e.key), op, e.key) == Some(Write(e.value, e.expiresAt))
  {
  }

  lemma EntryIsLatest(limit: nat, init: seq<Op>, op: Op, before: seq<Entry>, e: Entry)
    requires AllLatest(init, before) && e in AfterOp(limit, before, op)
    ensures IsLatest(init + [op], e)
  {
    EntrySurvives(limit, before, op, e);
    SurvivorIsLatest(init, op, before, e);
    LatestAfter(init, op, e.key);
  }

  /** A hit is the latest write of its key, which has not expired and has not
      been taken back. */
  lemma HitIsLatestWrite(limit: nat, ops: seq<Op>, key: string, now: Time)
    ensures var hit := Hit(AfterOps(limit, ops), key, now);
            hit.Some? ==> LatestWrite(ops, key) == Some(Write(hit.value.value, hit.value.expiresAt)) && hit.value.expiresAt > now
  {
    EntriesAreLatest(limit, ops);
    var hit := Hit(AfterOps(limit, ops), key, now);
    if hit.Some? {
      assert IsLatest(ops, hit.value);
    }
  }

  // --- eviction ------------------------------------------------------------------------------------------

  predicate Holds(entries: seq<Entry>, key: string) {
    Find(entries, key).Some?
  }

  /** The keys that come after a key, which were used more recently. */
  function KeysAfter(entries: seq<Entry>, key: string): set<string> {
    if entries == [] then {}
    else if entries[0].key == key then KeysOf(entries[1..]) else KeysAfter(entries[1..], key)
  }

  function KeysOf(entries: seq<Entry>): set<string> {
    if entries == [] then {} else {entries[0].key} + KeysOf(entries[1..])
  }

  lemma {:induction false} KeysOfEntries(entries: seq<Entry>)
    ensures forall k :: k in KeysOf(entries) <==> Holds(entries, k)
    ensures DistinctKeys(entries) ==> |KeysOf(entries)| == |entries|
  {
    if entries != [] {
      KeysOfEntries(entries[1..]);
      if DistinctKeys(entries) {
        assert entries[0].key !in KeysOf(entries[1..]) by {
          assert !Holds(entries[1..], entries[0].key);
        }
      }
    }
  }

  lemma {:induction false} KeysOfConcat(a: seq<Entry>, b: seq<Entry>)
    ensures KeysOf(a + b) == KeysOf(a) + KeysOf(b)
  {
    if a == [] {
      assert a + b == b;
    } else {
      assert (a + b)[1..] == a[1..] + b;
      KeysOfConcat(a[1..], b);
    }
  }

  lemma {:induction false} WithoutKeysAfter(entries: seq<Entry>, key: string, other: string)
    requires key != other
    ensures KeysAfter(Without(entries, other), key) <= KeysAfter(entries, key)
    ensures Holds(Without(entries, other), key) == Holds(entries, key)
    ensures KeysOf(Without(entries, other)) <= KeysOf(entries)
  {
    if entries != [] {
      WithoutKeysAfter(entries[1..], key, other);
      var rest := Without(entries[1..], other);
      assert ([entries[0]] + rest)[1..] == rest;
      assert [] + rest == rest;
    }
  }

  lemma {:induction false} AddedKeysAfter(entries: seq<Entry>, e: Entry, key: string)
    requires key != e.key
    ensures KeysAfter(entries + [e], key) <= KeysAfter(entries, key) + {e.key}
    ensures Holds(entries + [e], key) == Holds(entries, key)
  {
    if entries == [] {
      assert entries + [e] == [e] && [e][1..] == [];
    } else {
      assert (entries + [e])[1..] == entries[1..] + [e];
      AddedKeysAfter(entries[1..], e, key);
      KeysOfConcat(entries[1..], [e]);
      assert [e][1..] == [];
    }
  }

  lemma {:induction false} LastKeyAfter(entries: seq<Entry>, e: Entry)
    requires forall i :: 0 <= i < |entries| ==> entries[i].key != e.key
    ensures KeysAfter(entries + [e], e.key) == {} && Holds(entries + [e], e.key)
  {
    if entries == [] {
      assert entries + [e] == [e] && [e][1..] == [];
    } else {
      assert (entries + [e])[1..] == entries[1..] + [e];
      LastKeyAfter(entries[1..], e);
    }
  }

  /** Dropping the oldest entry: either a key is not it, and keeps its place, or
      everything else came after it. */
  lemma OldestGoes(entries: seq<Entry>, limit: nat, key: string)
    requires DistinctKeys(entries) && |entries| <= limit + 1 && Holds(entries, key)
    ensures Holds(Trimmed(entries, limit), key) ==> KeysAfter(Trimmed(entries, limit), key) == KeysAfter(entries, key)
    ensures !Holds(Trimmed(entries, limit), key) ==> |KeysAfter(entries, key)| >= limit
  {
    if |entries| > limit {
      assert entries[|entries| - limit..] == entries[1..];
      if entries[0].key == key {
        KeysOfEntries(entries[1..]);
      }
    }
  }

  /** If the key is there, whatever comes after it is among `used`; if it is
      not, enough was used to push it out. */
  predicate PushedOutOnly(limit: nat, entries: seq<Entry>, used: set<string>, key: string) {
    if Holds(entries, key) then KeysAfter(entries, key) <= used else |used| >= limit
  }

  /** The key itself was used: nothing comes after it. */
  lemma SelfHit(limit: nat, before: seq<Entry>, key: string, now: Time)
    requires Hit(before, key, now).Some?
    ensures PushedOutOnly(limit, AfterOp(limit, before, Get(key, now)), {}, key)
  {
    NothingOfKey(before, key);
    LastKeyAfter(Without(before, key), Hit(before, key, now).value);
  }

  lemma TrimSelf(limit: nat, all: seq<Entry>, key: string)
    requires DistinctKeys(all) && |all| <= limit + 1 && Holds(all, key) && KeysAfter(all, key) == {}
    ensures PushedOutOnly(limit, Trimmed(all, limit), {}, key)
  {
    OldestGoes(all, limit, key);
  }

  lemma SelfSet(limit: nat, before: seq<Entry>, e: Entry)
    requires DistinctKeys(before) && |before| <= limit
    ensures PushedOutOnly(limit, Trimmed(Without(before, e.key) + [e], limit), {}, e.key)
  {
    SetIsDistinct(before, e);
    NothingOfKey(before, e.key);
    LastKeyAfter(Without(before, e.key), e);
    TrimSelf(limit, Without(before, e.key) + [e], e.key);
  }

  /** Another key was used. */
  lemma OtherHit(limit: nat, before: seq<Entry>, used: set<string>, key: string, other: string, now: Time)
    requires key != other && Hit(before, other, now).Some? && PushedOutOnly(limit, before, used, key)
    ensures PushedOutOnly(limit, AfterOp(limit, before, Get(other, now)), used + {other}, key)
  {
    WithoutKeysAfter(before, key, other);
    AddedKeysAfter(Without(before, other), Hit(before, other, now).value, key);
    SubsetIsSmaller(used, used + {other});
  }

  lemma TrimOther(limit: nat, all: seq<Entry>, used: set<string>, key: string)
    requires DistinctKeys(all) && |all| <= limit + 1 && PushedOutOnly(limit, all, used, key)
    ensures PushedOutOnly(limit, Trimmed(all, limit), used, key)
  {
    if Holds(all, key) {
      OldestGoes(all, limit, key);
      SubsetIsSmaller(KeysAfter(all, key), used);
    } else if Holds(Trimmed(all, limit), key) {
      TrimmedHolds(all, limit, key);
    }
  }

  lemma TrimmedHolds(entries: seq<Entry>, limit: nat, key: string)
    requires Holds(Trimmed(entries, limit), key)
    ensures Holds(entries, key)
  {
    var e := Find(Trimmed(entries, limit), key).value;
    TrimmedKeeps(entries, limit);
    assert e in entries;
  }

  lemma OtherSet(limit: nat, before: seq<Entry>, used: set<string>, key: string, e: Entry)
    requires key != e.key && DistinctKeys(before) && |before| <= limit && PushedOutOnly(limit, before, used, key)
    ensures PushedOutOnly(limit, Trimmed(Without(before, e.key) + [e], limit), used + {e.key}, key)
  {
    SetIsDistinct(before, e);
    WithoutKeysAfter(before, key, e.key);
    AddedKeysAfter(Without(before, e.key), e, key);
    SubsetIsSmaller(used, used + {e.key});
    TrimOther(limit, Without(before, e.key) + [e], used + {e.key}, key);
  }

  /** Nothing was used. */
  lemma OtherLeft(limit: nat, before: seq<Entry>, used: set<string>, key: string, other: string)
    requires PushedOutOnly(limit, before, used, key) && (key != other || !Holds(before, other))
    ensures PushedOutOnly(limit, Without(before, other), used, key)
  {
    if key == other {
      WithoutAbsent(before, other);
    } else {
      WithoutKeysAfter(before, key, other);
    }
  }

  lemma WantedAfter(limit: nat, init: seq<Op>, op: Op, key: string)
    ensures Wanted(limit, init + [op], key) == StillWanted(AfterOps(limit, init), Wanted(limit, init, key), op, key)
    ensures UsedSince(limit, init + [op], key) == UsedThen(AfterOps(limit, init), UsedSince(limit, init, key), op, key)
  {
    assert (init + [op])[..|init|] == init;
  }

  lemma GetPushesOut(limit: nat, before: seq<Entry>, used: set<string>, key: string, k: string, now: Time)
    requires PushedOutOnly(limit, before, used, key)
    requires k != key || Find(before, k).None? || Hit(before, k, now).Some?
    ensures PushedOutOnly(limit, AfterOp(limit, before, Get(k, now)), UsedThen(before, used, Get(k, now), key), key)
  {
    if Hit(before, k, now).None? {
      assert Without(before, k) + [] == Without(before, k);
      assert used + {} == used;
      OtherLeft(limit, before, used, key, k);
    } else if k == key {
      SelfHit(limit, before, key, now);
    } else {
      OtherHit(limit, before, used, key, k, now);
    }
  }

  lemma SetPushesOut(limit: nat, before: seq<Entry>, used: set<string>, key: string, op: Op)
    requires op.Set? && DistinctKeys(before) && |before| <= limit
    requires op.key == key || PushedOutOnly(limit, before, used, key)
    ensures PushedOutOnly(limit, AfterOp(limit, before, op), UsedThen(before, used, op, key), key)
  {
    var e := Entry(op.key, op.now + op.ttl, op.value);
    var after := AfterOp(limit, before, op);
    assert after == Trimmed(Without(before, e.key) + [e], limit);
    if op.key == key {
      SelfSet(limit, before, e);
      assert UsedThen(before, used, op, key) == {};
    } else {
      OtherSet(limit, before, used, key, e);
      assert UsedThen(before, used, op, key) == used + {e.key};
    }
  }

  /** One operation, seen from a key that is wanted after it. */
  lemma OpPushesOut(limit: nat, before: seq<Entry>, wanted: bool, op: Op, used: set<string>, key: string)
    requires DistinctKeys(before) && |before| <= limit
    requires StillWanted(before, wanted, op, key) && (wanted ==> PushedOutOnly(limit, before, used, key))
    ensures PushedOutOnly(limit, AfterOp(limit, before, op), UsedThen(before, used, op, key), key)
  {
    match op
    case Get(k, now) => GetPushesOut(limit, before, used, key, k, now);
    case Set(_, _, _, _) => SetPushesOut(limit, before, used, key, op);
    case Delete(k) =>
      assert used + {} == used;
      OtherLeft(limit, before, used, key, k);
  }

  /** A key that was set, and not deleted, cleared or found expired since, is
      gone only if at least as many other keys as the cache holds have been used
      since it was last set or hit; while it is there, only keys used since come
      after it. */
  lemma {:induction false} EvictedOnlyByUse(limit: nat, ops: seq<Op>, key: string)
    requires Wanted(limit, ops, key)
    ensures PushedOutOnly(limit, AfterOps(limit, ops), UsedSince(limit, ops, key), key)
  {
    var init, op := ops[..|ops| - 1], ops[|ops| - 1];
    assert ops == init + [op];
    NeverTooMany(limit, init);
    WantedAfter(limit, init, op, key);
    OneMoreOp(limit, init, op);
    if Wanted(limit, init, key) {
      EvictedOnlyByUse(limit, init, key);
    }
    OpPushesOut(limit, AfterOps(limit, init), Wanted(limit, init, key), op, UsedSince(limit, init, key), key);
  }

  // --- the cache -------------------------------------------------------------------------------------------

  class InMemoryCache {
    const maxEntries: nat
    var entries: seq<Entry>
    /** Everything asked of this cache so far. */
    ghost var history: seq<Op>

    ghost predicate Valid()
      reads this
    {
      entries == AfterOps(maxEntries, history)
    }

    constructor (maxEntries: nat)
      ensures Valid() && this.maxEntries == maxEntries && history == []
    {
      this.maxEntries := maxEntries;
      entries := [];
      history := [];
    }

    /** The latest write of the key, if it is held and has not expired. */
    method Lookup(key: string, now: Time) returns (value: Option<string>)
      requires Valid()
      modifies this
      ensures Valid() && history == old(history) + [Get(key, now)]
      ensures value.Some? <==> Hit(old(entries), key, now).Some?
      ensures value.Some? ==> LatestWrite(old(history), key).Some?
                              && LatestWrite(old(history), key).value.value == value.value
                              && LatestWrite(old(history), key).value.expiresAt > now
    {
      HitIsLatestWrite(maxEntries, history, key, now);
      var entry := Find(entries, key);
      value := None;
      if entry.None? {
        WithoutAbsent(entries, key);
        assert entries + [] == entries;
      } else if entry.value.expiresAt <= now {
        entries := Without(entries, key);
        assert entries + [] == entries;
      } else {
        entries := Without(entries, key) + [entry.value];
        value := Some(entry.value.value);
      }
      OneMoreOp(maxEntries, history, Get(key, now));
      history := history + [Get(key, now)];
    }

    method Store(key: string, value: string, ttl: int, now: Time)
      requires Valid()
      modifies this
      ensures Valid() && history == old(history) + [Set(key, value, ttl, now)]
      ensures |entries| <= maxEntries
    {
      entries := Without(entries, key) + [Entry(key, now + ttl, value)];
      ghost var left := Trimmed(entries, maxEntries);
      while |entries| > maxEntries
        invariant history == old(history)
        invariant Trimmed(entries, maxEntries) == left
      {
        TrimOne(entries, maxEntries);
        entries := entries[1..];
      }
      OneMoreOp(maxEntries, history, Set(key, value, ttl, now));
      history := history + [Set(key, value, ttl, now)];
      TrimmedKeeps(entries, maxEntries);
    }

    method Remove(key: string)
      requires Valid()
      modifies this
      ensures Valid() && history == old(history) + [Delete(key)]
    {
      entries := Without(entries, key);
      OneMoreOp(maxEntries, history, Delete(key));
      history := history + [Delete(key)];
    }

    method Clear()
      requires Valid()
      modifies this
      ensures Valid() && history == old(history) + [Close]
    {
      entries := [];
      OneMoreOp(maxEntries, history, Close);
      history := history + [Close];
    }
  }
}
