/** Numbered catalogues of a run's material (`agents/catalog.py`). */
module Catalogs {
  import opened Wrappers
  import opened Ordering
  import opened Schemas
  import opened Reducers

  const MAX_PROMPT_CLAIMS := 120
  const MAX_PROMPT_EVIDENCE := 80

  // --- numbers ---------------------------------------------------------------------------

  /** What a number refers to, counting from one, or nothing if it was invented. */
  function Get<T>(items: seq<T>, number: int): (item: Option<T>)
    ensures item.Some? <==> 1 <= number <= |items|
  {
    if 1 <= number <= |items| then Some(items[number - 1]) else None
  }

  function Found<T>(items: seq<T>, numbers: seq<nat>): seq<T> {
    if numbers == [] then []
    else
      var last := Get(items, numbers[|numbers| - 1]);
      Found(items, numbers[..|numbers| - 1]) + if last.Some? then [last.value] else []
  }

  function Unknown<T>(items: seq<T>, numbers: seq<nat>): seq<nat> {
    if numbers == [] then []
    else
      var last := numbers[|numbers| - 1];
      Unknown(items, numbers[..|numbers| - 1]) + if Get(items, last).None? then [last] else []
  }

  method Resolve<T>(items: seq<T>, numbers: seq<nat>) returns (found: seq<T>, unknown: seq<nat>)
    ensures found == Found(items, numbers)
    ensures unknown == Unknown(items, numbers)
    ensures CountsTo(items, InRange(numbers, |items|), found)
    ensures unknown == OutOfRange(numbers, |items|)
  {
    found, unknown := [], [];
    for i := 0 to |numbers|
      invariant found == Found(items, numbers[..i])
      invariant unknown == Unknown(items, numbers[..i])
    {
      assert numbers[..i + 1][..i] == numbers[..i];
      var item := Get(items, numbers[i]);
      if item.None? {
        unknown := unknown + [numbers[i]];
      } else {
        found := found + [item.value];
      }
    }
    assert numbers[..|numbers|] == numbers;
    ResolvedIsOffered(items, numbers);
  }

  /** The numbers a catalogue of this size has, and those it does not have, as
      they were given. */
  function InRange(numbers: seq<nat>, size: nat): seq<nat> {
    if numbers == [] then []
    else
      var last := numbers[|numbers| - 1];
      InRange(numbers[..|numbers| - 1], size) + if 1 <= last <= size then [last] else []
  }

  function OutOfRange(numbers: seq<nat>, size: nat): seq<nat> {
    if numbers == [] then []
    else
      var last := numbers[|numbers| - 1];
      OutOfRange(numbers[..|numbers| - 1], size) + if 1 <= last <= size then [] else [last]
  }

  /** `found` is what the numbers count to, each from the start of the catalogue. */
  predicate CountsTo<T(==)>(items: seq<T>, numbers: seq<nat>, found: seq<T>) {
    |found| == |numbers| && forall i :: 0 <= i < |numbers| ==> 1 <= numbers[i] <= |items| && found[i] == items[numbers[i] - 1]
  }

  /** Every number is accounted for: the ones in range come, in order, to the
      item that far into the catalogue, and the rest are invented. */
  lemma {:induction false} ResolvedIsOffered<T>(items: seq<T>, numbers: seq<nat>)
    ensures CountsTo(items, InRange(numbers, |items|), Found(items, numbers))
    ensures Unknown(items, numbers) == OutOfRange(numbers, |items|)
    ensures forall x :: x in Found(items, numbers) <==> exists n :: n in numbers && 1 <= n <= |items| && items[n - 1] == x
    ensures |Found(items, numbers)| + |Unknown(items, numbers)| == |numbers|
    ensures forall n :: n in Unknown(items, numbers) <==> n in numbers && !(1 <= n <= |items|)
  {
    if numbers != [] {
      var init, last := numbers[..|numbers| - 1], numbers[|numbers| - 1];
      ResolvedIsOffered(items, init);
      assert numbers == init + [last];
      if 1 <= last <= |items| {
        assert Found(items, numbers) == Found(items, init) + [items[last - 1]];
      }
      forall x ensures x in Found(items, numbers) <==> exists n :: n in numbers && 1 <= n <= |items| && items[n - 1] == x {
        OneMoreNumber(items, init, last, x);
      }
    }
  }

  lemma OneMoreNumber<T>(items: seq<T>, init: seq<nat>, last: nat, x: T)
    ensures (exists n :: n in init + [last] && 1 <= n <= |items| && items[n - 1] == x)
            <==> (exists n :: n in init && 1 <= n <= |items| && items[n - 1] == x) || (1 <= last <= |items| && items[last - 1] == x)
  {
    if n :| n in init && 1 <= n <= |items| && items[n - 1] == x {
      assert n in init + [last];
    }
    if 1 <= last <= |items| && items[last - 1] == x {
      assert last in init + [last];
    }
  }

  /** The numbers from one to the size of a catalogue. */
  function AllNumbers(size: nat): (numbers: seq<nat>)
    ensures |numbers| == size && forall i :: 0 <= i < size ==> numbers[i] == i + 1
  {
    seq(size, i requires 0 <= i < size => i + 1)
  }

  lemma {:induction false} InRangeAll(size: nat, n: nat)
    requires n <= size
    ensures InRange(AllNumbers(n), size) == AllNumbers(n)
  {
    if n > 0 {
      InRangeAll(size, n - 1);
      assert AllNumbers(n)[..n - 1] == AllNumbers(n - 1);
      assert AllNumbers(n) == AllNumbers(n - 1) + [n];
    }
  }

  /** Resolving every number there is, in order, gives back the catalogue. */
  lemma AllNumbersResolve<T>(items: seq<T>)
    ensures Found(items, AllNumbers(|items|)) == items && Unknown(items, AllNumbers(|items|)) == []
  {
    var numbers := AllNumbers(|items|);
    ResolvedIsOffered(items, numbers);
    InRangeAll(|items|, |items|);
    CountedAll(items, numbers, Found(items, numbers));
  }

  lemma CountedAll<T>(items: seq<T>, numbers: seq<nat>, found: seq<T>)
    requires CountsTo(items, numbers, found) && numbers == AllNumbers(|items|)
    ensures found == items
  {
  }

  /** Everything a claim rests on is stored. */
  predicate Rests(evidence: seq<EvidenceItem>, claim: ClaimItem) {
    forall id :: id in claim.evidenceIds ==> IndexOf(EvidenceId, evidence, id).Some?
  }

  // --- orders ----------------------------------------------------------------------------

  /** Strings in dictionary order. */
  predicate LexLeq(a: string, b: string) {
    a == [] || (b != [] && (a[0] < b[0] || (a[0] == b[0] && LexLeq(a[1..], b[1..]))))
  }

  lemma LexTotal(a: string, b: string)
    ensures LexLeq(a, b) || LexLeq(b, a)
  {
  }

  lemma LexAntisymmetric(a: string, b: string)
    requires LexLeq(a, b) && LexLeq(b, a)
    ensures a == b
  {
    if a != [] {
      LexAntisymmetric(a[1..], b[1..]);
      assert a == [a[0]] + a[1..] && b == [b[0]] + b[1..];
    }
  }

  lemma LexTransitive(a: string, b: string, c: string)
    requires LexLeq(a, b) && LexLeq(b, c)
    ensures LexLeq(a, c)
  {
  }

  /** By key, then by id. */
  predicate KeyedBefore(a: ClaimItem, b: ClaimItem) {
    if a.normalizedKey == b.normalizedKey then a.id <= b.id else LexLeq(a.normalizedKey, b.normalizedKey)
  }

  lemma KeyedBeforeIsTotal()
    ensures TotalPreorder(KeyedBefore)
  {
    forall a, b ensures KeyedBefore(a, b) || KeyedBefore(b, a) {
      LexTotal(a.normalizedKey, b.normalizedKey);
    }
    forall a, b, c | KeyedBefore(a, b) && KeyedBefore(b, c) ensures KeyedBefore(a, c) {
      KeyedBeforeTransitive(a, b, c);
    }
  }

  lemma KeyedBeforeTransitive(a: ClaimItem, b: ClaimItem, c: ClaimItem)
    requires KeyedBefore(a, b) && KeyedBefore(b, c)
    ensures KeyedBefore(a, c)
  {
    if a.normalizedKey != b.normalizedKey && b.normalizedKey != c.normalizedKey {
      LexTransitive(a.normalizedKey, b.normalizedKey, c.normalizedKey);
      if a.normalizedKey == c.normalizedKey {
        LexAntisymmetric(a.normalizedKey, b.normalizedKey);
      }
    }
  }

  function StatusMerit(status: ClaimStatus): nat {
    match status
    case Refuted => 0
    case Contested => 1
    case Verified => 2
    case Candidate => 3
  }

  /** Disagreements first, then the firmer claims, then by id. */
  predicate MeritBefore(a: ClaimItem, b: ClaimItem) {
    if StatusMerit(a.status) != StatusMerit(b.status) then StatusMerit(a.status) < StatusMerit(b.status)
    else if a.confidence != b.confidence then a.confidence > b.confidence
    else a.id <= b.id
  }

  lemma MeritBeforeIsTotal()
    ensures TotalPreorder(MeritBefore)
  {
  }

  // --- the claim catalogue ------------------------------------------------------------------

  /** The claims that fit, by merit. */
  function Kept(claims: seq<ClaimItem>, limit: nat): seq<ClaimItem> {
    if |claims| > limit then Sort(MeritBefore, claims)[..limit] else claims
  }

  function ClaimCatalog(claims: seq<ClaimItem>, limit: nat): seq<ClaimItem> {
    Sort(KeyedBefore, Kept(claims, limit))
  }

  lemma DistinctIdsSeparate(claims: seq<ClaimItem>)
    requires UniqueIds(ClaimId, claims)
    ensures Separates(KeyedBefore, claims) && Separates(MeritBefore, claims)
  {
    forall a, b | a in claims && b in claims && ClaimId(a) == ClaimId(b) ensures a == b {
      SameIdSameItem(ClaimId, claims, a, b);
    }
    forall a, b | a in claims && b in claims && KeyedBefore(a, b) && KeyedBefore(b, a) ensures ClaimId(a) == ClaimId(b) {
      if a.normalizedKey != b.normalizedKey {
        LexAntisymmetric(a.normalizedKey, b.normalizedKey);
      }
    }
  }

  lemma SameIdSameItem<T>(idOf: T -> Id, items: seq<T>, a: T, b: T)
    requires UniqueIds(idOf, items) && a in items && b in items && idOf(a) == idOf(b)
    ensures a == b
  {
    var i :| 0 <= i < |items| && items[i] == a;
    var j :| 0 <= j < |items| && items[j] == b;
    assert i == j;
  }

  lemma SeparatesFewer<T(!new)>(le: (T, T) -> bool, xs: seq<T>, ys: seq<T>)
    requires Separates(le, xs) && forall y :: y in ys ==> y in xs
    ensures Separates(le, ys)
  {
  }

  lemma KeptAreClaims(claims: seq<ClaimItem>, limit: nat)
    ensures forall c :: c in Kept(claims, limit) ==> c in claims
    ensures |Kept(claims, limit)| == if |claims| > limit then limit else |claims|
  {
    var sorted := Sort(MeritBefore, claims);
    SameMembers(claims, sorted);
    if |claims| > limit {
      forall c | c in sorted[..limit] ensures c in claims {
        assert c in sorted;
      }
    }
  }

  /** The catalogue of a set of claims does not depend on the order they
      arrived in. */
  lemma CatalogIgnoresArrival(claims: seq<ClaimItem>, others: seq<ClaimItem>, limit: nat)
    requires UniqueIds(ClaimId, claims) && multiset(claims) == multiset(others)
    ensures ClaimCatalog(claims, limit) == ClaimCatalog(others, limit)
  {
    SameMembers(claims, others);
    DistinctIdsSeparate(claims);
    KeyedBeforeIsTotal();
    MeritBeforeIsTotal();
    SortIgnoresArrival(MeritBefore, claims, others);
    KeptAreClaims(claims, limit);
    SeparatesFewer(KeyedBefore, claims, Kept(claims, limit));
    SortIgnoresArrival(KeyedBefore, Kept(claims, limit), Kept(others, limit));
  }

  /** A catalogue holds claims of the run, as many as fit, once each. */
  lemma CatalogOfClaims(claims: seq<ClaimItem>, limit: nat)
    ensures forall c :: c in ClaimCatalog(claims, limit) ==> c in claims
    ensures |ClaimCatalog(claims, limit)| == if |claims| > limit then limit else |claims|
  {
    KeptAreClaims(claims, limit);
    SameMembers(Kept(claims, limit), ClaimCatalog(claims, limit));
  }

  /** The merit of a status, the best first. */
  predicate Outranks(a: ClaimStatus, b: ClaimStatus) {
    || (a == Refuted && b in {Contested, Verified, Candidate})
    || (a == Contested && b in {Verified, Candidate})
    || (a == Verified && b == Candidate)
  }

  /** Refuted claims are kept ahead of contested ones, those ahead of verified,
      and those ahead of candidates; of one status the more confident; and of
      one confidence the lower id. */
  predicate KeptAhead(a: ClaimItem, b: ClaimItem) {
    || Outranks(a.status, b.status)
    || (a.status == b.status && a.confidence > b.confidence)
    || (a.status == b.status && a.confidence == b.confidence && a.id <= b.id)
  }

  /** A claim is cut only if every claim that is kept is to be kept ahead of it. */
  lemma CutByMerit(claims: seq<ClaimItem>, limit: nat, kept: ClaimItem, cut: ClaimItem)
    requires kept in ClaimCatalog(claims, limit)
    requires cut in claims && cut !in ClaimCatalog(claims, limit)
    ensures KeptAhead(kept, cut)
  {
    CutAfterKept(claims, limit, kept, cut);
    MeritIsKeptAhead(kept, cut);
  }

  lemma MeritIsKeptAhead(a: ClaimItem, b: ClaimItem)
    requires MeritBefore(a, b)
    ensures KeptAhead(a, b)
  {
  }

  lemma CutAfterKept(claims: seq<ClaimItem>, limit: nat, kept: ClaimItem, cut: ClaimItem)
    requires kept in ClaimCatalog(claims, limit)
    requires cut in claims && cut !in ClaimCatalog(claims, limit)
    ensures MeritBefore(kept, cut)
  {
    SameMembers(Kept(claims, limit), ClaimCatalog(claims, limit));
    var sorted := Sort(MeritBefore, claims);
    SameMembers(claims, sorted);
    MeritBeforeIsTotal();
    SortSorts(MeritBefore, claims);
    var i :| 0 <= i < |sorted[..limit]| && sorted[..limit][i] == kept;
    var j :| 0 <= j < |sorted| && sorted[j] == cut;
    forall n | 0 <= n < limit ensures sorted[n] in sorted[..limit] {
      assert sorted[..limit][n] == sorted[n];
    }
    assert i < limit <= j && sorted[i] == kept;
  }

  /** The first difference decides, and a text comes before what it starts. */
  ghost predicate InDictionaryOrder(a: string, b: string) {
    exists n :: DiffersFrom(a, b, n)
  }

  predicate DiffersFrom(a: string, b: string, n: int) {
    0 <= n <= |a| && n <= |b| && a[..n] == b[..n] && (n == |a| || (n < |b| && a[n] < b[n]))
  }

  lemma {:induction false} LexIsDictionaryOrder(a: string, b: string)
    requires LexLeq(a, b)
    ensures InDictionaryOrder(a, b)
  {
    if a == [] || a[0] < b[0] {
      assert DiffersFrom(a, b, 0);
    } else {
      LexIsDictionaryOrder(a[1..], b[1..]);
      var n :| DiffersFrom(a[1..], b[1..], n);
      assert a[..n + 1] == [a[0]] + a[1..][..n] && b[..n + 1] == [b[0]] + b[1..][..n];
      assert DiffersFrom(a, b, n + 1);
    }
  }

  /** The catalogue runs through the keys in dictionary order, and through the
      claims of one key by id. */
  lemma CatalogIsOrdered(claims: seq<ClaimItem>, limit: nat, i: nat, j: nat)
    requires i < j < |ClaimCatalog(claims, limit)|
    ensures var a, b := ClaimCatalog(claims, limit)[i], ClaimCatalog(claims, limit)[j];
            if a.normalizedKey == b.normalizedKey then a.id <= b.id else InDictionaryOrder(a.normalizedKey, b.normalizedKey)
  {
    var catalog := ClaimCatalog(claims, limit);
    KeyedBeforeIsTotal();
    SortSorts(KeyedBefore, Kept(claims, limit));
    assert KeyedBefore(catalog[i], catalog[j]);
    if catalog[i].normalizedKey != catalog[j].normalizedKey {
      LexIsDictionaryOrder(catalog[i].normalizedKey, catalog[j].normalizedKey);
    }
  }

  /** Between two claims of one key nothing but claims of that key is numbered. */
  lemma SameKeysAreAdjacent(claims: seq<ClaimItem>, limit: nat, i: nat, j: nat, k: nat)
    requires i <= j <= k < |ClaimCatalog(claims, limit)|
    requires ClaimCatalog(claims, limit)[i].normalizedKey == ClaimCatalog(claims, limit)[k].normalizedKey
    ensures ClaimCatalog(claims, limit)[j].normalizedKey == ClaimCatalog(claims, limit)[i].normalizedKey
  {
    var catalog := ClaimCatalog(claims, limit);
    KeyedBeforeIsTotal();
    SortSorts(KeyedBefore, Kept(claims, limit));
    if i < j < k && catalog[i].normalizedKey != catalog[j].normalizedKey {
      assert KeyedBefore(catalog[i], catalog[j]) && KeyedBefore(catalog[j], catalog[k]);
      LexAntisymmetric(catalog[i].normalizedKey, catalog[j].normalizedKey);
    }
  }
}
