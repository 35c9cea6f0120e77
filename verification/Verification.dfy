/** Re-scoring claims, and finding where they disagree
    (`agents/verification.py`). */
module Verification {
  import opened Wrappers
  import opened Ordering
  import opened Schemas
  import opened Reducers
  import opened Catalogs
  import opened Keys
  import opened Names
  import opened Normalizing

  const MAX_VERDICTS_PER_CALL := 100

  datatype Verdict = Verdict(claim: nat, status: ClaimStatus, confidence: nat)

  // --- verification ----------------------------------------------------------------------------

  function Rescore(claim: ClaimItem, status: ClaimStatus, confidence: nat): ClaimItem {
    claim.(status := status, confidence := confidence)
  }

  /** The claims a model's verdicts re-score, each with its last verdict. */
  function Scored(catalog: seq<ClaimItem>, verdicts: seq<Verdict>): seq<ClaimItem> {
    if verdicts == [] then []
    else
      var before, last := Scored(catalog, verdicts[..|verdicts| - 1]), verdicts[|verdicts| - 1];
      var claim := Get(catalog, last.claim);
      if claim.None? then before
      else Put(ClaimId, before, Rescore(claim.value, last.status, last.confidence))
  }

  function Verdicts(claims: seq<ClaimItem>, verdicts: seq<Verdict>): seq<ClaimItem> {
    Scored(ClaimCatalog(claims, MAX_VERDICTS_PER_CALL), verdicts)
  }

  /** The verdict names a claim of the catalogue that has this id. */
  predicate NamesClaim(catalog: seq<ClaimItem>, verdict: Verdict, id: Id) {
    1 <= verdict.claim <= |catalog| && catalog[verdict.claim - 1].id == id
  }

  /** Nothing but the score of a claim has changed. */
  predicate SameButScore(claim: ClaimItem, scored: ClaimItem) {
    && scored.id == claim.id && scored.normalizedKey == claim.normalizedKey && scored.text == claim.text
    && scored.evidenceIds == claim.evidenceIds && scored.objectValue == claim.objectValue
  }

  /** `scored` is a claim of the catalogue with the score the `i`th verdict gave
      it, and no later verdict names that claim. */
  predicate LastVerdict(catalog: seq<ClaimItem>, verdicts: seq<Verdict>, i: int, scored: ClaimItem) {
    && 0 <= i < |verdicts| && 1 <= verdicts[i].claim <= |catalog|
    && scored.status == verdicts[i].status && scored.confidence == verdicts[i].confidence
    && SameButScore(catalog[verdicts[i].claim - 1], scored)
    && forall j :: i < j < |verdicts| ==> !NamesClaim(catalog, verdicts[j], scored.id)
  }

  /** What each verdict gives, if it names a claim. */
  function Rescores(catalog: seq<ClaimItem>, verdicts: seq<Verdict>): (given: seq<Option<ClaimItem>>)
    ensures |given| == |verdicts|
  {
    seq(|verdicts|, i requires 0 <= i < |verdicts| =>
      var claim := Get(catalog, verdicts[i].claim);
      if claim.None? then None else Some(Rescore(claim.value, verdicts[i].status, verdicts[i].confidence)))
  }

  lemma {:induction false} ScoredIsGiven(catalog: seq<ClaimItem>, verdicts: seq<Verdict>)
    ensures Scored(catalog, verdicts) == PutGiven(ClaimId, Rescores(catalog, verdicts))
  {
    if verdicts != [] {
      var init := verdicts[..|verdicts| - 1];
      ScoredIsGiven(catalog, init);
      assert Rescores(catalog, verdicts)[..|verdicts| - 1] == Rescores(catalog, init);
    }
  }

  lemma GivenIsLastVerdict(catalog: seq<ClaimItem>, verdicts: seq<Verdict>, i: int, scored: ClaimItem)
    ensures GivenLast(ClaimId, Rescores(catalog, verdicts), i, scored) <==> LastVerdict(catalog, verdicts, i, scored)
  {
    var given := Rescores(catalog, verdicts);
    if 0 <= i < |verdicts| && given[i] == Some(scored) {
      forall j | i < j < |verdicts|
        ensures (given[j].Some? ==> ClaimId(given[j].value) != scored.id) <==> !NamesClaim(catalog, verdicts[j], scored.id)
      {
      }
    }
  }

  /** The last verdict on a claim stands: what comes back is exactly every claim
      some verdict names, scored as the last verdict naming it says. */
  lemma LastVerdictStands(claims: seq<ClaimItem>, verdicts: seq<Verdict>)
    ensures var catalog := ClaimCatalog(claims, MAX_VERDICTS_PER_CALL);
            && (forall c :: c in Verdicts(claims, verdicts) <==> exists i :: LastVerdict(catalog, verdicts, i, c))
            && (forall i, id :: 0 <= i < |verdicts| && NamesClaim(catalog, verdicts[i], id) ==>
                  IndexOf(ClaimId, Verdicts(claims, verdicts), id).Some?)
  {
    var catalog := ClaimCatalog(claims, MAX_VERDICTS_PER_CALL);
    var given := Rescores(catalog, verdicts);
    ScoredIsGiven(catalog, verdicts);
    LastGivenIsHeld(ClaimId, given);
    forall c ensures c in Verdicts(claims, verdicts) <==> exists i :: LastVerdict(catalog, verdicts, i, c) {
      forall i ensures GivenLast(ClaimId, given, i, c) <==> LastVerdict(catalog, verdicts, i, c) {
        GivenIsLastVerdict(catalog, verdicts, i, c);
      }
    }
    forall i, id | 0 <= i < |verdicts| && NamesClaim(catalog, verdicts[i], id)
      ensures IndexOf(ClaimId, Verdicts(claims, verdicts), id).Some?
    {
      assert given[i].Some? && ClaimId(given[i].value) == id;
    }
  }

  method Verify(claims: seq<ClaimItem>, verdicts: seq<Verdict>) returns (scored: seq<ClaimItem>)
    ensures scored == Verdicts(claims, verdicts)
    ensures forall c :: c in scored <==> exists i :: LastVerdict(ClaimCatalog(claims, MAX_VERDICTS_PER_CALL), verdicts, i, c)
  {
    var catalog := ClaimCatalog(claims, MAX_VERDICTS_PER_CALL);
    scored := [];
    for i := 0 to |verdicts|
      invariant scored == Scored(catalog, verdicts[..i])
    {
      assert verdicts[..i + 1][..i] == verdicts[..i];
      var claim := Get(catalog, verdicts[i].claim);
      if claim.Some? {
        scored := Put(ClaimId, scored, Rescore(claim.value, verdicts[i].status, verdicts[i].confidence));
      }
    }
    assert verdicts[..|verdicts|] == verdicts;
    LastVerdictStands(claims, verdicts);
  }

  /** `claim` is a stored claim with, at most, another score. */
  predicate Rescored(claims: seq<ClaimItem>, claim: ClaimItem) {
    exists c :: c in claims && SameButScore(c, claim)
  }

  lemma {:induction false} ScoredAreRescored(claims: seq<ClaimItem>, catalog: seq<ClaimItem>, verdicts: seq<Verdict>)
    requires forall c :: c in catalog ==> c in claims
    ensures UniqueIds(ClaimId, Scored(catalog, verdicts))
    ensures forall c :: c in Scored(catalog, verdicts) ==> Rescored(claims, c)
  {
    if verdicts != [] {
      var init, last := verdicts[..|verdicts| - 1], verdicts[|verdicts| - 1];
      ScoredAreRescored(claims, catalog, init);
      var claim := Get(catalog, last.claim);
      if claim.Some? {
        assert claim.value in catalog;
        var scored := Rescore(claim.value, last.status, last.confidence);
        assert SameButScore(claim.value, scored) && Rescored(claims, scored);
        PutKeeps(ClaimId, Scored(catalog, init), scored);
      }
    }
  }

  /** Verification re-scores and never invents: what it returns are claims of
      the run with nothing but their status and confidence changed. */
  lemma VerifiedAreRescored(claims: seq<ClaimItem>, verdicts: seq<Verdict>)
    ensures UniqueIds(ClaimId, Verdicts(claims, verdicts))
    ensures forall c :: c in Verdicts(claims, verdicts) ==> Rescored(claims, c)
  {
    CatalogOfClaims(claims, MAX_VERDICTS_PER_CALL);
    ScoredAreRescored(claims, ClaimCatalog(claims, MAX_VERDICTS_PER_CALL), verdicts);
  }

  lemma RescoredIsDependable(evidence: seq<EvidenceItem>, claims: seq<ClaimItem>, claim: ClaimItem)
    requires Dependable(evidence, claims, claims) && Rescored(claims, claim)
    ensures Reliable(evidence, claims, claim)
  {
    var c :| c in claims && SameButScore(c, claim);
    StoredIsMember(claims, c);
    assert Reliable(evidence, claims, c);
  }

  lemma VerifiedIsDependable(evidence: seq<EvidenceItem>, claims: seq<ClaimItem>, verdicts: seq<Verdict>)
    requires Dependable(evidence, claims, claims)
    ensures Dependable(evidence, claims, Verdicts(claims, verdicts))
  {
    VerifiedAreRescored(claims, verdicts);
    forall c | c in Verdicts(claims, verdicts) ensures Reliable(evidence, claims, c) {
      RescoredIsDependable(evidence, claims, c);
    }
  }

  // --- contradictions --------------------------------------------------------------------------

  datatype ProposedPair = ProposedPair(claimA: nat, claimB: nat, likelyReason: string)

  /** The first `n` claims whose key another claim of the catalogue has too. */
  function ContestedUpTo(catalog: seq<ClaimItem>, n: nat): seq<ClaimItem>
    requires n <= |catalog|
  {
    if n == 0 then []
    else ContestedUpTo(catalog, n - 1)
         + if |WithKey(catalog, catalog[n - 1].normalizedKey)| > 1 then [catalog[n - 1]] else []
  }

  function Contested(catalog: seq<ClaimItem>): seq<ClaimItem> {
    ContestedUpTo(catalog, |catalog|)
  }

  lemma {:induction false} ContestedAreClaims(catalog: seq<ClaimItem>, n: nat)
    requires n <= |catalog|
    ensures forall c :: c in ContestedUpTo(catalog, n) ==> c in catalog
  {
    if n > 0 {
      ContestedAreClaims(catalog, n - 1);
    }
  }

  /** A disagreement's id: derived from its two claims, the lower first. */
  function PairId(a: Id, b: Id): Id {
    Derived(Decimal(a) + [':'] + Decimal(b))
  }

  lemma PairIdTellsApart(a: Id, b: Id, c: Id, d: Id)
    requires PairId(a, b) == PairId(c, d)
    ensures a == c && b == d
  {
    DerivedIsInjective(Decimal(a) + [':'] + Decimal(b), Decimal(c) + [':'] + Decimal(d));
    SplitIsUnique(':', Decimal(a), Decimal(b), Decimal(c), Decimal(d));
    DecimalIsInjective(a, c);
    DecimalIsInjective(b, d);
  }

  function PairOf(first: ClaimItem, second: ClaimItem, reason: string): ContradictionItem
    requires first.id != second.id
  {
    var left, right := if first.id < second.id then first else second, if first.id < second.id then second else first;
    ContradictionValue(PairId(left.id, right.id), left.normalizedKey, left.id, right.id, reason)
  }

  /** What one proposed pair comes to: nothing unless it names two different
      claims about the same thing. */
  function PairedFrom(contested: seq<ClaimItem>, pair: ProposedPair): Option<ContradictionItem> {
    var first, second := Get(contested, pair.claimA), Get(contested, pair.claimB);
    if first.None? || second.None? || first.value.id == second.value.id then None
    else if first.value.normalizedKey != second.value.normalizedKey then None
    else Some(PairOf(first.value, second.value, pair.likelyReason))
  }

  /** What there is once one more pair has been looked at. */
  function WithPair(contested: seq<ClaimItem>, before: seq<ContradictionItem>,
                    pair: ProposedPair): seq<ContradictionItem> {
    var item := PairedFrom(contested, pair);
    if item.None? then before else Put(ContradictionId, before, item.value)
  }

  function PairedAll(contested: seq<ClaimItem>, pairs: seq<ProposedPair>): seq<ContradictionItem> {
    if pairs == [] then []
    else
      WithPair(contested, PairedAll(contested, pairs[..|pairs| - 1]), pairs[|pairs| - 1])
  }

  function ContradictionsIn(claims: seq<ClaimItem>, pairs: seq<ProposedPair>): seq<ContradictionItem> {
    PairedAll(Contested(ClaimCatalog(claims, MAX_PROMPT_CLAIMS)), pairs)
  }

  /** The claims grouped under a key so far. */
  function GroupOf(byKey: map<string, seq<ClaimItem>>, key: string): seq<ClaimItem> {
    if key in byKey then byKey[key] else []
  }

  ghost predicate Grouped(byKey: map<string, seq<ClaimItem>>, done: seq<ClaimItem>) {
    forall key :: GroupOf(byKey, key) == WithKey(done, key)
  }

  lemma GroupOne(byKey: map<string, seq<ClaimItem>>, done: seq<ClaimItem>, claim: ClaimItem)
    requires Grouped(byKey, done)
    ensures Grouped(byKey[claim.normalizedKey := GroupOf(byKey, claim.normalizedKey) + [claim]], done + [claim])
  {
    var byKey' := byKey[claim.normalizedKey := GroupOf(byKey, claim.normalizedKey) + [claim]];
    forall key ensures GroupOf(byKey', key) == WithKey(done + [claim], key) {
      WithKeyOne(done, claim, key);
      assert GroupOf(byKey, key) == WithKey(done, key);
    }
  }

  lemma WithKeyOne(done: seq<ClaimItem>, claim: ClaimItem, key: string)
    ensures WithKey(done + [claim], key) == if claim.normalizedKey == key then WithKey(done, key) + [claim] else WithKey(done, key)
  {
    assert (done + [claim])[..|done|] == done;
    assert WithKey(done, key) + [] == WithKey(done, key);
  }

  method GroupByKey(catalog: seq<ClaimItem>) returns (byKey: map<string, seq<ClaimItem>>)
    ensures Grouped(byKey, catalog)
  {
    byKey := map[];
    for i := 0 to |catalog|
      invariant Grouped(byKey, catalog[..i])
    {
      assert catalog[..i + 1] == catalog[..i] + [catalog[i]];
      GroupOne(byKey, catalog[..i], catalog[i]);
      byKey := byKey[catalog[i].normalizedKey := GroupOf(byKey, catalog[i].normalizedKey) + [catalog[i]]];
    }
    assert catalog[..|catalog|] == catalog;
  }

  lemma GroupIsWithKey(byKey: map<string, seq<ClaimItem>>, done: seq<ClaimItem>, key: string)
    requires Grouped(byKey, done)
    ensures GroupOf(byKey, key) == WithKey(done, key)
  {
  }

  method FindContested(catalog: seq<ClaimItem>) returns (contested: seq<ClaimItem>)
    ensures contested == Contested(catalog)
  {
    var byKey := GroupByKey(catalog);
    contested := [];
    for i := 0 to |catalog|
      invariant contested == ContestedUpTo(catalog, i)
    {
      GroupIsWithKey(byKey, catalog, catalog[i].normalizedKey);
      if |GroupOf(byKey, catalog[i].normalizedKey)| > 1 {
        contested := contested + [catalog[i]];
      }
    }
  }

  lemma PairedStep(contested: seq<ClaimItem>, pairs: seq<ProposedPair>, n: nat)
    requires n < |pairs|
    ensures PairedAll(contested, pairs[..n + 1]) == WithPair(contested, PairedAll(contested, pairs[..n]), pairs[n])
  {
    assert pairs[..n + 1][..n] == pairs[..n];
  }

  /** The pair numbers, in either order, two contested claims of one key that
      have these ids. */
  predicate PairNames(contested: seq<ClaimItem>, pair: ProposedPair, a: Id, b: Id) {
    && 1 <= pair.claimA <= |contested| && 1 <= pair.claimB <= |contested|
    && var first, second := contested[pair.claimA - 1], contested[pair.claimB - 1];
    && first.normalizedKey == second.normalizedKey
    && ((first.id == a && second.id == b) || (first.id == b && second.id == a))
  }

  /** `item` is the disagreement between the two claims a pair numbers: the lower
      id first, under their key, for the reason given. */
  predicate PairSays(contested: seq<ClaimItem>, pair: ProposedPair, item: ContradictionItem) {
    && item.claimAId < item.claimBId && PairNames(contested, pair, item.claimAId, item.claimBId)
    && item.id == PairId(item.claimAId, item.claimBId)
    && item.normalizedKey == contested[pair.claimA - 1].normalizedKey && item.likelyReason == pair.likelyReason
  }

  lemma PairedFromSays(contested: seq<ClaimItem>, pair: ProposedPair, item: ContradictionItem)
    ensures PairedFrom(contested, pair) == Some(item) <==> PairSays(contested, pair, item)
    ensures forall a, b :: a != b && PairNames(contested, pair, a, b) ==> PairedFrom(contested, pair).Some?
  {
  }

  lemma SamePairSameId(contested: seq<ClaimItem>, pair: ProposedPair, item: ContradictionItem)
    requires item.claimAId < item.claimBId && item.id == PairId(item.claimAId, item.claimBId)
    ensures PairNames(contested, pair, item.claimAId, item.claimBId)
            <==> PairedFrom(contested, pair).Some? && PairedFrom(contested, pair).value.id == item.id
  {
    var paired := PairedFrom(contested, pair);
    if paired.Some? {
      PairedFromSays(contested, pair, paired.value);
      if paired.value.id == item.id {
        PairIdTellsApart(paired.value.claimAId, paired.value.claimBId, item.claimAId, item.claimBId);
      }
    }
  }

  /** `item` is what the `i`th pair says, and no later pair names its claims. */
  predicate LastPair(contested: seq<ClaimItem>, pairs: seq<ProposedPair>, i: int, item: ContradictionItem) {
    && 0 <= i < |pairs| && PairSays(contested, pairs[i], item)
    && forall j :: i < j < |pairs| ==> !PairNames(contested, pairs[j], item.claimAId, item.claimBId)
  }

  function Pairings(contested: seq<ClaimItem>, pairs: seq<ProposedPair>): (given: seq<Option<ContradictionItem>>)
    ensures |given| == |pairs|
  {
    seq(|pairs|, i requires 0 <= i < |pairs| => PairedFrom(contested, pairs[i]))
  }

  lemma {:induction false} PairedIsGiven(contested: seq<ClaimItem>, pairs: seq<ProposedPair>)
    ensures PairedAll(contested, pairs) == PutGiven(ContradictionId, Pairings(contested, pairs))
  {
    if pairs != [] {
      PairedIsGiven(contested, pairs[..|pairs| - 1]);
      assert Pairings(contested, pairs)[..|pairs| - 1] == Pairings(contested, pairs[..|pairs| - 1]);
    }
  }

  lemma GivenIsLastPair(contested: seq<ClaimItem>, pairs: seq<ProposedPair>, i: int, item: ContradictionItem)
    ensures GivenLast(ContradictionId, Pairings(contested, pairs), i, item) <==> LastPair(contested, pairs, i, item)
  {
    var given := Pairings(contested, pairs);
    if 0 <= i < |pairs| {
      PairedFromSays(contested, pairs[i], item);
      if PairSays(contested, pairs[i], item) {
        forall j | i < j < |pairs|
          ensures (given[j].Some? ==> ContradictionId(given[j].value) != item.id)
                  <==> !PairNames(contested, pairs[j], item.claimAId, item.claimBId)
        {
          SamePairSameId(contested, pairs[j], item);
        }
      }
    }
  }

  lemma PairsHeldAreLast(contested: seq<ClaimItem>, pairs: seq<ProposedPair>, item: ContradictionItem)
    ensures item in PairedAll(contested, pairs) <==> exists i :: LastPair(contested, pairs, i, item)
  {
    var given := Pairings(contested, pairs);
    PairedIsGiven(contested, pairs);
    LastGivenIsHeld(ContradictionId, given);
    forall i ensures GivenLast(ContradictionId, given, i, item) <==> LastPair(contested, pairs, i, item) {
      GivenIsLastPair(contested, pairs, i, item);
    }
  }

  lemma NamedPairId(contested: seq<ClaimItem>, pair: ProposedPair, a: Id, b: Id)
    requires a < b && PairNames(contested, pair, a, b)
    ensures PairedFrom(contested, pair).Some? && ContradictionId(PairedFrom(contested, pair).value) == PairId(a, b)
  {
    PairedFromSays(contested, pair, PairOf(contested[pair.claimA - 1], contested[pair.claimB - 1], pair.likelyReason));
  }

  lemma PairIsHeld(contested: seq<ClaimItem>, pairs: seq<ProposedPair>, i: nat, a: Id, b: Id)
    requires i < |pairs| && a < b && PairNames(contested, pairs[i], a, b)
    ensures IndexOf(ContradictionId, PairedAll(contested, pairs), PairId(a, b)).Some?
  {
    var given := Pairings(contested, pairs);
    NamedPairId(contested, pairs[i], a, b);
    PairedIsGiven(contested, pairs);
    LastGivenIsHeld(ContradictionId, given);
    assert given[i] == PairedFrom(contested, pairs[i]);
  }

  /** Every pair of two different contested claims with one key is recorded, as
      the last pair that names them has it, and nothing else is. */
  lemma EveryPairIsRecorded(claims: seq<ClaimItem>, pairs: seq<ProposedPair>)
    ensures var contested := Contested(ClaimCatalog(claims, MAX_PROMPT_CLAIMS));
            && (forall k :: k in ContradictionsIn(claims, pairs) <==> exists i :: LastPair(contested, pairs, i, k))
            && (forall i, a, b :: 0 <= i < |pairs| && a < b && PairNames(contested, pairs[i], a, b) ==>
                  IndexOf(ContradictionId, ContradictionsIn(claims, pairs), PairId(a, b)).Some?)
  {
    var contested := Contested(ClaimCatalog(claims, MAX_PROMPT_CLAIMS));
    forall k ensures k in ContradictionsIn(claims, pairs) <==> exists i :: LastPair(contested, pairs, i, k) {
      PairsHeldAreLast(contested, pairs, k);
    }
    forall i, a, b | 0 <= i < |pairs| && a < b && PairNames(contested, pairs[i], a, b)
      ensures IndexOf(ContradictionId, ContradictionsIn(claims, pairs), PairId(a, b)).Some?
    {
      PairIsHeld(contested, pairs, i, a, b);
    }
  }

  method FindContradictions(claims: seq<ClaimItem>, pairs: seq<ProposedPair>) returns (found: seq<ContradictionItem>)
    ensures found == ContradictionsIn(claims, pairs)
    ensures forall k :: k in found <==>
              exists i :: LastPair(Contested(ClaimCatalog(claims, MAX_PROMPT_CLAIMS)), pairs, i, k)
  {
    var contested := FindContested(ClaimCatalog(claims, MAX_PROMPT_CLAIMS));
    found := [];
    for i := 0 to |pairs|
      invariant found == PairedAll(contested, pairs[..i])
    {
      PairedStep(contested, pairs, i);
      found := WithPair(contested, found, pairs[i]);
    }
    assert pairs[..|pairs|] == pairs;
    EveryPairIsRecorded(claims, pairs);
  }

  // --- what a recorded contradiction means -------------------------------------------------------

  /** A contradiction names two stored claims, the lower first, under the id that
      pair has. */
  predicate Paired(claims: seq<ClaimItem>, item: ContradictionItem) {
    && item.claimAId < item.claimBId
    && item.id == PairId(item.claimAId, item.claimBId)
    && IndexOf(ClaimId, claims, item.claimAId).Some?
    && IndexOf(ClaimId, claims, item.claimBId).Some?
  }

  /** The claim stored under an id is about `key`. */
  predicate AboutKey(claims: seq<ClaimItem>, id: Id, key: string) {
    var stored := Lookup(ClaimId, claims, id);
    stored.Some? && stored.value.normalizedKey == key
  }

  /** And the two are about one thing. */
  predicate Linked(claims: seq<ClaimItem>, item: ContradictionItem) {
    && Paired(claims, item)
    && AboutKey(claims, item.claimAId, item.normalizedKey)
    && AboutKey(claims, item.claimBId, item.normalizedKey)
  }

  lemma PairIsLinked(claims: seq<ClaimItem>, contested: seq<ClaimItem>, pair: ProposedPair)
    requires UniqueIds(ClaimId, claims) && forall c :: c in contested ==> c in claims
    requires PairedFrom(contested, pair).Some?
    ensures Linked(claims, PairedFrom(contested, pair).value)
  {
    var first, second := Get(contested, pair.claimA).value, Get(contested, pair.claimB).value;
    assert first in contested && second in contested;
    StoredIsMember(claims, first);
    StoredIsMember(claims, second);
  }

  lemma {:induction false} PairsAreLinked(claims: seq<ClaimItem>, contested: seq<ClaimItem>, pairs: seq<ProposedPair>)
    requires UniqueIds(ClaimId, claims) && forall c :: c in contested ==> c in claims
    ensures UniqueIds(ContradictionId, PairedAll(contested, pairs))
    ensures forall k :: k in PairedAll(contested, pairs) ==> Linked(claims, k)
  {
    if pairs != [] {
      var init, last := pairs[..|pairs| - 1], pairs[|pairs| - 1];
      PairsAreLinked(claims, contested, init);
      if PairedFrom(contested, last).Some? {
        PairIsLinked(claims, contested, last);
        PutKeeps(ContradictionId, PairedAll(contested, init), PairedFrom(contested, last).value);
      }
    }
  }

  /** Whatever pairs a model names, every contradiction recorded links two
      different stored claims that share a key, and no pair is recorded twice
      in either order. */
  lemma ContradictionsAreLinked(claims: seq<ClaimItem>, pairs: seq<ProposedPair>)
    requires UniqueIds(ClaimId, claims)
    ensures UniqueIds(ContradictionId, ContradictionsIn(claims, pairs))
    ensures forall k :: k in ContradictionsIn(claims, pairs) ==> Linked(claims, k)
  {
    var catalog := ClaimCatalog(claims, MAX_PROMPT_CLAIMS);
    CatalogOfClaims(claims, MAX_PROMPT_CLAIMS);
    ContestedAreClaims(catalog, |catalog|);
    PairsAreLinked(claims, Contested(catalog), pairs);
  }

  /** One disagreement, one id, and one id, one disagreement: whichever rounds
      recorded them, two contradictions have the same id exactly when they are
      between the same two claims, named in whichever order. */
  lemma OneIdPerPair(claims: seq<ClaimItem>, a: ContradictionItem, later: seq<ClaimItem>, b: ContradictionItem)
    requires Paired(claims, a) && Paired(later, b)
    ensures a.id == b.id <==> {a.claimAId, a.claimBId} == {b.claimAId, b.claimBId}
  {
    if a.id == b.id {
      PairIdTellsApart(a.claimAId, a.claimBId, b.claimAId, b.claimBId);
    }
    if {a.claimAId, a.claimBId} == {b.claimAId, b.claimBId} {
      assert a.claimAId in {b.claimAId, b.claimBId} && b.claimAId in {a.claimAId, a.claimBId};
      assert a.claimBId in {b.claimAId, b.claimBId} && b.claimBId in {a.claimAId, a.claimBId};
    }
  }

  /** So a list that holds no id twice has one record of each disagreement. */
  lemma OncePerPair(claims: seq<ClaimItem>, items: seq<ContradictionItem>, a: ContradictionItem, b: ContradictionItem)
    requires UniqueIds(ContradictionId, items) && a in items && b in items
    requires Paired(claims, a) && Paired(claims, b)
    ensures a == b <==> {a.claimAId, a.claimBId} == {b.claimAId, b.claimBId}
  {
    OneIdPerPair(claims, a, claims, b);
    if a.id == b.id {
      assert ContradictionId(a) == ContradictionId(b);
      SameIdSameItem(ContradictionId, items, a, b);
    }
  }
}
