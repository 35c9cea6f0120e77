/** What holds of everything a run has gathered, and why adding to it keeps
    that so. */
module Grounding {
  import opened Wrappers
  import opened Schemas
  import opened Reducers
  import opened Catalogs
  import opened Citations
  import opened Extraction
  import opened Normalizing
  import opened Verification
  import opened Graph

  predicate SpanGrounded(documents: map<Id, string>, sources: seq<SourceRef>, e: EvidenceItem) {
    ReadsBack(documents, e) && Retrieved(sources, e.sourceId)
  }

  predicate SpansGrounded(documents: map<Id, string>, sources: seq<SourceRef>, evidence: seq<EvidenceItem>) {
    forall e :: e in evidence ==> SpanGrounded(documents, sources, e)
  }

  predicate AllPaired(claims: seq<ClaimItem>, items: seq<ContradictionItem>) {
    forall k :: k in items ==> Paired(claims, k)
  }

  predicate Unique(m: Material) {
    && UniqueIds(SourceIdOf, m.sources) && UniqueIds(EvidenceId, m.evidence)
    && UniqueIds(ClaimId, m.claims) && UniqueIds(ContradictionId, m.contradictions)
  }

  /** Spans read back and are of retrieved sources; claims rest on stored spans;
      contradictions are between stored claims. */
  predicate Grounded(documents: map<Id, string>, m: Material) {
    && Unique(m)
    && SpansGrounded(documents, m.sources, m.evidence)
    && Dependable(m.evidence, m.claims, m.claims)
    && AllPaired(m.claims, m.contradictions)
  }

  // --- merging ------------------------------------------------------------------------------

  lemma MergedIsPut<T>(idOf: T -> Id, items: seq<T>, more: seq<T>)
    requires UniqueIds(idOf, items)
    ensures MergedById(idOf, items, more) == PutAll(idOf, items, more)
  {
    PutAllUnique(idOf, items);
  }

  lemma MergedNothing<T>(idOf: T -> Id, items: seq<T>)
    requires UniqueIds(idOf, items)
    ensures MergedById(idOf, items, []) == items
  {
    PutAllUnique(idOf, items);
  }

  lemma MergedUnique<T>(idOf: T -> Id, items: seq<T>, more: seq<T>)
    ensures UniqueIds(idOf, MergedById(idOf, items, more))
  {
    PutAllKeeps(idOf, [], items);
    PutAllKeeps(idOf, PutAll(idOf, [], items), more);
  }

  /** Ids, once stored, stay. */
  lemma MergedKeepsIds<T>(idOf: T -> Id, items: seq<T>, more: seq<T>, id: Id)
    requires UniqueIds(idOf, items) && IndexOf(idOf, items, id).Some?
    ensures IndexOf(idOf, MergedById(idOf, items, more), id).Some?
  {
    MergedIsPut(idOf, items, more);
    PutAllKeeps(idOf, items, more);
    var i := IndexOf(idOf, items, id).value;
    var merged := PutAll(idOf, items, more);
    assert idOf(merged[i]) == id;
  }

  // --- more sources, more evidence ------------------------------------------------------------

  lemma PrefixKeepsRetrieved(sources: seq<SourceRef>, later: seq<SourceRef>, id: Id)
    requires sources <= later && Retrieved(sources, id)
    ensures Retrieved(later, id)
  {
    var i := IndexOf(SourceIdOf, sources, id).value;
    assert SourceIdOf(later[i]) == id;
  }

  lemma SourcesGrounded(documents: map<Id, string>, m: Material, sources: seq<SourceRef>)
    requires Grounded(documents, m) && m.sources <= sources && UniqueIds(SourceIdOf, sources)
    ensures Grounded(documents, m.(sources := sources))
  {
    forall e | e in m.evidence ensures SpanGrounded(documents, sources, e) {
      assert SpanGrounded(documents, m.sources, e);
      PrefixKeepsRetrieved(m.sources, sources, e.sourceId);
    }
  }

  lemma ClaimStillRests(evidence: seq<EvidenceItem>, items: seq<EvidenceItem>, claim: ClaimItem)
    requires UniqueIds(EvidenceId, evidence) && Rests(evidence, claim)
    ensures Rests(MergedById(EvidenceId, evidence, items), claim)
  {
    forall id | id in claim.evidenceIds ensures IndexOf(EvidenceId, MergedById(EvidenceId, evidence, items), id).Some? {
      MergedKeepsIds(EvidenceId, evidence, items, id);
    }
  }

  lemma EvidenceGrounded(documents: map<Id, string>, m: Material, items: seq<EvidenceItem>)
    requires Grounded(documents, m) && SpansGrounded(documents, m.sources, items)
    ensures Grounded(documents, m.(evidence := MergedById(EvidenceId, m.evidence, items)))
  {
    var merged := MergedById(EvidenceId, m.evidence, items);
    MergedUnique(EvidenceId, m.evidence, items);
    MergedIsPut(EvidenceId, m.evidence, items);
    PutAllKeeps(EvidenceId, m.evidence, items);
    forall e | e in merged ensures SpanGrounded(documents, m.sources, e) {
      assert e in m.evidence || e in items;
    }
    forall c | c in m.claims ensures Reliable(merged, m.claims, c) {
      assert Reliable(m.evidence, m.claims, c);
      ClaimStillRests(m.evidence, items, c);
    }
  }

  // --- more claims ------------------------------------------------------------------------------

  /** `later` is `claim`, found again: with all the evidence it had, in place. */
  predicate Grown(claim: ClaimItem, later: ClaimItem) {
    later.id == claim.id && claim.evidenceIds <= later.evidenceIds
  }

  /** Every claim stored before is stored still, grown. */
  predicate AllGrown(claims: seq<ClaimItem>, later: seq<ClaimItem>) {
    forall c :: c in claims ==> StillStored(later, c)
  }

  predicate StillStored(later: seq<ClaimItem>, claim: ClaimItem) {
    var stored := Lookup(ClaimId, later, claim.id);
    stored.Some? && Grown(claim, stored.value)
  }

  lemma SameIdGrown(claims: seq<ClaimItem>, c: ClaimItem, later: ClaimItem)
    requires UniqueIds(ClaimId, claims) && c in claims && c.id == later.id
    requires later in claims || KeepsEvidence(claims, later)
    ensures Grown(c, later)
  {
    StoredIsMember(claims, c);
    if later in claims {
      SameIdSameItem(ClaimId, claims, c, later);
    }
  }

  lemma MergedClaimsGrow(evidence: seq<EvidenceItem>, claims: seq<ClaimItem>, items: seq<ClaimItem>)
    requires Dependable(evidence, claims, claims) && Dependable(evidence, claims, items)
    ensures AllGrown(claims, MergedById(ClaimId, claims, items))
  {
    var merged := MergedById(ClaimId, claims, items);
    MergedUnique(ClaimId, claims, items);
    MergedIsPut(ClaimId, claims, items);
    PutAllKeeps(ClaimId, claims, items);
    forall c | c in claims ensures StillStored(merged, c) {
      var i :| 0 <= i < |claims| && claims[i] == c;
      LookupUnique(ClaimId, merged, i);
      assert merged[i] in merged && (merged[i] in items ==> Reliable(evidence, claims, merged[i]));
      SameIdGrown(claims, c, merged[i]);
    }
  }

  lemma MergedClaimsDependable(evidence: seq<EvidenceItem>, claims: seq<ClaimItem>, items: seq<ClaimItem>)
    requires Dependable(evidence, claims, claims) && Dependable(evidence, claims, items)
    ensures var merged := MergedById(ClaimId, claims, items);
            Dependable(evidence, merged, merged)
  {
    var merged := MergedById(ClaimId, claims, items);
    MergedUnique(ClaimId, claims, items);
    MergedIsPut(ClaimId, claims, items);
    PutAllKeeps(ClaimId, claims, items);
    forall c | c in merged ensures Reliable(evidence, merged, c) {
      assert (c in claims || c in items) && Reliable(evidence, claims, c);
      StoredIsMember(merged, c);
    }
  }

  lemma StillPaired(claims: seq<ClaimItem>, later: seq<ClaimItem>, item: ContradictionItem)
    requires AllGrown(claims, later) && Paired(claims, item)
    ensures Paired(later, item)
  {
    StillThere(claims, later, item.claimAId);
    StillThere(claims, later, item.claimBId);
  }

  lemma StillThere(claims: seq<ClaimItem>, later: seq<ClaimItem>, id: Id)
    requires AllGrown(claims, later) && IndexOf(ClaimId, claims, id).Some?
    ensures IndexOf(ClaimId, later, id).Some?
  {
    var c := Lookup(ClaimId, claims, id).value;
    assert c in claims && StillStored(later, c);
  }

  lemma ClaimsGrounded(documents: map<Id, string>, m: Material, items: seq<ClaimItem>)
    requires Grounded(documents, m) && Dependable(m.evidence, m.claims, items)
    ensures Grounded(documents, m.(claims := MergedById(ClaimId, m.claims, items)))
  {
    MergedUnique(ClaimId, m.claims, items);
    MergedClaimsDependable(m.evidence, m.claims, items);
    MergedClaimsGrow(m.evidence, m.claims, items);
    forall k | k in m.contradictions ensures Paired(MergedById(ClaimId, m.claims, items), k) {
      StillPaired(m.claims, MergedById(ClaimId, m.claims, items), k);
    }
  }

  lemma ContradictionsGrounded(documents: map<Id, string>, m: Material, items: seq<ContradictionItem>)
    requires Grounded(documents, m) && AllPaired(m.claims, items)
    ensures Grounded(documents, m.(contradictions := MergedById(ContradictionId, m.contradictions, items)))
  {
    MergedUnique(ContradictionId, m.contradictions, items);
    MergedIsPut(ContradictionId, m.contradictions, items);
    PutAllKeeps(ContradictionId, m.contradictions, items);
  }

  // --- citations over what was gathered -----------------------------------------------------------

  function RecordsOf(m: Material): Records {
    Records(m.claims, m.evidence, m.sources)
  }

  lemma GroundedIsWellFounded(documents: map<Id, string>, m: Material)
    requires Grounded(documents, m)
    ensures WellFounded(RecordsOf(m))
  {
    forall e | e in m.evidence ensures Retrieved(m.sources, e.sourceId) {
      assert SpanGrounded(documents, m.sources, e);
    }
  }
}
