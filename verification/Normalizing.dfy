/** Turning evidence into claims (`ClaimNormalizerAgent` in
    `agents/extraction.py`). */
module Normalizing {
  import opened Wrappers
  import opened Ordering
  import opened Schemas
  import opened Reducers
  import opened Catalogs
  import opened Distinct
  import opened Keys
  import opened Names

  datatype ProposedClaim = ProposedClaim(text: string, normalizedKey: string, objectValue: string, confidence: nat, evidence: seq<nat>)

  // --- evidence no claim cites yet -------------------------------------------------------------

  predicate SpanBefore(a: EvidenceItem, b: EvidenceItem) {
    if a.sourceId != b.sourceId then a.sourceId < b.sourceId
    else if a.spanStart != b.spanStart then a.spanStart < b.spanStart
    else a.id <= b.id
  }

  predicate IsClaimed(claims: seq<ClaimItem>, id: Id) {
    exists i :: 0 <= i < |claims| && id in claims[i].evidenceIds
  }

  function Unused(evidence: seq<EvidenceItem>, claims: seq<ClaimItem>): seq<EvidenceItem> {
    if evidence == [] then []
    else
      var last := evidence[|evidence| - 1];
      Unused(evidence[..|evidence| - 1], claims) + if IsClaimed(claims, last.id) then [] else [last]
  }

  function Unclaimed(evidence: seq<EvidenceItem>, claims: seq<ClaimItem>): seq<EvidenceItem> {
    Capped(Sort(SpanBefore, Unused(evidence, claims)), MAX_PROMPT_EVIDENCE)
  }

  lemma {:induction false} UnusedIsEvidence(evidence: seq<EvidenceItem>, claims: seq<ClaimItem>)
    ensures forall e :: e in Unused(evidence, claims) <==> e in evidence && !IsClaimed(claims, e.id)
  {
    if evidence != [] {
      UnusedIsEvidence(evidence[..|evidence| - 1], claims);
      assert evidence == evidence[..|evidence| - 1] + [evidence[|evidence| - 1]];
    }
  }

  /** What is offered for a claim is evidence of the run that no claim cites,
      and all of it unless there is more than one call takes. */
  lemma UnclaimedIsNew(evidence: seq<EvidenceItem>, claims: seq<ClaimItem>)
    ensures forall e :: e in Unclaimed(evidence, claims) ==> e in evidence && !IsClaimed(claims, e.id)
    ensures |Unclaimed(evidence, claims)| < MAX_PROMPT_EVIDENCE ==>
              forall e :: e in evidence && !IsClaimed(claims, e.id) ==> e in Unclaimed(evidence, claims)
  {
    var unused := Unused(evidence, claims);
    UnusedIsEvidence(evidence, claims);
    SameMembers(unused, Sort(SpanBefore, unused));
    forall e | e in Unclaimed(evidence, claims) ensures e in unused {
      assert e in Sort(SpanBefore, unused);
    }
  }

  /** Grouped by source, and through each source in order. */
  predicate ReadBefore(a: EvidenceItem, b: EvidenceItem) {
    || a.sourceId < b.sourceId
    || (a.sourceId == b.sourceId && a.spanStart < b.spanStart)
    || (a.sourceId == b.sourceId && a.spanStart == b.spanStart && a.id <= b.id)
  }

  lemma SpansAreRead(spans: seq<EvidenceItem>, i: nat, j: nat)
    requires i < j < |Sort(SpanBefore, spans)|
    ensures ReadBefore(Sort(SpanBefore, spans)[i], Sort(SpanBefore, spans)[j])
  {
    SpanBeforeIsTotal();
    SortSorts(SpanBefore, spans);
    assert SpanBefore(Sort(SpanBefore, spans)[i], Sort(SpanBefore, spans)[j]);
  }

  lemma SpanBeforeIsTotal()
    ensures TotalPreorder(SpanBefore)
  {
  }

  /** The spans offered are in reading order. */
  lemma UnclaimedIsOrdered(evidence: seq<EvidenceItem>, claims: seq<ClaimItem>, i: nat, j: nat)
    requires i < j < |Unclaimed(evidence, claims)|
    ensures ReadBefore(Unclaimed(evidence, claims)[i], Unclaimed(evidence, claims)[j])
  {
    SpansAreRead(Unused(evidence, claims), i, j);
  }

  /** What is held back for a later call comes after all that is offered. */
  lemma HeldBackIsLater(evidence: seq<EvidenceItem>, claims: seq<ClaimItem>, offered: EvidenceItem, held: EvidenceItem)
    requires offered in Unclaimed(evidence, claims)
    requires held in evidence && !IsClaimed(claims, held.id) && held !in Unclaimed(evidence, claims)
    ensures ReadBefore(offered, held)
  {
    var unused, front := Unused(evidence, claims), Unclaimed(evidence, claims);
    var sorted := Sort(SpanBefore, unused);
    UnusedIsEvidence(evidence, claims);
    SameMembers(unused, sorted);
    var i :| 0 <= i < |front| && front[i] == offered;
    var j :| 0 <= j < |sorted| && sorted[j] == held;
    forall k | 0 <= k < |front| ensures sorted[k] in front {
      assert front[k] == sorted[k];
    }
    assert |front| <= j;
    SpansAreRead(unused, i, j);
  }

  // --- one proposed claim ----------------------------------------------------------------------

  function WithKey(claims: seq<ClaimItem>, key: string): seq<ClaimItem> {
    if claims == [] then []
    else
      var last := claims[|claims| - 1];
      WithKey(claims[..|claims| - 1], key) + if last.normalizedKey == key then [last] else []
  }

  /** The only claim with a key, unless several have it. A claim that is both
      stored and pending is counted twice. */
  function OnlyClaimKeyed(key: string, existing: seq<ClaimItem>, pending: seq<ClaimItem>): Option<ClaimItem> {
    var found := WithKey(existing, key) + WithKey(pending, key);
    if |found| == 1 then Some(found[0]) else None
  }

  function EvidenceIds(items: seq<EvidenceItem>): (ids: seq<Id>)
    ensures |ids| == |items|
  {
    seq(|items|, i requires 0 <= i < |items| => items[i].id)
  }

  /** What was there, then what is new, up to the most a claim may carry. */
  function MergedEvidence(previous: Option<ClaimItem>, cited: seq<EvidenceItem>): seq<Id> {
    var before := if previous.Some? then previous.value.evidenceIds else [];
    Capped(before + New(before, EvidenceIds(cited)), MAX_EVIDENCE_PER_CLAIM)
  }

  lemma MergedExtends(previous: Option<ClaimItem>, cited: seq<EvidenceItem>)
    requires cited != []
    ensures 1 <= |MergedEvidence(previous, cited)| <= MAX_EVIDENCE_PER_CLAIM
    ensures previous.Some? ==> previous.value.evidenceIds <= MergedEvidence(previous, cited)
    ensures forall id :: id in MergedEvidence(previous, cited) ==>
              (previous.Some? && id in previous.value.evidenceIds) || id in EvidenceIds(cited)
  {
    var before := if previous.Some? then previous.value.evidenceIds else [];
    NewIsNew(before, EvidenceIds(cited));
    assert EvidenceIds(cited)[0] in EvidenceIds(cited);
    var all := before + New(before, EvidenceIds(cited));
    assert forall id :: id in MergedEvidence(previous, cited) ==> id in all;
  }

  /** A claim found before under this id, in this answer or in the run. */
  function FoundBefore(id: Id, existing: seq<ClaimItem>, pending: seq<ClaimItem>): Option<ClaimItem> {
    var mine := Lookup(ClaimId, pending, id);
    if mine.Some? then mine else Lookup(ClaimId, existing, id)
  }

  /** The claim a proposal finds again, if any: the same assertion, or, when it
      asserts no value, the only one about its subject. */
  function PreviousClaim(key: string, value: string, existing: seq<ClaimItem>,
                         pending: seq<ClaimItem>): Option<ClaimItem> {
    var same := FoundBefore(ClaimIdentity(key, value), existing, pending);
    if same.None? && value == [] then OnlyClaimKeyed(key, existing, pending) else same
  }

  /** The claim a proposal comes to. */
  function ClaimFrom(key: string, value: string, proposed: ProposedClaim, previous: Option<ClaimItem>,
                     cited: seq<EvidenceItem>): ClaimItem
    requires key != [] && cited != []
  {
    MergedExtends(previous, cited);
    ClaimValue(
      if previous.Some? then previous.value.id else ClaimIdentity(key, value),
      key, proposed.text,
      if previous.Some? then previous.value.status else Candidate,
      proposed.confidence,
      MergedEvidence(previous, cited),
      if value != [] then value else if previous.Some? then previous.value.objectValue else [])
  }

  /** The claim a proposal that cites something comes to, on top of those before. */
  function ClaimOf(existing: seq<ClaimItem>, unclaimed: seq<EvidenceItem>, pending: seq<ClaimItem>,
                   proposed: ProposedClaim): ClaimItem
    requires Found(unclaimed, proposed.evidence) != [] && NormalizeKey(proposed.normalizedKey) != []
  {
    var key := NormalizeKey(proposed.normalizedKey);
    var value := AssertedValue(proposed.objectValue, proposed.text);
    ClaimFrom(key, value, proposed, PreviousClaim(key, value, existing, pending), Found(unclaimed, proposed.evidence))
  }

  /** One proposal, on top of those before it. Nothing, if its key is blank: a
      claim without a key cannot be held, and the whole answer fails. */
  function NormalizedOne(existing: seq<ClaimItem>, unclaimed: seq<EvidenceItem>, pending: seq<ClaimItem>,
                         proposed: ProposedClaim): Option<seq<ClaimItem>> {
    if Found(unclaimed, proposed.evidence) == [] then Some(pending)
    else if NormalizeKey(proposed.normalizedKey) == [] then None
    else Some(Put(ClaimId, pending, ClaimOf(existing, unclaimed, pending, proposed)))
  }

  function NormalizedAll(existing: seq<ClaimItem>, unclaimed: seq<EvidenceItem>,
                         proposals: seq<ProposedClaim>): Option<seq<ClaimItem>> {
    if proposals == [] then Some([])
    else
      var before := NormalizedAll(existing, unclaimed, proposals[..|proposals| - 1]);
      if before.None? then None
      else NormalizedOne(existing, unclaimed, before.value, proposals[|proposals| - 1])
  }

  /** What the normalizer returns for a model's proposals, if it does not raise. */
  function Normalized(evidence: seq<EvidenceItem>, existing: seq<ClaimItem>,
                      proposals: seq<ProposedClaim>): Option<seq<ClaimItem>> {
    var unclaimed := Unclaimed(evidence, existing);
    if unclaimed == [] then Some([]) else NormalizedAll(existing, unclaimed, proposals)
  }

  lemma {:induction false} FailureStays(existing: seq<ClaimItem>, unclaimed: seq<EvidenceItem>,
                                        proposals: seq<ProposedClaim>, n: nat)
    requires n <= |proposals| && NormalizedAll(existing, unclaimed, proposals[..n]).None?
    ensures NormalizedAll(existing, unclaimed, proposals).None?
  {
    if n == |proposals| {
      assert proposals[..n] == proposals;
    } else {
      var init := proposals[..|proposals| - 1];
      assert init[..n] == proposals[..n];
      FailureStays(existing, unclaimed, init, n);
    }
  }

  lemma NormalizedStep(existing: seq<ClaimItem>, unclaimed: seq<EvidenceItem>, proposals: seq<ProposedClaim>, n: nat,
                       claims: seq<ClaimItem>)
    requires n < |proposals| && NormalizedAll(existing, unclaimed, proposals[..n]) == Some(claims)
    ensures NormalizedAll(existing, unclaimed, proposals[..n + 1]) == NormalizedOne(existing, unclaimed, claims, proposals[n])
  {
    assert proposals[..n + 1][..n] == proposals[..n];
  }

  method Normalize(evidence: seq<EvidenceItem>, existing: seq<ClaimItem>, proposals: seq<ProposedClaim>)
    returns (answer: Option<seq<ClaimItem>>)
    ensures answer == Normalized(evidence, existing, proposals)
    ensures UniqueIds(ClaimId, existing) && answer.Some? ==>
              AllKeep(existing, Unclaimed(evidence, existing), proposals, answer.value)
  {
    var unclaimed := Unclaimed(evidence, existing);
    if unclaimed == [] {
      return Some([]);
    }
    var claims: seq<ClaimItem> := [];
    for i := 0 to |proposals|
      invariant NormalizedAll(existing, unclaimed, proposals[..i]) == Some(claims)
    {
      NormalizedStep(existing, unclaimed, proposals, i, claims);
      var proposed := proposals[i];
      var cited := Found(unclaimed, proposed.evidence);
      if cited != [] {
        var key := NormalizeKey(proposed.normalizedKey);
        var value := AssertedValue(proposed.objectValue, proposed.text);
        var id := ClaimIdentity(key, value);
        var previous := FoundBefore(id, existing, claims);
        if previous.None? && value == [] {
          previous := OnlyClaimKeyed(key, existing, claims);
        }
        if key == [] {
          FailureStays(existing, unclaimed, proposals, i + 1);
          return None;
        }
        claims := Put(ClaimId, claims, ClaimFrom(key, value, proposed, previous, cited));
      }
    }
    assert proposals[..|proposals|] == proposals;
    answer := Some(claims);
    if UniqueIds(ClaimId, existing) {
      FoundAgainKeeps(existing, unclaimed, proposals);
    }
  }

  // --- what every claim keeps --------------------------------------------------------------------

  /** `claim` has all the evidence, in its place, that the claim stored under
      its id has. */
  predicate KeepsEvidence(existing: seq<ClaimItem>, claim: ClaimItem) {
    var stored := Lookup(ClaimId, existing, claim.id);
    stored.Some? ==> stored.value.evidenceIds <= claim.evidenceIds
  }

  lemma {:induction false} WithKeyHas(claims: seq<ClaimItem>, key: string)
    ensures forall c :: c in WithKey(claims, key) <==> c in claims && c.normalizedKey == key
  {
    if claims != [] {
      WithKeyHas(claims[..|claims| - 1], key);
      assert claims == claims[..|claims| - 1] + [claims[|claims| - 1]];
    }
  }

  /** The claim found again is one of the run's or of this answer's. */
  lemma PreviousIsThere(key: string, value: string, existing: seq<ClaimItem>, pending: seq<ClaimItem>)
    requires PreviousClaim(key, value, existing, pending).Some?
    ensures var p := PreviousClaim(key, value, existing, pending).value;
            && (p in existing || p in pending)
            && (p.id == ClaimIdentity(key, value) || (value == [] && p.normalizedKey == key))
  {
    WithKeyHas(existing, key);
    WithKeyHas(pending, key);
  }

  /** A stored claim found by its id is among the claims. */
  lemma StoredIsMember(claims: seq<ClaimItem>, c: ClaimItem)
    requires UniqueIds(ClaimId, claims) && c in claims
    ensures Lookup(ClaimId, claims, c.id) == Some(c)
  {
    var i :| 0 <= i < |claims| && claims[i] == c;
    LookupUnique(ClaimId, claims, i);
  }

  lemma PreviousKept(key: string, value: string, proposed: ProposedClaim, existing: seq<ClaimItem>,
                     pending: seq<ClaimItem>, cited: seq<EvidenceItem>)
    requires key != [] && cited != [] && UniqueIds(ClaimId, existing)
    requires forall c :: c in pending ==> KeepsEvidence(existing, c)
    ensures KeepsEvidence(existing, ClaimFrom(key, value, proposed, PreviousClaim(key, value, existing, pending), cited))
  {
    var previous := PreviousClaim(key, value, existing, pending);
    MergedExtends(previous, cited);
    if previous.Some? {
      PreviousIsThere(key, value, existing, pending);
      if previous.value in existing {
        StoredIsMember(existing, previous.value);
      } else {
        assert KeepsEvidence(existing, previous.value);
      }
    }
  }

  lemma FoundHasId(evidence: seq<EvidenceItem>, e: EvidenceItem)
    requires e in evidence
    ensures IndexOf(EvidenceId, evidence, e.id).Some?
  {
    var i :| 0 <= i < |evidence| && evidence[i] == e;
    assert EvidenceId(evidence[i]) == e.id;
  }

  lemma ClaimRests(key: string, value: string, proposed: ProposedClaim, previous: Option<ClaimItem>,
                   cited: seq<EvidenceItem>, evidence: seq<EvidenceItem>)
    requires key != [] && cited != []
    requires previous.Some? ==> Rests(evidence, previous.value)
    requires forall e :: e in cited ==> e in evidence
    ensures Rests(evidence, ClaimFrom(key, value, proposed, previous, cited))
  {
    MergedExtends(previous, cited);
    forall id | id in EvidenceIds(cited) ensures IndexOf(EvidenceId, evidence, id).Some? {
      var i :| 0 <= i < |cited| && EvidenceIds(cited)[i] == id;
      assert cited[i] in cited;
      FoundHasId(evidence, cited[i]);
    }
  }

  /** `claim`, over claims and evidence of a run: nothing it cited is lost, and
      everything it cites is stored. */
  predicate Reliable(evidence: seq<EvidenceItem>, existing: seq<ClaimItem>, claim: ClaimItem) {
    KeepsEvidence(existing, claim) && Rests(evidence, claim)
  }

  /** What a set of new claims may be relied on for, against the run so far. */
  predicate Dependable(evidence: seq<EvidenceItem>, existing: seq<ClaimItem>, claims: seq<ClaimItem>) {
    && UniqueIds(ClaimId, claims)
    && forall c :: c in claims ==> Reliable(evidence, existing, c)
  }

  lemma OneIsDependable(evidence: seq<EvidenceItem>, existing: seq<ClaimItem>, unclaimed: seq<EvidenceItem>,
                        pending: seq<ClaimItem>, proposed: ProposedClaim)
    requires Dependable(evidence, existing, existing) && Dependable(evidence, existing, pending)
    requires forall e :: e in unclaimed ==> e in evidence
    requires NormalizedOne(existing, unclaimed, pending, proposed).Some?
    ensures Dependable(evidence, existing, NormalizedOne(existing, unclaimed, pending, proposed).value)
  {
    var cited := Found(unclaimed, proposed.evidence);
    ResolvedIsOffered(unclaimed, proposed.evidence);
    if cited != [] {
      var key := NormalizeKey(proposed.normalizedKey);
      var value := AssertedValue(proposed.objectValue, proposed.text);
      var previous := PreviousClaim(key, value, existing, pending);
      if previous.Some? {
        PreviousIsThere(key, value, existing, pending);
        assert Reliable(evidence, existing, previous.value);
      }
      PreviousKept(key, value, proposed, existing, pending, cited);
      ClaimRests(key, value, proposed, previous, cited, evidence);
      PutKeeps(ClaimId, pending, ClaimFrom(key, value, proposed, previous, cited));
    }
  }

  lemma {:induction false} AllAreDependable(evidence: seq<EvidenceItem>, existing: seq<ClaimItem>,
                                            unclaimed: seq<EvidenceItem>, proposals: seq<ProposedClaim>)
    requires Dependable(evidence, existing, existing)
    requires forall e :: e in unclaimed ==> e in evidence
    requires NormalizedAll(existing, unclaimed, proposals).Some?
    ensures Dependable(evidence, existing, NormalizedAll(existing, unclaimed, proposals).value)
  {
    if proposals != [] {
      var init, last := proposals[..|proposals| - 1], proposals[|proposals| - 1];
      AllAreDependable(evidence, existing, unclaimed, init);
      OneIsDependable(evidence, existing, unclaimed, NormalizedAll(existing, unclaimed, init).value, last);
    }
  }

  /** Whatever a model proposes: no id twice, and every claim the normalizer
      returns has the evidence it already had, in its place, and rests on
      evidence of the run. */
  lemma NormalizedIsDependable(evidence: seq<EvidenceItem>, existing: seq<ClaimItem>, proposals: seq<ProposedClaim>)
    requires Dependable(evidence, existing, existing)
    requires Normalized(evidence, existing, proposals).Some?
    ensures Dependable(evidence, existing, Normalized(evidence, existing, proposals).value)
  {
    var unclaimed := Unclaimed(evidence, existing);
    UnclaimedIsNew(evidence, existing);
    if unclaimed != [] {
      AllAreDependable(evidence, existing, unclaimed, proposals);
    }
  }

  // --- what is returned of what was proposed -----------------------------------------------------

  predicate CitesOne(claim: ClaimItem, id: Id) {
    id in claim.evidenceIds || |claim.evidenceIds| == MAX_EVIDENCE_PER_CLAIM
  }

  /** Every span that is numbered is in the claim's evidence, or that is full. */
  predicate CitesNumbered(unclaimed: seq<EvidenceItem>, numbers: seq<nat>, claim: ClaimItem) {
    forall n :: n in numbers && 1 <= n <= |unclaimed| ==> CitesOne(claim, unclaimed[n - 1].id)
  }

  predicate NumbersSome(unclaimed: seq<EvidenceItem>, numbers: seq<nat>) {
    exists n :: n in numbers && 1 <= n <= |unclaimed|
  }

  /** `claim` is worded and keyed as the `i`th proposal is, which numbers some
      span offered, and cites all it numbers. */
  predicate ProposedBy(unclaimed: seq<EvidenceItem>, proposals: seq<ProposedClaim>, i: int, claim: ClaimItem) {
    && 0 <= i < |proposals| && NumbersSome(unclaimed, proposals[i].evidence)
    && claim.normalizedKey == NormalizeKey(proposals[i].normalizedKey)
    && claim.text == proposals[i].text && claim.confidence == proposals[i].confidence
    && CitesNumbered(unclaimed, proposals[i].evidence, claim)
  }

  lemma CitedIsNumbered(unclaimed: seq<EvidenceItem>, numbers: seq<nat>)
    ensures Found(unclaimed, numbers) != [] <==> NumbersSome(unclaimed, numbers)
    ensures forall n :: n in numbers && 1 <= n <= |unclaimed| ==> unclaimed[n - 1].id in EvidenceIds(Found(unclaimed, numbers))
  {
    var found := Found(unclaimed, numbers);
    ResolvedIsOffered(unclaimed, numbers);
    if found != [] {
      assert found[0] in found;
    }
    forall n | n in numbers && 1 <= n <= |unclaimed| ensures unclaimed[n - 1].id in EvidenceIds(found) {
      assert unclaimed[n - 1] in found;
      var k :| 0 <= k < |found| && found[k] == unclaimed[n - 1];
      assert EvidenceIds(found)[k] == unclaimed[n - 1].id;
    }
  }

  lemma ClaimCites(key: string, value: string, proposed: ProposedClaim, previous: Option<ClaimItem>,
                   cited: seq<EvidenceItem>, id: Id)
    requires key != [] && cited != [] && id in EvidenceIds(cited)
    ensures CitesOne(ClaimFrom(key, value, proposed, previous, cited), id)
  {
    var before := if previous.Some? then previous.value.evidenceIds else [];
    MergedExtends(previous, cited);
    NewIsNew(before, EvidenceIds(cited));
    var all := before + New(before, EvidenceIds(cited));
    assert forall id :: id in EvidenceIds(cited) ==> id in all;
  }

  lemma ProposedOne(existing: seq<ClaimItem>, unclaimed: seq<EvidenceItem>, proposals: seq<ProposedClaim>,
                    before: seq<ClaimItem>, i: nat)
    requires i < |proposals| && NormalizedOne(existing, unclaimed, before, proposals[i]).Some?
    requires Found(unclaimed, proposals[i].evidence) != []
    ensures ProposedBy(unclaimed, proposals, i, ClaimOf(existing, unclaimed, before, proposals[i]))
  {
    var proposed := proposals[i];
    var cited := Found(unclaimed, proposed.evidence);
    var key, value := NormalizeKey(proposed.normalizedKey), AssertedValue(proposed.objectValue, proposed.text);
    var previous := PreviousClaim(key, value, existing, before);
    var claim := ClaimOf(existing, unclaimed, before, proposed);
    CitedIsNumbered(unclaimed, proposed.evidence);
    forall n | n in proposed.evidence && 1 <= n <= |unclaimed| ensures CitesOne(claim, unclaimed[n - 1].id) {
      ClaimCites(key, value, proposed, previous, cited, unclaimed[n - 1].id);
    }
  }

  /** Nothing is returned that was not proposed: every claim is worded as some
      proposal with evidence is, under its normalised key, and cites what that
      proposal cites. */
  lemma {:induction false} ClaimsAreProposed(existing: seq<ClaimItem>, unclaimed: seq<EvidenceItem>,
                                             proposals: seq<ProposedClaim>)
    requires NormalizedAll(existing, unclaimed, proposals).Some?
    ensures UniqueIds(ClaimId, NormalizedAll(existing, unclaimed, proposals).value)
    ensures forall c :: c in NormalizedAll(existing, unclaimed, proposals).value ==>
              exists i :: ProposedBy(unclaimed, proposals, i, c)
  {
    if proposals != [] {
      var n := |proposals| - 1;
      var init, last := proposals[..n], proposals[n];
      ClaimsAreProposed(existing, unclaimed, init);
      var before := NormalizedAll(existing, unclaimed, init).value;
      forall c | c in before ensures exists i :: ProposedBy(unclaimed, proposals, i, c) {
        var i :| ProposedBy(unclaimed, init, i, c);
        assert ProposedBy(unclaimed, proposals, i, c);
      }
      if Found(unclaimed, last.evidence) != [] {
        ProposedOne(existing, unclaimed, proposals, before, n);
        PutKeeps(ClaimId, before, ClaimOf(existing, unclaimed, before, last));
      }
    }
  }

  // --- what a claim found again keeps ----------------------------------------------------------------

  /** The status of the claim stored under its id, or, if there is none, a
      candidate's. */
  predicate KeepsStatus(existing: seq<ClaimItem>, claim: ClaimItem) {
    var stored := Lookup(ClaimId, existing, claim.id);
    claim.status == if stored.Some? then stored.value.status else Candidate
  }

  function ValueOf(existing: seq<ClaimItem>, id: Id): string {
    var stored := Lookup(ClaimId, existing, id);
    if stored.Some? then stored.value.objectValue else []
  }

  function Asserted(proposed: ProposedClaim): string {
    AssertedValue(proposed.objectValue, proposed.text)
  }

  /** The value the `i`th proposal asserts, or, if it asserts none, what there
      was: a stored value is never given up for nothing. */
  predicate KeepsValue(existing: seq<ClaimItem>, proposals: seq<ProposedClaim>, i: int, claim: ClaimItem) {
    && 0 <= i < |proposals|
    && (Asserted(proposals[i]) != [] ==> claim.objectValue == Asserted(proposals[i]))
    && (Asserted(proposals[i]) == [] ==> claim.objectValue == ValueOf(existing, claim.id) || AssertedBefore(proposals, i, claim.objectValue))
    && (ValueOf(existing, claim.id) != [] ==> claim.objectValue != [])
  }

  predicate AssertedBefore(proposals: seq<ProposedClaim>, i: int, value: string) {
    exists j :: 0 <= j < i && j < |proposals| && Asserted(proposals[j]) == value
  }

  lemma ClaimKeeps(existing: seq<ClaimItem>, unclaimed: seq<EvidenceItem>, pending: seq<ClaimItem>,
                   proposals: seq<ProposedClaim>, n: nat)
    requires n < |proposals| && UniqueIds(ClaimId, existing)
    requires Found(unclaimed, proposals[n].evidence) != [] && NormalizeKey(proposals[n].normalizedKey) != []
    requires forall c :: c in pending ==> KeepsStatus(existing, c) && exists i :: i < n && KeepsValue(existing, proposals, i, c)
    ensures var claim := ClaimOf(existing, unclaimed, pending, proposals[n]);
            KeepsStatus(existing, claim) && KeepsValue(existing, proposals, n, claim)
  {
    var key, value := NormalizeKey(proposals[n].normalizedKey), Asserted(proposals[n]);
    var previous := PreviousClaim(key, value, existing, pending);
    if previous.Some? {
      PreviousIsThere(key, value, existing, pending);
      if previous.value in pending {
        var i :| i < n && KeepsValue(existing, proposals, i, previous.value);
        assert previous.value.objectValue == Asserted(proposals[i]) ==> AssertedBefore(proposals, n, previous.value.objectValue);
      } else {
        StoredIsMember(existing, previous.value);
      }
    }
  }

  /** A claim keeps its status, and some proposal it is worded as, its value. */
  ghost predicate Keeps(existing: seq<ClaimItem>, unclaimed: seq<EvidenceItem>, proposals: seq<ProposedClaim>, c: ClaimItem) {
    && KeepsStatus(existing, c)
    && exists i :: ProposedBy(unclaimed, proposals, i, c) && KeepsValue(existing, proposals, i, c)
  }

  ghost predicate AllKeep(existing: seq<ClaimItem>, unclaimed: seq<EvidenceItem>, proposals: seq<ProposedClaim>,
                          claims: seq<ClaimItem>) {
    forall c :: c in claims ==> Keeps(existing, unclaimed, proposals, c)
  }

  lemma StillKeeps(existing: seq<ClaimItem>, unclaimed: seq<EvidenceItem>, proposals: seq<ProposedClaim>, n: nat,
                   i: int, c: ClaimItem)
    requires n <= |proposals| && ProposedBy(unclaimed, proposals[..n], i, c) && KeepsValue(existing, proposals[..n], i, c)
    ensures i < n && ProposedBy(unclaimed, proposals, i, c) && KeepsValue(existing, proposals, i, c)
  {
    var init := proposals[..n];
    assert init[i] == proposals[i];
    if AssertedBefore(init, i, c.objectValue) {
      var j :| 0 <= j < i && j < |init| && Asserted(init[j]) == c.objectValue;
      assert Asserted(proposals[j]) == c.objectValue;
    }
  }

  /** A claim found again keeps its status, and a new one is a candidate; and
      its value is what some proposal with its key asserts, or what it was. */
  lemma {:induction false} FoundAgainKeeps(existing: seq<ClaimItem>, unclaimed: seq<EvidenceItem>,
                                           proposals: seq<ProposedClaim>)
    requires UniqueIds(ClaimId, existing) && NormalizedAll(existing, unclaimed, proposals).Some?
    ensures AllKeep(existing, unclaimed, proposals, NormalizedAll(existing, unclaimed, proposals).value)
  {
    if proposals != [] {
      var n := |proposals| - 1;
      var init, last := proposals[..n], proposals[n];
      FoundAgainKeeps(existing, unclaimed, init);
      ClaimsAreProposed(existing, unclaimed, init);
      var before := NormalizedAll(existing, unclaimed, init).value;
      forall c | c in before
        ensures exists i :: i < n && ProposedBy(unclaimed, proposals, i, c) && KeepsValue(existing, proposals, i, c)
      {
        assert Keeps(existing, unclaimed, init, c);
        var i :| ProposedBy(unclaimed, init, i, c) && KeepsValue(existing, init, i, c);
        StillKeeps(existing, unclaimed, proposals, n, i, c);
      }
      if Found(unclaimed, last.evidence) != [] {
        var claim := ClaimOf(existing, unclaimed, before, last);
        ProposedOne(existing, unclaimed, proposals, before, n);
        ClaimKeeps(existing, unclaimed, before, proposals, n);
        assert ProposedBy(unclaimed, proposals, n, claim) && KeepsValue(existing, proposals, n, claim);
        PutKeeps(ClaimId, before, claim);
      }
      forall c | c in before ensures Keeps(existing, unclaimed, proposals, c) {
        assert Keeps(existing, unclaimed, init, c);
      }
    }
  }

  lemma NormalizedKeepsStatus(evidence: seq<EvidenceItem>, existing: seq<ClaimItem>, proposals: seq<ProposedClaim>)
    requires UniqueIds(ClaimId, existing) && Normalized(evidence, existing, proposals).Some?
    ensures forall c :: c in Normalized(evidence, existing, proposals).value ==> KeepsStatus(existing, c)
  {
    if Unclaimed(evidence, existing) != [] {
      FoundAgainKeeps(existing, Unclaimed(evidence, existing), proposals);
      assert forall c :: c in Normalized(evidence, existing, proposals).value ==>
        Keeps(existing, Unclaimed(evidence, existing), proposals, c);
    }
  }
}
