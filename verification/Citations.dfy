/** Following each number a draft cites to a claim, its spans and their
    sources (`CitationValidator` in `agents/citations.py`). */
module Citations {
  import opened Wrappers
  import opened Ordering
  import opened Schemas
  import opened Reducers
  import opened Catalogs
  import opened Markers

  /** The records a citation is resolved through. */
  datatype Records = Records(claims: seq<ClaimItem>, evidence: seq<EvidenceItem>, sources: seq<SourceRef>) {
    function Catalog(): seq<ClaimItem> {
      ClaimCatalog(claims, MAX_PROMPT_CLAIMS)
    }
  }

  /** The stored spans a claim names. */
  function Backing(evidence: seq<EvidenceItem>, ids: seq<Id>): seq<EvidenceItem> {
    if ids == [] then []
    else
      var item := Lookup(EvidenceId, evidence, ids[0]);
      (if item.Some? then [item.value] else []) + Backing(evidence, ids[1..])
  }

  predicate AnyRetrieved(sources: seq<SourceRef>, items: seq<EvidenceItem>) {
    items != [] && (Retrieved(sources, items[0].sourceId) || AnyRetrieved(sources, items[1..]))
  }

  /** Why a citation does not resolve, link by link, or nothing if it does. */
  function Rejection(records: Records, catalog: seq<ClaimItem>, marker: nat): Option<RejectionReason> {
    var claim := Get(catalog, marker);
    if claim.None? then Some(NoSuchClaim)
    else if Lookup(ClaimId, records.claims, claim.value.id).None? then Some(ClaimNotInRun)
    else
      var backing := Backing(records.evidence, claim.value.evidenceIds);
      if backing == [] then Some(ClaimWithoutEvidence)
      else if !AnyRetrieved(records.sources, backing) then Some(EvidenceWithoutRetrievedSource)
      else None
  }

  // --- what resolving means ------------------------------------------------------------------

  /** `id` names a stored span of a source that was retrieved. */
  predicate Checkable(records: Records, id: Id) {
    var item := Lookup(EvidenceId, records.evidence, id);
    item.Some? && Retrieved(records.sources, item.value.sourceId)
  }

  /** The whole chain: the marker names a claim of the run, which rests on a
      stored span of a retrieved source. */
  predicate Resolves(records: Records, marker: nat) {
    var catalog := records.Catalog();
    && 1 <= marker <= |catalog|
    && Lookup(ClaimId, records.claims, catalog[marker - 1].id).Some?
    && exists id :: id in catalog[marker - 1].evidenceIds && Checkable(records, id)
  }

  predicate AnyCheckable(records: Records, ids: seq<Id>) {
    ids != [] && (Checkable(records, ids[0]) || AnyCheckable(records, ids[1..]))
  }

  lemma {:induction false} BackingIsStored(records: Records, ids: seq<Id>)
    ensures AnyRetrieved(records.sources, Backing(records.evidence, ids)) == AnyCheckable(records, ids)
  {
    if ids != [] {
      BackingIsStored(records, ids[1..]);
      var first := Lookup(EvidenceId, records.evidence, ids[0]);
      if first.Some? {
        assert Backing(records.evidence, ids)[1..] == Backing(records.evidence, ids[1..]);
      } else {
        assert Backing(records.evidence, ids) == Backing(records.evidence, ids[1..]);
      }
    }
  }

  lemma {:induction false} SomeCheckable(records: Records, ids: seq<Id>)
    ensures AnyCheckable(records, ids) <==> exists id :: id in ids && Checkable(records, id)
  {
    if ids != [] {
      SomeCheckable(records, ids[1..]);
      assert forall id :: id in ids <==> id == ids[0] || id in ids[1..];
    }
  }

  /** A citation is accepted exactly when the whole chain holds. */
  lemma AcceptedResolves(records: Records, marker: nat)
    ensures Rejection(records, records.Catalog(), marker).None? <==> Resolves(records, marker)
  {
    var claim := Get(records.Catalog(), marker);
    if claim.Some? {
      BackingIsStored(records, claim.value.evidenceIds);
      SomeCheckable(records, claim.value.evidenceIds);
    }
  }

  // --- a draft's citations -------------------------------------------------------------------

  /** Every marker of a draft, section by section. */
  function MarkersOf(sections: seq<ReportSectionDraft>): seq<nat> {
    if sections == [] then []
    else MarkersOf(sections[..|sections| - 1]) + CitedNumbers(sections[|sections| - 1].contentMd)
  }

  lemma MarkersOne(sections: seq<ReportSectionDraft>, n: nat)
    requires n < |sections|
    ensures MarkersOf(sections[..n + 1]) == MarkersOf(sections[..n]) + CitedNumbers(sections[n].contentMd)
  {
    assert sections[..n + 1][..n] == sections[..n];
  }

  lemma {:induction false} MarkerOfSection(sections: seq<ReportSectionDraft>, i: nat, n: nat)
    requires i < |sections| && n in CitedNumbers(sections[i].contentMd)
    ensures n in MarkersOf(sections)
  {
    if i < |sections| - 1 {
      MarkerOfSection(sections[..|sections| - 1], i, n);
    }
  }

  /** The markers that are rejected, in order. */
  function Rejected(records: Records, catalog: seq<ClaimItem>, markers: seq<nat>): (r: seq<nat>)
    ensures |r| <= |markers|
  {
    if markers == [] then []
    else
      var last := markers[|markers| - 1];
      Rejected(records, catalog, markers[..|markers| - 1])
      + if Rejection(records, catalog, last).Some? then [last] else []
  }

  function Reasons(records: Records, catalog: seq<ClaimItem>, markers: seq<nat>): (r: multiset<RejectionReason>)
    ensures |r| == |Rejected(records, catalog, markers)|
  {
    if markers == [] then multiset{}
    else
      var last := Rejection(records, catalog, markers[|markers| - 1]);
      Reasons(records, catalog, markers[..|markers| - 1])
      + if last.Some? then multiset{last.value} else multiset{}
  }

  function CountOf(reasons: multiset<RejectionReason>, reason: RejectionReason): seq<RejectionCount> {
    if reasons[reason] > 0 then [RejectionCount(reason, reasons[reason])] else []
  }

  /** The reasons there are, by name, with how often each was given. */
  function Counts(reasons: multiset<RejectionReason>): seq<RejectionCount> {
    CountOf(reasons, ClaimNotInRun) + CountOf(reasons, ClaimWithoutEvidence)
    + CountOf(reasons, EvidenceWithoutRetrievedSource) + CountOf(reasons, NoSuchClaim)
  }

  lemma {:induction false} CountedConcat(a: seq<RejectionCount>, b: seq<RejectionCount>)
    ensures CountedRejections(a + b) == CountedRejections(a) + CountedRejections(b)
  {
    if a == [] {
      assert a + b == b;
    } else {
      assert (a + b)[1..] == a[1..] + b;
      CountedConcat(a[1..], b);
    }
  }

  lemma FourReasons(reasons: multiset<RejectionReason>)
    ensures |reasons| == reasons[ClaimNotInRun] + reasons[ClaimWithoutEvidence]
                         + reasons[EvidenceWithoutRetrievedSource] + reasons[NoSuchClaim]
  {
    var a, b, c, d := reasons[ClaimNotInRun], reasons[ClaimWithoutEvidence], reasons[EvidenceWithoutRetrievedSource], reasons[NoSuchClaim];
    var one: multiset<RejectionReason> := multiset{}[ClaimNotInRun := a];
    var two := one[ClaimWithoutEvidence := b];
    var three := two[EvidenceWithoutRetrievedSource := c];
    var four := three[NoSuchClaim := d];
    forall r ensures reasons[r] == four[r] {
      match r
      case ClaimNotInRun =>
      case ClaimWithoutEvidence =>
      case EvidenceWithoutRetrievedSource =>
      case NoSuchClaim =>
    }
    assert reasons == four;
  }

  /** The counts carried with a check come to its rejections. */
  lemma CountsAddUp(reasons: multiset<RejectionReason>)
    ensures CountedRejections(Counts(reasons)) == |reasons|
  {
    var a, b := CountOf(reasons, ClaimNotInRun), CountOf(reasons, ClaimWithoutEvidence);
    var c, d := CountOf(reasons, EvidenceWithoutRetrievedSource), CountOf(reasons, NoSuchClaim);
    CountedConcat(a + b + c, d);
    CountedConcat(a + b, c);
    CountedConcat(a, b);
    OneCount(reasons, ClaimNotInRun);
    OneCount(reasons, ClaimWithoutEvidence);
    OneCount(reasons, EvidenceWithoutRetrievedSource);
    OneCount(reasons, NoSuchClaim);
    FourReasons(reasons);
  }

  lemma OneCount(reasons: multiset<RejectionReason>, reason: RejectionReason)
    ensures CountedRejections(CountOf(reasons, reason)) == reasons[reason]
  {
    var counts := CountOf(reasons, reason);
    if counts != [] {
      assert counts[1..] == [];
    }
  }

  /** The check that a validator's counters come to. */
  function Concluded(revision: nat, checked: nat, valid: nat, reasons: multiset<RejectionReason>,
                     rejected: seq<nat>): CitationCheck
    requires checked == valid + |reasons|
  {
    CountsAddUp(reasons);
    CitationCheckValue(revision, checked, valid, checked - valid, Counts(reasons),
                       if checked - valid > 0 then Some(rejected) else None)
  }

  /** What the validator concludes of a draft. */
  function Checked(records: Records, report: ReportDraft): CitationCheck {
    var catalog := records.Catalog();
    var markers := MarkersOf(report.sections);
    var rejected := Rejected(records, catalog, markers);
    Concluded(report.revision, |markers|, |markers| - |rejected|, Reasons(records, catalog, markers), rejected)
  }

  /** What the validator's counters hold once `done` has been checked. */
  ghost predicate Tallied(records: Records, catalog: seq<ClaimItem>, done: seq<nat>,
                          checked: nat, valid: nat, reasons: multiset<RejectionReason>, rejected: seq<nat>) {
    && checked == |done| && valid == |done| - |rejected|
    && reasons == Reasons(records, catalog, done)
    && rejected == Rejected(records, catalog, done)
  }

  lemma TallyOne(records: Records, catalog: seq<ClaimItem>, done: seq<nat>, marker: nat,
                 checked: nat, valid: nat, reasons: multiset<RejectionReason>, rejected: seq<nat>)
    requires Tallied(records, catalog, done, checked, valid, reasons, rejected)
    ensures var reason := Rejection(records, catalog, marker);
            if reason.None? then Tallied(records, catalog, done + [marker], checked + 1, valid + 1, reasons, rejected)
            else Tallied(records, catalog, done + [marker], checked + 1, valid, reasons + multiset{reason.value}, rejected + [marker])
  {
    assert (done + [marker])[..|done|] == done;
  }

  lemma TallyConcludes(records: Records, report: ReportDraft,
                       checked: nat, valid: nat, reasons: multiset<RejectionReason>, rejected: seq<nat>)
    requires Tallied(records, records.Catalog(), MarkersOf(report.sections), checked, valid, reasons, rejected)
    ensures checked == valid + |reasons|
    ensures Concluded(report.revision, checked, valid, reasons, rejected) == Checked(records, report)
  {
  }

  /** One section's markers, added to the counters so far. */
  method CheckMarkers(records: Records, catalog: seq<ClaimItem>, markers: seq<nat>, ghost done: seq<nat>,
                      checked: nat, valid: nat, reasons: multiset<RejectionReason>, rejected: seq<nat>)
    returns (checked': nat, valid': nat, reasons': multiset<RejectionReason>, rejected': seq<nat>)
    requires Tallied(records, catalog, done, checked, valid, reasons, rejected)
    ensures Tallied(records, catalog, done + markers, checked', valid', reasons', rejected')
  {
    checked', valid', reasons', rejected' := checked, valid, reasons, rejected;
    ghost var all := done;
    for j := 0 to |markers|
      invariant all == done + markers[..j]
      invariant Tallied(records, catalog, all, checked', valid', reasons', rejected')
    {
      TallyOne(records, catalog, all, markers[j], checked', valid', reasons', rejected');
      all := all + [markers[j]];
      var reason := Rejection(records, catalog, markers[j]);
      checked' := checked' + 1;
      if reason.None? {
        valid' := valid' + 1;
      } else {
        reasons' := reasons' + multiset{reason.value};
        rejected' := rejected' + [markers[j]];
      }
    }
    assert markers[..|markers|] == markers;
  }

  method Validate(records: Records, report: ReportDraft) returns (check: CitationCheck)
    ensures check == Checked(records, report)
  {
    var catalog := records.Catalog();
    var checked, valid: nat, reasons: multiset<RejectionReason>, rejected := 0, 0, multiset{}, [];
    for i := 0 to |report.sections|
      invariant Tallied(records, catalog, MarkersOf(report.sections[..i]), checked, valid, reasons, rejected)
    {
      var markers := FindCitedNumbers(report.sections[i].contentMd);
      MarkersOne(report.sections, i);
      checked, valid, reasons, rejected :=
        CheckMarkers(records, catalog, markers, MarkersOf(report.sections[..i]), checked, valid, reasons, rejected);
    }
    assert report.sections[..|report.sections|] == report.sections;
    TallyConcludes(records, report, checked, valid, reasons, rejected);
    check := Concluded(report.revision, checked, valid, reasons, rejected);
  }

  lemma {:induction false} NoneRejected(records: Records, catalog: seq<ClaimItem>, markers: seq<nat>)
    ensures Rejected(records, catalog, markers) == [] <==> forall n :: n in markers ==> Rejection(records, catalog, n).None?
  {
    if markers != [] {
      var init, last := markers[..|markers| - 1], markers[|markers| - 1];
      NoneRejected(records, catalog, init);
      assert markers == init + [last];
    }
  }

  /** A draft passes exactly when every one of its citations resolves. */
  lemma PassesWhenAllResolve(records: Records, report: ReportDraft)
    ensures Checked(records, report).Passed() <==> forall n :: n in MarkersOf(report.sections) ==> Resolves(records, n)
  {
    NoneRejected(records, records.Catalog(), MarkersOf(report.sections));
    forall n ensures Rejection(records, records.Catalog(), n).None? <==> Resolves(records, n) {
      AcceptedResolves(records, n);
    }
  }

  // --- what a check says -----------------------------------------------------------------------

  /** Some span that the ids name is stored. */
  predicate AnyStored(records: Records, ids: seq<Id>) {
    exists id :: id in ids && Lookup(EvidenceId, records.evidence, id).Some?
  }

  /** Where the chain from a number breaks, if it is here: at the catalogue, at
      the run's claims, at their evidence, or at its sources. */
  predicate BreaksAt(records: Records, marker: nat, reason: RejectionReason) {
    var catalog := records.Catalog();
    if !(1 <= marker <= |catalog|) then reason == NoSuchClaim
    else
      var claim := catalog[marker - 1];
      if Lookup(ClaimId, records.claims, claim.id).None? then reason == ClaimNotInRun
      else if !AnyStored(records, claim.evidenceIds) then reason == ClaimWithoutEvidence
      else reason == EvidenceWithoutRetrievedSource && forall id :: id in claim.evidenceIds ==> !Checkable(records, id)
  }

  lemma {:induction false} BackingIsThere(records: Records, ids: seq<Id>)
    ensures Backing(records.evidence, ids) != [] <==> AnyStored(records, ids)
  {
    if ids != [] {
      BackingIsThere(records, ids[1..]);
      assert forall id :: id in ids <==> id == ids[0] || id in ids[1..];
    }
  }

  /** A citation is rejected for the first link that does not hold. */
  lemma RejectedWhereItBreaks(records: Records, marker: nat, reason: RejectionReason)
    ensures Rejection(records, records.Catalog(), marker) == Some(reason) <==> BreaksAt(records, marker, reason)
  {
    var catalog := records.Catalog();
    if 1 <= marker <= |catalog| {
      var claim := catalog[marker - 1];
      BackingIsThere(records, claim.evidenceIds);
      BackingIsStored(records, claim.evidenceIds);
      SomeCheckable(records, claim.evidenceIds);
    }
  }

  /** How many of the markers break there. */
  function Broken(records: Records, markers: seq<nat>, reason: RejectionReason): nat {
    if markers == [] then 0
    else
      Broken(records, markers[..|markers| - 1], reason)
      + if BreaksAt(records, markers[|markers| - 1], reason) then 1 else 0
  }

  /** Those that do not resolve, in order. */
  function Unresolved(records: Records, markers: seq<nat>): seq<nat> {
    if markers == [] then []
    else
      Unresolved(records, markers[..|markers| - 1])
      + if Resolves(records, markers[|markers| - 1]) then [] else [markers[|markers| - 1]]
  }

  lemma {:induction false} ReasonsAreCounted(records: Records, markers: seq<nat>, reason: RejectionReason)
    ensures Reasons(records, records.Catalog(), markers)[reason] == Broken(records, markers, reason)
  {
    if markers != [] {
      ReasonsAreCounted(records, markers[..|markers| - 1], reason);
      RejectedWhereItBreaks(records, markers[|markers| - 1], reason);
    }
  }

  lemma {:induction false} RejectedAreUnresolved(records: Records, markers: seq<nat>)
    ensures Rejected(records, records.Catalog(), markers) == Unresolved(records, markers)
  {
    if markers != [] {
      RejectedAreUnresolved(records, markers[..|markers| - 1]);
      AcceptedResolves(records, markers[|markers| - 1]);
    }
  }

  lemma CountsSay(reasons: multiset<RejectionReason>, r: RejectionCount)
    ensures r in Counts(reasons) <==> r.count == reasons[r.reason]
  {
    OneCountSays(reasons, ClaimNotInRun, r);
    OneCountSays(reasons, ClaimWithoutEvidence, r);
    OneCountSays(reasons, EvidenceWithoutRetrievedSource, r);
    OneCountSays(reasons, NoSuchClaim, r);
    var a, b := CountOf(reasons, ClaimNotInRun), CountOf(reasons, ClaimWithoutEvidence);
    var c, d := CountOf(reasons, EvidenceWithoutRetrievedSource), CountOf(reasons, NoSuchClaim);
    assert r in Counts(reasons) <==> r in a || r in b || r in c || r in d;
    match r.reason
    case ClaimNotInRun =>
    case ClaimWithoutEvidence =>
    case EvidenceWithoutRetrievedSource =>
    case NoSuchClaim =>
  }

  lemma OneCountSays(reasons: multiset<RejectionReason>, reason: RejectionReason, r: RejectionCount)
    ensures r in CountOf(reasons, reason) <==> r.reason == reason && r.count == reasons[reason]
  {
  }

  /** The check of a draft says which of its numbers do not resolve, in order,
      and how many break at each link; and of each draft it is the check of that
      revision. */
  lemma CheckSays(records: Records, report: ReportDraft, r: RejectionCount)
    ensures var check, markers := Checked(records, report), MarkersOf(report.sections);
            && check.revision == report.revision && check.checked == |markers|
            && check.rejected == |Unresolved(records, markers)|
            && check.repairInstructions
               == (if Unresolved(records, markers) == [] then None else Some(Unresolved(records, markers)))
            && (r in check.rejections <==> r.count == Broken(records, markers, r.reason))
  {
    var markers := MarkersOf(report.sections);
    RejectedAreUnresolved(records, markers);
    ReasonsAreCounted(records, markers, r.reason);
    CountsSay(Reasons(records, records.Catalog(), markers), r);
  }

  // --- over records that are well founded ------------------------------------------------------

  /** Every claim's evidence is stored, and every span's source was retrieved. */
  predicate WellFounded(records: Records) {
    && (forall c :: c in records.claims ==> Rests(records.evidence, c))
    && (forall e :: e in records.evidence ==> Retrieved(records.sources, e.sourceId))
  }

  lemma StoredIsCheckable(records: Records, id: Id)
    requires WellFounded(records) && IndexOf(EvidenceId, records.evidence, id).Some?
    ensures Checkable(records, id)
  {
    var item := Lookup(EvidenceId, records.evidence, id).value;
    assert item in records.evidence;
  }

  /** Over well-founded records a citation is rejected only for a number outside
      the catalogue. */
  lemma OnlyInventedNumbersAreRejected(records: Records, marker: nat)
    requires WellFounded(records)
    ensures Rejection(records, records.Catalog(), marker)
            == if 1 <= marker <= |records.Catalog()| then None else Some(NoSuchClaim)
  {
    var catalog := records.Catalog();
    if 1 <= marker <= |catalog| {
      var claim := catalog[marker - 1];
      CatalogOfClaims(records.claims, MAX_PROMPT_CLAIMS);
      assert claim in catalog && claim in records.claims;
      assert Rests(records.evidence, claim);
      StoredIsCheckable(records, claim.evidenceIds[0]);
      AcceptedResolves(records, marker);
    }
  }

  /** Over well-founded records a draft passes exactly when every number it
      cites lies between one and the size of the catalogue, and every rejection
      there is says so. */
  lemma PassesWhenNumbersExist(records: Records, report: ReportDraft)
    requires WellFounded(records)
    ensures Checked(records, report).Passed()
            <==> forall n :: n in MarkersOf(report.sections) ==> Numbered(records.Catalog(), n)
    ensures forall r :: r in Checked(records, report).rejections ==> r.reason == NoSuchClaim
  {
    var catalog, markers := records.Catalog(), MarkersOf(report.sections);
    NoneRejected(records, catalog, markers);
    forall n: nat ensures Rejection(records, catalog, n).None? <==> Numbered(catalog, n) {
      OnlyInventedNumbersAreRejected(records, n);
    }
    forall n | n in markers ensures Rejection(records, catalog, n) in {None, Some(NoSuchClaim)} {
      OnlyInventedNumbersAreRejected(records, n);
    }
    OneReason(records, catalog, markers);
    CountsOneReason(Reasons(records, catalog, markers));
  }

  predicate Numbered(catalog: seq<ClaimItem>, n: nat) {
    1 <= n <= |catalog|
  }

  lemma CountsOneReason(reasons: multiset<RejectionReason>)
    requires forall r :: r in reasons ==> r == NoSuchClaim
    ensures forall r :: r in Counts(reasons) ==> r.reason == NoSuchClaim
  {
    assert reasons[ClaimNotInRun] == 0 && reasons[ClaimWithoutEvidence] == 0 && reasons[EvidenceWithoutRetrievedSource] == 0;
  }

  lemma {:induction false} OneReason(records: Records, catalog: seq<ClaimItem>, markers: seq<nat>)
    requires forall n :: n in markers ==> Rejection(records, catalog, n) in {None, Some(NoSuchClaim)}
    ensures forall r :: r in Reasons(records, catalog, markers) ==> r == NoSuchClaim
  {
    if markers != [] {
      var init, last := markers[..|markers| - 1], markers[|markers| - 1];
      assert markers == init + [last];
      assert last in markers;
      OneReason(records, catalog, init);
    }
  }
}
