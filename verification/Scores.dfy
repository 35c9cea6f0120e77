/** Over whole runs: a claim's status is what verdicts made it. Only a verifier
    changes it, to what its last verdict on the claim says; a claim found again
    keeps it, and a new one is a candidate. */
module Scores {
  import opened Wrappers
  import opened Schemas
  import opened Reducers
  import opened Catalogs
  import opened Normalizing
  import opened Verification
  import opened Graph
  import opened Grounding
  import Integrity
  import GraphRecords
  import GraphGathering

  // --- merging -----------------------------------------------------------------------------------

  predicate StatusKept(later: seq<ClaimItem>, claim: ClaimItem) {
    var stored := Lookup(ClaimId, later, claim.id);
    stored.Some? && stored.value.status == claim.status
  }

  /** Every claim stored before has the status it had, and every other is a
      candidate. */
  predicate StatusesKept(claims: seq<ClaimItem>, later: seq<ClaimItem>) {
    && (forall c :: c in claims ==> StatusKept(later, c))
    && (forall c :: c in later && Lookup(ClaimId, claims, c.id).None? ==> c.status == Candidate)
  }

  lemma MergedKeepsStatuses(claims: seq<ClaimItem>, items: seq<ClaimItem>)
    requires UniqueIds(ClaimId, claims) && forall c :: c in items ==> KeepsStatus(claims, c)
    ensures StatusesKept(claims, PutAll(ClaimId, claims, items))
  {
    var later: seq<ClaimItem> := PutAll(ClaimId, claims, items);
    PutAllKeeps(ClaimId, claims, items);
    forall c | c in claims ensures StatusKept(later, c) {
      var i :| 0 <= i < |claims| && claims[i] == c;
      LookupUnique(ClaimId, later, i);
      StoredIsMember(claims, c);
      assert later[i] in later;
      if later[i] in claims {
        SameIdSameItem(ClaimId, claims, later[i], c);
      }
    }
    forall c | c in later && Lookup(ClaimId, claims, c.id).None? ensures c.status == Candidate {
      if c in claims {
        StoredIsMember(claims, c);
      }
    }
  }

  lemma StatusesKeptTwice(a: seq<ClaimItem>, b: seq<ClaimItem>, c: seq<ClaimItem>)
    requires UniqueIds(ClaimId, b) && UniqueIds(ClaimId, c) && StatusesKept(a, b) && StatusesKept(b, c)
    ensures StatusesKept(a, c)
  {
    forall x | x in a ensures StatusKept(c, x) {
      assert StatusKept(b, x);
      var y := Lookup(ClaimId, b, x.id).value;
      assert y in b && StatusKept(c, y);
    }
    forall x | x in c && Lookup(ClaimId, a, x.id).None? ensures x.status == Candidate {
      var y := Lookup(ClaimId, b, x.id);
      if y.Some? {
        assert y.value in b && StatusKept(c, y.value);
        StoredIsMember(c, x);
      }
    }
  }

  lemma NothingKeepsStatuses(claims: seq<ClaimItem>)
    requires UniqueIds(ClaimId, claims)
    ensures StatusesKept(claims, claims)
  {
    MergedKeepsStatuses(claims, []);
  }

  // --- supersteps --------------------------------------------------------------------------------

  /** A verifier has been called in a superstep that was committed. */
  predicate Judges(cfg: Config, m: Machine, e: Event) {
    Commits(cfg, m, e) && m.next == At(Verifier) && CallsIn(cfg, m, e) != []
  }

  lemma {:induction false} RoundGivesNoClaims(work: seq<SubtaskAssignment>, inputs: seq<ResearcherInput>, order: seq<nat>, n: nat)
    requires n <= |order| && forall k :: 0 <= k < |order| ==> order[k] < |work|
    ensures GraphGathering.GivenByFirst(work, inputs, order, n).found.claims == []
  {
    if n > 0 {
      RoundGivesNoClaims(work, inputs, order, n - 1);
    }
  }

  /** What a superstep adds to the claims, other than a verifier's. */
  lemma ClaimsGivenKeepStatus(documents: map<Id, string>, cfg: Config, m: Machine, e: Event)
    requires Integrity.Sound(documents, m) && Integrity.GenuineEvent(documents, m, e) && !Judges(cfg, m, e)
    ensures forall c :: c in GraphGathering.GivenIn(cfg, m, e).found.claims ==> KeepsStatus(m.state.found.claims, c)
  {
    if Commits(cfg, m, e) {
      if m.next.Round? {
        var work := m.next.assignments;
        RoundGivesNoClaims(work, e.input.researchers, FoldOrder(e.input.order, |work|), |work|);
      } else if m.next.node == ClaimNormalizer && e.input.reply.Returned? && e.input.reply.value.ClaimsValued? {
        var s, items := m.state, e.input.reply.value.claims;
        assert Integrity.GenuineClaims(s, items);
        var proposals :| Normalized(s.found.evidence, s.found.claims, proposals) == Some(items);
        NormalizedKeepsStatus(s.found.evidence, s.found.claims, proposals);
      }
    }
  }

  lemma StepKeepsStatuses(documents: map<Id, string>, cfg: Config, m: Machine, e: Event)
    requires Integrity.Sound(documents, m) && Integrity.GenuineEvent(documents, m, e) && !Judges(cfg, m, e)
    ensures StatusesKept(m.state.found.claims, After(cfg, m, e).state.found.claims)
  {
    ClaimsGivenKeepStatus(documents, cfg, m, e);
    GraphGathering.StepIsRecorded(cfg, m, e);
    MergedKeepsStatuses(m.state.found.claims, GraphGathering.GivenIn(cfg, m, e).found.claims);
  }

  predicate NeverJudges(cfg: Config, m: Machine, events: seq<Event>)
    decreases |events|
  {
    events == [] || (!Judges(cfg, m, events[0]) && NeverJudges(cfg, After(cfg, m, events[0]), events[1..]))
  }

  /** However a run goes on, crashes and resumes among it, until a verifier is
      called every claim keeps its status, and every new one is a candidate. */
  lemma {:induction false} OnlyVerifierChangesStatus(documents: map<Id, string>, cfg: Config, m: Machine, events: seq<Event>)
    requires Integrity.Sound(documents, m) && Integrity.GenuineRun(documents, cfg, m, events) && NeverJudges(cfg, m, events)
    ensures StatusesKept(m.state.found.claims, Run(cfg, m, events).state.found.claims)
    decreases |events|
  {
    if events == [] {
      NothingKeepsStatuses(m.state.found.claims);
    } else {
      var m' := After(cfg, m, events[0]);
      StepKeepsStatuses(documents, cfg, m, events[0]);
      Integrity.StepSound(documents, cfg, m, events[0]);
      OnlyVerifierChangesStatus(documents, cfg, m', events[1..]);
      Integrity.RunSound(documents, cfg, m', events[1..]);
      StatusesKeptTwice(m.state.found.claims, m'.state.found.claims, Run(cfg, m', events[1..]).state.found.claims);
    }
  }

  // --- what a verifier does ------------------------------------------------------------------------

  predicate NamedBySome(catalog: seq<ClaimItem>, verdicts: seq<Verdict>, id: Id) {
    exists i :: 0 <= i < |verdicts| && NamesClaim(catalog, verdicts[i], id)
  }

  /** What becomes of a stored claim: it is as its last verdict says, or, if no
      verdict names it, as it was. */
  ghost predicate Judged(catalog: seq<ClaimItem>, verdicts: seq<Verdict>, claim: ClaimItem, later: Option<ClaimItem>) {
    && later.Some? && later.value.id == claim.id
    && if NamedBySome(catalog, verdicts, claim.id) then exists i :: LastVerdict(catalog, verdicts, i, later.value)
       else later.value == claim
  }

  lemma ClaimIsJudged(claims: seq<ClaimItem>, verdicts: seq<Verdict>, claim: ClaimItem)
    requires UniqueIds(ClaimId, claims) && claim in claims
    ensures Judged(ClaimCatalog(claims, MAX_VERDICTS_PER_CALL), verdicts, claim,
                   Lookup(ClaimId, PutAll(ClaimId, claims, Verdicts(claims, verdicts)), claim.id))
  {
    var catalog, scored := ClaimCatalog(claims, MAX_VERDICTS_PER_CALL), Verdicts(claims, verdicts);
    var later := PutAll(ClaimId, claims, scored);
    LastVerdictStands(claims, verdicts);
    VerifiedAreRescored(claims, verdicts);
    PutAllKeeps(ClaimId, claims, scored);
    PutAllWins(ClaimId, claims, scored);
    if NamedBySome(catalog, verdicts, claim.id) {
      var i :| 0 <= i < |verdicts| && NamesClaim(catalog, verdicts[i], claim.id);
      var k := IndexOf(ClaimId, scored, claim.id).value;
      assert scored[k] in scored && scored[k] in later;
      StoredIsMember(later, scored[k]);
    } else {
      forall y | y in scored ensures ClaimId(y) != ClaimId(claim) {
        var i :| LastVerdict(catalog, verdicts, i, y);
        assert NamesClaim(catalog, verdicts[i], y.id);
      }
      assert claim in later;
      StoredIsMember(later, claim);
    }
  }

  /** A verifier's superstep: every claim named by a verdict is as the last one
      says, and every other is as it was. */
  lemma VerifierJudges(documents: map<Id, string>, cfg: Config, m: Machine, e: Event)
    requires Integrity.Sound(documents, m) && Integrity.GenuineEvent(documents, m, e) && Judges(cfg, m, e)
    requires e.input.reply.Returned? && e.input.reply.value.ClaimsValued?
    ensures var claims := m.state.found.claims;
            exists verdicts :: e.input.reply.value.claims == Verdicts(claims, verdicts)
              && forall c :: c in claims ==>
                   Judged(ClaimCatalog(claims, MAX_VERDICTS_PER_CALL), verdicts, c,
                          Lookup(ClaimId, After(cfg, m, e).state.found.claims, c.id))
  {
    var claims, later := m.state.found.claims, After(cfg, m, e).state.found.claims;
    assert Integrity.GenuineScores(m.state, e.input.reply.value.claims);
    var verdicts :| e.input.reply.value.claims == Verdicts(claims, verdicts);
    GraphGathering.StepIsRecorded(cfg, m, e);
    assert later == PutAll(ClaimId, claims, Verdicts(claims, verdicts));
    forall c | c in claims
      ensures Judged(ClaimCatalog(claims, MAX_VERDICTS_PER_CALL), verdicts, c, Lookup(ClaimId, later, c.id))
    {
      ClaimIsJudged(claims, verdicts, c);
    }
  }
}
