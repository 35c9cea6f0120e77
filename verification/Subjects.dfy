/** What a claim is about stays so: over runs in which no key proposed is made
    of signs with a colon among them, a claim's id is that of its key and value,
    its key never changes, and contradictions are about one subject. */
module Subjects {
  import opened Wrappers
  import opened Schemas
  import opened Reducers
  import opened Catalogs
  import opened Distinct
  import opened Names
  import opened Keys
  import opened KeyContent
  import opened Identity
  import opened Normalizing
  import opened Verification
  import opened Graph
  import opened Grounding
  import opened Integrity

  // --- one answer of the normalizer --------------------------------------------------------------

  /** A claim's id is that of its key and its value, and its key has no colon. */
  predicate Identified(claim: ClaimItem) {
    ':' !in claim.normalizedKey && claim.id == ClaimIdentity(claim.normalizedKey, claim.objectValue)
  }

  predicate AllIdentified(claims: seq<ClaimItem>) {
    forall c :: c in claims ==> Identified(c)
  }

  /** Something in the raw key survives reduction, or it has no colon. */
  predicate PlainKey(raw: string) {
    HasContent(raw) || ':' !in raw
  }

  predicate PlainKeys(proposals: seq<ProposedClaim>) {
    forall p :: p in proposals ==> PlainKey(p.normalizedKey)
  }

  lemma PlainKeyHasNoColon(raw: string)
    requires PlainKey(raw)
    ensures ':' !in NormalizeKey(raw)
  {
    KeyHasColon(raw);
    if !HasContent(raw) {
      var stripped := Strip(raw);
      forall i | 0 <= i < |stripped| ensures Lower(stripped)[i] != ':' {
        StripKeeps(raw, stripped[i]);
      }
    }
  }

  lemma PreviousIdentified(key: string, value: string, proposed: ProposedClaim, previous: Option<ClaimItem>,
                           cited: seq<EvidenceItem>)
    requires key != [] && cited != [] && ':' !in key
    requires previous.Some? ==> Identified(previous.value)
    requires previous.Some? ==> previous.value.id == ClaimIdentity(key, value) || (value == [] && previous.value.normalizedKey == key)
    ensures Identified(ClaimFrom(key, value, proposed, previous, cited))
  {
    if previous.Some? {
      IdentityTellsApart(key, value, previous.value.normalizedKey, previous.value.objectValue);
      IdentityTellsApart(key, previous.value.objectValue, previous.value.normalizedKey, previous.value.objectValue);
    }
  }

  lemma OneIsIdentified(existing: seq<ClaimItem>, unclaimed: seq<EvidenceItem>, pending: seq<ClaimItem>,
                        proposed: ProposedClaim)
    requires AllIdentified(existing) && AllIdentified(pending) && UniqueIds(ClaimId, pending) && PlainKey(proposed.normalizedKey)
    requires NormalizedOne(existing, unclaimed, pending, proposed).Some?
    ensures AllIdentified(NormalizedOne(existing, unclaimed, pending, proposed).value)
    ensures UniqueIds(ClaimId, NormalizedOne(existing, unclaimed, pending, proposed).value)
  {
    var cited := Found(unclaimed, proposed.evidence);
    if cited != [] {
      var key := NormalizeKey(proposed.normalizedKey);
      var value := AssertedValue(proposed.objectValue, proposed.text);
      var previous := PreviousClaim(key, value, existing, pending);
      if previous.Some? {
        PreviousIsThere(key, value, existing, pending);
      }
      PlainKeyHasNoColon(proposed.normalizedKey);
      PreviousIdentified(key, value, proposed, previous, cited);
      PutKeeps(ClaimId, pending, ClaimFrom(key, value, proposed, previous, cited));
    }
  }

  lemma {:induction false} AllAreIdentified(existing: seq<ClaimItem>, unclaimed: seq<EvidenceItem>,
                                            proposals: seq<ProposedClaim>)
    requires AllIdentified(existing) && PlainKeys(proposals)
    requires NormalizedAll(existing, unclaimed, proposals).Some?
    ensures AllIdentified(NormalizedAll(existing, unclaimed, proposals).value)
    ensures UniqueIds(ClaimId, NormalizedAll(existing, unclaimed, proposals).value)
  {
    if proposals != [] {
      var init, last := proposals[..|proposals| - 1], proposals[|proposals| - 1];
      assert last in proposals && forall p :: p in init ==> p in proposals;
      AllAreIdentified(existing, unclaimed, init);
      OneIsIdentified(existing, unclaimed, NormalizedAll(existing, unclaimed, init).value, last);
    }
  }

  lemma NormalizedIsIdentified(evidence: seq<EvidenceItem>, existing: seq<ClaimItem>, proposals: seq<ProposedClaim>)
    requires AllIdentified(existing) && PlainKeys(proposals)
    requires Normalized(evidence, existing, proposals).Some?
    ensures AllIdentified(Normalized(evidence, existing, proposals).value)
  {
    if Unclaimed(evidence, existing) != [] {
      AllAreIdentified(existing, Unclaimed(evidence, existing), proposals);
    }
  }

  // --- nothing that is cited is lost -------------------------------------------------------------

  /** Some claim of this key cites this evidence, or is full. */
  predicate KeptUnder(claims: seq<ClaimItem>, key: string, id: Id) {
    exists c :: c in claims && c.normalizedKey == key && CitesOne(c, id)
  }

  /** If a pending claim has the key and only one claim does, that one is pending. */
  lemma OnlyOneIsPending(key: string, existing: seq<ClaimItem>, pending: seq<ClaimItem>, c: ClaimItem)
    requires c in pending && c.normalizedKey == key
    ensures OnlyClaimKeyed(key, existing, pending).Some? ==> OnlyClaimKeyed(key, existing, pending).value in pending
  {
    WithKeyHas(existing, key);
    WithKeyHas(pending, key);
    assert c in WithKey(pending, key);
    var found := WithKey(existing, key) + WithKey(pending, key);
    if |found| == 1 {
      assert WithKey(existing, key) == [];
      assert found[0] in WithKey(pending, key);
    }
  }

  /** The claim a proposal comes to and the pending claim with its id: the one it
      found again. */
  lemma FindsPendingAgain(key: string, value: string, existing: seq<ClaimItem>, pending: seq<ClaimItem>, c: ClaimItem)
    requires AllIdentified(existing) && AllIdentified(pending) && UniqueIds(ClaimId, pending) && c in pending && ':' !in key
    requires var previous := PreviousClaim(key, value, existing, pending);
             c.id == if previous.Some? then previous.value.id else ClaimIdentity(key, value)
    ensures PreviousClaim(key, value, existing, pending) == Some(c)
  {
    StoredIsMember(pending, c);
    var previous := PreviousClaim(key, value, existing, pending);
    if c.id != ClaimIdentity(key, value) {
      var found := previous.value;
      PreviousIsThere(key, value, existing, pending);
      assert Identified(found);
      IdentityTellsApart(c.normalizedKey, c.objectValue, found.normalizedKey, found.objectValue);
      OnlyOneIsPending(key, existing, pending, c);
      SameIdSameItem(ClaimId, pending, found, c);
    }
  }

  lemma OneKeepsCited(existing: seq<ClaimItem>, unclaimed: seq<EvidenceItem>, pending: seq<ClaimItem>,
                      proposed: ProposedClaim,
                      key: string, id: Id)
    requires AllIdentified(existing) && AllIdentified(pending) && UniqueIds(ClaimId, pending) && PlainKey(proposed.normalizedKey)
    requires NormalizedOne(existing, unclaimed, pending, proposed).Some? && KeptUnder(pending, key, id)
    ensures KeptUnder(NormalizedOne(existing, unclaimed, pending, proposed).value, key, id)
  {
    var cited := Found(unclaimed, proposed.evidence);
    if cited != [] {
      var own, value := NormalizeKey(proposed.normalizedKey), AssertedValue(proposed.objectValue, proposed.text);
      var previous := PreviousClaim(own, value, existing, pending);
      var claim := ClaimFrom(own, value, proposed, previous, cited);
      var c :| c in pending && c.normalizedKey == key && CitesOne(c, id);
      PutKeeps(ClaimId, pending, claim);
      if claim.id == c.id {
        PlainKeyHasNoColon(proposed.normalizedKey);
        FindsPendingAgain(own, value, existing, pending, c);
        MergedExtends(previous, cited);
        OneIsIdentified(existing, unclaimed, pending, proposed);
        assert Identified(claim);
        IdentityTellsApart(claim.normalizedKey, claim.objectValue, c.normalizedKey, c.objectValue);
        assert CitesOne(claim, id);
      }
    }
  }

  lemma OneAddsCited(existing: seq<ClaimItem>, unclaimed: seq<EvidenceItem>, pending: seq<ClaimItem>,
                     proposed: ProposedClaim, id: Id)
    requires UniqueIds(ClaimId, pending) && NormalizedOne(existing, unclaimed, pending, proposed).Some?
    requires id in EvidenceIds(Found(unclaimed, proposed.evidence))
    ensures KeptUnder(NormalizedOne(existing, unclaimed, pending, proposed).value, NormalizeKey(proposed.normalizedKey), id)
  {
    var cited := Found(unclaimed, proposed.evidence);
    var key, value := NormalizeKey(proposed.normalizedKey), AssertedValue(proposed.objectValue, proposed.text);
    var previous := PreviousClaim(key, value, existing, pending);
    var claim := ClaimFrom(key, value, proposed, previous, cited);
    ClaimCites(key, value, proposed, previous, cited, id);
    PutKeeps(ClaimId, pending, claim);
    assert CitesOne(claim, id);
  }

  /** However proposals of one answer find each other's claims again: all the
      evidence each of them cites is cited in the end by a claim of its key, unless
      that holds as much as a claim may. */
  lemma {:induction false} NothingCitedIsLost(existing: seq<ClaimItem>, unclaimed: seq<EvidenceItem>,
                                              proposals: seq<ProposedClaim>,
                                              i: nat, number: nat)
    requires AllIdentified(existing) && PlainKeys(proposals) && NormalizedAll(existing, unclaimed, proposals).Some?
    requires i < |proposals| && number in proposals[i].evidence && 1 <= number <= |unclaimed|
    ensures KeptUnder(NormalizedAll(existing, unclaimed, proposals).value,
                      NormalizeKey(proposals[i].normalizedKey), unclaimed[number - 1].id)
    decreases |proposals|
  {
    var n := |proposals| - 1;
    var init, last := proposals[..n], proposals[n];
    assert last in proposals && forall p :: p in init ==> p in proposals;
    var before := NormalizedAll(existing, unclaimed, init).value;
    AllAreIdentified(existing, unclaimed, init);
    if i == n {
      CitedIsNumbered(unclaimed, last.evidence);
      OneAddsCited(existing, unclaimed, before, last, unclaimed[number - 1].id);
    } else {
      NothingCitedIsLost(existing, unclaimed, init, i, number);
      OneKeepsCited(existing, unclaimed, before, last, NormalizeKey(proposals[i].normalizedKey), unclaimed[number - 1].id);
    }
  }

  /** Without that, a proposal about one thing takes over a claim about another:
      of every key that could be a colon longer, some claim is taken over by the
      longer one. */
  lemma CollidingProposalTakesOver(raw: string, claim: ClaimItem)
    requires !HasContent(raw) && 0 < |NormalizeKey(raw)| < MAX_KEY
    requires claim.normalizedKey == NormalizeKey(raw) && claim.objectValue == ":"
    requires claim.id == ClaimIdentity(claim.normalizedKey, claim.objectValue)
    ensures NormalizeKey(NormalizeKey(raw) + ":") != claim.normalizedKey
    ensures PreviousClaim(NormalizeKey(NormalizeKey(raw) + ":"), [], [claim], []) == Some(claim)
  {
    LongerKeyCollides(raw, claim.objectValue);
    assert Lookup(ClaimId, [claim], claim.id) == Some(claim);
  }

  // --- what a run keeps --------------------------------------------------------------------------

  predicate AllLinked(claims: seq<ClaimItem>, items: seq<ContradictionItem>) {
    forall k :: k in items ==> Linked(claims, k)
  }

  /** Claims are what their ids say, and contradictions are about one thing. */
  predicate Told(m: Material) {
    AllIdentified(m.claims) && AllLinked(m.claims, m.contradictions)
  }

  /** The claim stored under `claim`'s id is about the same. */
  predicate SubjectKept(later: seq<ClaimItem>, claim: ClaimItem) {
    AboutKey(later, claim.id, claim.normalizedKey)
  }

  predicate SubjectsKept(claims: seq<ClaimItem>, later: seq<ClaimItem>) {
    forall c :: c in claims ==> SubjectKept(later, c)
  }

  /** What is identified before and after is about the same before and after. */
  lemma GrownKeepsSubjects(claims: seq<ClaimItem>, later: seq<ClaimItem>)
    requires AllGrown(claims, later) && AllIdentified(claims) && AllIdentified(later)
    ensures SubjectsKept(claims, later)
  {
    forall c | c in claims ensures SubjectKept(later, c) {
      assert StillStored(later, c);
      var stored := Lookup(ClaimId, later, c.id).value;
      assert stored in later;
      IdentityTellsApart(c.normalizedKey, c.objectValue, stored.normalizedKey, stored.objectValue);
    }
  }

  lemma StillAbout(claims: seq<ClaimItem>, later: seq<ClaimItem>, id: Id, key: string)
    requires SubjectsKept(claims, later) && AboutKey(claims, id, key)
    ensures AboutKey(later, id, key)
  {
    var c := Lookup(ClaimId, claims, id).value;
    assert c in claims && SubjectKept(later, c);
  }

  lemma StillLinked(claims: seq<ClaimItem>, later: seq<ClaimItem>, item: ContradictionItem)
    requires SubjectsKept(claims, later) && AllGrown(claims, later) && Linked(claims, item)
    ensures Linked(later, item)
  {
    StillPaired(claims, later, item);
    StillAbout(claims, later, item.claimAId, item.normalizedKey);
    StillAbout(claims, later, item.claimBId, item.normalizedKey);
  }

  lemma MergedIdentified(claims: seq<ClaimItem>, items: seq<ClaimItem>)
    requires UniqueIds(ClaimId, claims) && AllIdentified(claims) && AllIdentified(items)
    ensures AllIdentified(MergedById(ClaimId, claims, items))
  {
    MergedIsPut(ClaimId, claims, items);
    PutAllKeeps(ClaimId, claims, items);
  }

  /** What a node adds says what it is about. */
  predicate TellsMore(m: Material, more: Material) {
    AllIdentified(more.claims) && AllLinked(m.claims, more.contradictions)
  }

  lemma GatheredStaysTold(documents: map<Id, string>, m: Material, more: Material)
    requires Grounded(documents, m) && Told(m) && Wholesome(documents, m, more) && TellsMore(m, more)
    ensures Told(Gathered(m, more))
  {
    var m' := Gathered(m, more);
    GatheredKinds(m, more);
    GatheredStaysGrounded(documents, m, more);
    MergedIdentified(m.claims, more.claims);
    GrownKeepsSubjects(m.claims, m'.claims);
    MergedIsPut(ContradictionId, m.contradictions, more.contradictions);
    PutAllKeeps(ContradictionId, m.contradictions, more.contradictions);
    forall k | k in m'.contradictions ensures Linked(m'.claims, k) {
      assert k in m.contradictions || k in more.contradictions;
      StillLinked(m.claims, m'.claims, k);
    }
  }

  // --- whole runs --------------------------------------------------------------------------------

  /** The normalizer's answer comes from proposals with plain keys. */
  ghost predicate PlainReply(node: GraphNode, s: State, reply: Reply) {
    node == ClaimNormalizer && reply.Returned? && reply.value.ClaimsValued? ==>
      exists proposals :: PlainKeys(proposals) && Normalized(s.found.evidence, s.found.claims, proposals) == Some(reply.value.claims)
  }

  ghost predicate PlainEvent(m: Machine, e: Event) {
    e.Stepped? && m.next.At? ==> PlainReply(m.next.node, m.state, e.input.reply)
  }

  ghost predicate PlainRun(cfg: Config, m: Machine, events: seq<Event>)
    decreases |events|
  {
    events == [] || (PlainEvent(m, events[0]) && PlainRun(cfg, After(cfg, m, events[0]), events[1..]))
  }

  lemma ClaimsTellMore(documents: map<Id, string>, node: GraphNode, s: State, reply: Reply)
    requires Grounded(documents, s.found) && Told(s.found) && reply.Returned? && reply.value.ClaimsValued?
    requires node in {ClaimNormalizer, Verifier} && GenuineReply(documents, node, s, reply) && PlainReply(node, s, reply)
    ensures AllIdentified(reply.value.claims)
  {
    if node == ClaimNormalizer {
      var proposals :| PlainKeys(proposals) && Normalized(s.found.evidence, s.found.claims, proposals) == Some(reply.value.claims);
      NormalizedIsIdentified(s.found.evidence, s.found.claims, proposals);
    } else {
      var verdicts :| reply.value.claims == Verdicts(s.found.claims, verdicts);
      VerifiedAreRescored(s.found.claims, verdicts);
    }
  }

  lemma WrittenTellsMore(documents: map<Id, string>, node: GraphNode, s: State, reply: Reply)
    requires Grounded(documents, s.found) && Told(s.found)
    requires GenuineReply(documents, node, s, reply) && PlainReply(node, s, reply) && Written(node, reply).Some?
    ensures TellsMore(s.found, Written(node, reply).value.found)
  {
    match reply.value
    case EvidenceValued(items) =>
    case ClaimsValued(items) => ClaimsTellMore(documents, node, s, reply);
    case ContradictionsValued(items) =>
      var pairs :| items == ContradictionsIn(s.found.claims, pairs);
      ContradictionsAreLinked(s.found.claims, pairs);
  }

  lemma NodeTellsMore(documents: map<Id, string>, cfg: Config, node: GraphNode, s: State, input: Input, resumedAt: Time)
    requires Grounded(documents, s.found) && Told(s.found)
    requires GenuineReply(documents, node, s, input.reply) && PlainReply(node, s, input.reply)
    requires NodeStep(cfg, node, s, input, resumedAt).Wrote?
    ensures TellsMore(s.found, NodeStep(cfg, node, s, input, resumedAt).update.found)
  {
    if node in {Planner, Critic, Answerer, Synthesizer, CitationValidator} {
      OthersAddNothing(cfg, node, s, input, resumedAt);
    } else {
      ProcessAdds(s, node, input, resumedAt);
      if Written(node, input.reply).Some? {
        WrittenTellsMore(documents, node, s, input.reply);
      }
    }
  }

  lemma {:induction false} RoundStaysTold(s: State, us: seq<Update>)
    requires Unique(s.found) && Told(s.found)
    requires forall i :: 0 <= i < |us| ==> Researched(us[i])
    ensures Told(AppliedAll(s, us).found)
    decreases |us|
  {
    if us != [] {
      assert Researched(us[0]);
      GatheredKinds(s.found, us[0].found);
      MergedSourcesGrow(s.found.sources, us[0].found.sources);
      RoundStaysTold(Applied(s, us[0]), us[1..]);
    }
  }

  lemma StepStaysTold(documents: map<Id, string>, cfg: Config, m: Machine, e: Event)
    requires Integrity.Sound(documents, m) && GenuineEvent(documents, m, e) && Told(m.state.found) && PlainEvent(m, e)
    ensures Told(After(cfg, m, e).state.found)
  {
    if Commits(cfg, m, e) {
      if m.next.At? {
        NodeIsWholesome(documents, cfg, m.next.node, m.state, e.input, m.resumedAt);
        NodeTellsMore(documents, cfg, m.next.node, m.state, e.input, m.resumedAt);
        GatheredStaysTold(documents, m.state.found, NodeStep(cfg, m.next.node, m.state, e.input, m.resumedAt).update.found);
      } else {
        RoundResearched(m.next.assignments, e.input);
        RoundStaysTold(m.state, RoundUpdates(m.next.assignments, e.input));
      }
    }
  }

  lemma {:induction false} RunStaysTold(documents: map<Id, string>, cfg: Config, m: Machine, events: seq<Event>)
    requires Integrity.Sound(documents, m) && GenuineRun(documents, cfg, m, events)
    requires Told(m.state.found) && PlainRun(cfg, m, events)
    ensures Told(Run(cfg, m, events).state.found)
    decreases |events|
  {
    if events != [] {
      StepStaysTold(documents, cfg, m, events[0]);
      Integrity.StepSound(documents, cfg, m, events[0]);
      RunStaysTold(documents, cfg, After(cfg, m, events[0]), events[1..]);
    }
  }

  /** Over any events and any continuation of them: every claim has the id of
      what it asserts, what a claim is about never changes, and every
      contradiction is between two stored claims about its subject. */
  lemma SubjectsStay(documents: map<Id, string>, cfg: Config, m: Machine, events: seq<Event>)
    requires Integrity.Sound(documents, m) && GenuineRun(documents, cfg, m, events)
    requires Told(m.state.found) && PlainRun(cfg, m, events)
    ensures var later := Run(cfg, m, events).state.found;
            Told(later) && SubjectsKept(m.state.found.claims, later.claims)
  {
    RunStaysTold(documents, cfg, m, events);
    RunSound(documents, cfg, m, events);
    GrownKeepsSubjects(m.state.found.claims, Run(cfg, m, events).state.found.claims);
  }

  /** Two claims of a run are one exactly when they assert the same of the same:
      so claims about one subject assert different values, and corroboration is
      never a second claim. */
  lemma OneClaimPerAssertion(documents: map<Id, string>, cfg: Config, now: Time, events: seq<Event>, a: ClaimItem,
                             b: ClaimItem)
    requires GenuineRun(documents, cfg, Started(now), events) && PlainRun(cfg, Started(now), events)
    requires var claims := Run(cfg, Started(now), events).state.found.claims; a in claims && b in claims
    ensures a == b <==> a.normalizedKey == b.normalizedKey && NormalizedValue(a.objectValue) == NormalizedValue(b.objectValue)
  {
    StartedSound(documents, now);
    RunSound(documents, cfg, Started(now), events);
    RunStaysTold(documents, cfg, Started(now), events);
    var claims := Run(cfg, Started(now), events).state.found.claims;
    assert Identified(a) && Identified(b);
    IdentityTellsApart(a.normalizedKey, a.objectValue, b.normalizedKey, b.objectValue);
    if a.id == b.id {
      SameIdSameItem(ClaimId, claims, a, b);
    }
  }
}
