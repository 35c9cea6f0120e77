/** Over whole runs whose replies come from the run's own agents: everything
    gathered stays grounded, claims only grow, and a source is read in one
    round. */
module Integrity {
  import opened Wrappers
  import opened Ordering
  import opened Schemas
  import opened Sums
  import opened Reducers
  import opened Budget
  import opened Graph
  import opened Planning
  import opened Extraction
  import opened Extracting
  import opened Normalizing
  import opened Verification
  import opened Grounding

  // --- replies of the run's own agents ---------------------------------------------------------

  ghost predicate GenuinePlan(iteration: nat, plan: Plan) {
    exists goal, proposals, limit :: plan == Planned(iteration, goal, proposals, limit)
  }

  ghost predicate GenuineEvidence(documents: map<Id, string>, s: State, items: seq<EvidenceItem>) {
    exists calls :: Honest(documents, s.found.sources, calls)
                    && items == Extracted(s.found.completed, s.found.sources, s.iteration, calls)
  }

  ghost predicate GenuineClaims(s: State, items: seq<ClaimItem>) {
    exists proposals :: Normalized(s.found.evidence, s.found.claims, proposals) == Some(items)
  }

  ghost predicate GenuineScores(s: State, items: seq<ClaimItem>) {
    exists verdicts :: items == Verdicts(s.found.claims, verdicts)
  }

  ghost predicate GenuineContradictions(s: State, items: seq<ContradictionItem>) {
    exists pairs :: items == ContradictionsIn(s.found.claims, pairs)
  }

  /** What a discovery or processing agent returned is what that agent makes of
      some answer of its model. */
  ghost predicate GenuineReply(documents: map<Id, string>, node: GraphNode, s: State, reply: Reply) {
    reply.Returned? ==>
      match reply.value
      case PlanValued(plan) => node == Planner ==> GenuinePlan(s.iteration + 1, plan)
      case EvidenceValued(items) => node == EvidenceExtractor ==> GenuineEvidence(documents, s, items)
      case ClaimsValued(items) =>
        (node == ClaimNormalizer ==> GenuineClaims(s, items)) && (node == Verifier ==> GenuineScores(s, items))
      case ContradictionsValued(items) => node == ContradictionChecker ==> GenuineContradictions(s, items)
      case _ => true
  }

  ghost predicate GenuineEvent(documents: map<Id, string>, m: Machine, e: Event) {
    e.Stepped? && m.next.At? ==> GenuineReply(documents, m.next.node, m.state, e.input.reply)
  }

  ghost predicate GenuineRun(documents: map<Id, string>, cfg: Config, m: Machine, events: seq<Event>)
    decreases |events|
  {
    events == [] ||
    (GenuineEvent(documents, m, events[0]) && GenuineRun(documents, cfg, After(cfg, m, events[0]), events[1..]))
  }

  // --- gathering one kind of thing -----------------------------------------------------------------

  lemma SourcesNothing(sources: seq<SourceRef>)
    requires UniqueIds(SourceIdOf, sources)
    ensures MergedSources(sources, []) == sources
  {
    assert sources + [] == sources;
    SetDefaultsUnique(sources);
  }

  lemma GatheredKinds(m: Material, more: Material)
    requires Unique(m)
    ensures more.subtasks == [] ==> Gathered(m, more).subtasks == m.subtasks
    ensures more.sources == [] ==> Gathered(m, more).sources == m.sources
    ensures more.completed == [] ==> Gathered(m, more).completed == m.completed
    ensures more.failed == [] ==> Gathered(m, more).failed == m.failed
    ensures more.evidence == [] ==> Gathered(m, more).evidence == m.evidence
    ensures more.claims == [] ==> Gathered(m, more).claims == m.claims
    ensures more.contradictions == [] ==> Gathered(m, more).contradictions == m.contradictions
  {
    SourcesNothing(m.sources);
    MergedNothing(EvidenceId, m.evidence);
    MergedNothing(ClaimId, m.claims);
    MergedNothing(ContradictionId, m.contradictions);
  }

  /** What a node adds keeps a run's material grounded, and lets claims only
      grow. */
  predicate Wholesome(documents: map<Id, string>, m: Material, more: Material) {
    && more.sources == [] && more.completed == []
    && SpansGrounded(documents, m.sources, more.evidence)
    && Dependable(m.evidence, m.claims, more.claims)
    && AllPaired(m.claims, more.contradictions)
    && (more.evidence == [] || (more.claims == [] && more.contradictions == []))
    && (more.claims == [] || more.contradictions == [])
  }

  lemma GatheredStaysGrounded(documents: map<Id, string>, m: Material, more: Material)
    requires Grounded(documents, m) && Wholesome(documents, m, more)
    ensures var m' := Gathered(m, more);
            && Grounded(documents, m') && AllGrown(m.claims, m'.claims)
            && m'.completed == m.completed && m'.sources == m.sources
  {
    GatheredKinds(m, more);
    ClaimsGrowByNothing(m);
    if more.evidence != [] {
      EvidenceGrounded(documents, m, more.evidence);
    } else if more.claims != [] {
      ClaimsGrounded(documents, m, more.claims);
      MergedClaimsGrow(m.evidence, m.claims, more.claims);
    } else {
      ContradictionsGrounded(documents, m, more.contradictions);
    }
  }

  lemma ClaimsGrowByNothing(m: Material)
    requires Unique(m)
    ensures AllGrown(m.claims, m.claims)
  {
    forall c | c in m.claims ensures StillStored(m.claims, c) {
      StoredIsMember(m.claims, c);
    }
  }

  // --- what each node adds -------------------------------------------------------------------------

  predicate AddsNothing(more: Material) {
    more.sources == [] && more.completed == [] && more.evidence == [] && more.claims == [] && more.contradictions == []
  }

  lemma EvidenceIsWholesome(documents: map<Id, string>, s: State, items: seq<EvidenceItem>)
    requires GenuineEvidence(documents, s, items)
    ensures SpansGrounded(documents, s.found.sources, items)
  {
    var calls :| Honest(documents, s.found.sources, calls)
                 && items == Extracted(s.found.completed, s.found.sources, s.iteration, calls);
    forall e | e in items ensures SpanGrounded(documents, s.found.sources, e) {
      ExtractedIsGrounded(documents, s.found.completed, s.found.sources, s.iteration, calls, e);
    }
  }

  lemma ClaimsAreWholesome(documents: map<Id, string>, s: State, items: seq<ClaimItem>)
    requires Grounded(documents, s.found) && (GenuineClaims(s, items) || GenuineScores(s, items))
    ensures Dependable(s.found.evidence, s.found.claims, items)
  {
    if GenuineClaims(s, items) {
      var proposals :| Normalized(s.found.evidence, s.found.claims, proposals) == Some(items);
      NormalizedIsDependable(s.found.evidence, s.found.claims, proposals);
    } else {
      var verdicts :| items == Verdicts(s.found.claims, verdicts);
      VerifiedIsDependable(s.found.evidence, s.found.claims, verdicts);
    }
  }

  lemma ContradictionsAreWholesome(documents: map<Id, string>, s: State, items: seq<ContradictionItem>)
    requires Grounded(documents, s.found) && GenuineContradictions(s, items)
    ensures AllPaired(s.found.claims, items)
  {
    var pairs :| items == ContradictionsIn(s.found.claims, pairs);
    ContradictionsAreLinked(s.found.claims, pairs);
  }

  /** What a processing agent's answer writes. */
  lemma WrittenIsWholesome(documents: map<Id, string>, node: GraphNode, s: State, reply: Reply)
    requires Grounded(documents, s.found) && GenuineReply(documents, node, s, reply) && Written(node, reply).Some?
    ensures Wholesome(documents, s.found, Written(node, reply).value.found)
  {
    match reply.value
    case EvidenceValued(items) => EvidenceIsWholesome(documents, s, items);
    case ClaimsValued(items) => ClaimsAreWholesome(documents, s, items);
    case ContradictionsValued(items) => ContradictionsAreWholesome(documents, s, items);
  }

  lemma ProcessAdds(s: State, node: GraphNode, input: Input, resumedAt: Time)
    requires ProcessNode(s, node, Written(node, input.reply), input, resumedAt).Wrote?
    ensures var u := ProcessNode(s, node, Written(node, input.reply), input, resumedAt).update;
            AddsNothing(u.found) || (Written(node, input.reply).Some? && u.found == Written(node, input.reply).value.found)
    ensures ProcessNode(s, node, Written(node, input.reply), input, resumedAt).update.plan.None?
  {
  }

  lemma OthersAddNothing(cfg: Config, node: GraphNode, s: State, input: Input, resumedAt: Time)
    requires node in {Planner, Critic, Answerer, Synthesizer, CitationValidator}
    requires NodeStep(cfg, node, s, input, resumedAt).Wrote?
    ensures AddsNothing(NodeStep(cfg, node, s, input, resumedAt).update.found)
    ensures node != Planner ==> NodeStep(cfg, node, s, input, resumedAt).update.plan.None?
  {
  }

  lemma NodeIsWholesome(documents: map<Id, string>, cfg: Config, node: GraphNode, s: State, input: Input,
                        resumedAt: Time)
    requires Grounded(documents, s.found) && GenuineReply(documents, node, s, input.reply)
    requires NodeStep(cfg, node, s, input, resumedAt).Wrote?
    ensures Wholesome(documents, s.found, NodeStep(cfg, node, s, input, resumedAt).update.found)
  {
    if node in {Planner, Critic, Answerer, Synthesizer, CitationValidator} {
      OthersAddNothing(cfg, node, s, input, resumedAt);
    } else {
      ProcessAdds(s, node, input, resumedAt);
      if Written(node, input.reply).Some? {
        WrittenIsWholesome(documents, node, s, input.reply);
      }
    }
  }

  // --- rounds --------------------------------------------------------------------------------------

  /** A researcher adds sources, and outcomes of its own round. */
  ghost predicate Researched(u: Update) {
    && u.found.evidence == [] && u.found.claims == [] && u.found.contradictions == [] && u.plan.None?
    && OwnRounds(u.found.completed)
  }

  lemma OwnRoundsConcat(a: seq<TaskOutcome>, b: seq<TaskOutcome>)
    requires OwnRounds(a) && OwnRounds(b)
    ensures OwnRounds(a + b)
  {
  }

  lemma ResearchedStaysGrounded(documents: map<Id, string>, m: Material, u: Update)
    requires Grounded(documents, m) && OwnRounds(m.completed) && Researched(u)
    ensures var m' := Gathered(m, u.found);
            && Grounded(documents, m') && OwnRounds(m'.completed)
            && m.completed <= m'.completed && m.sources <= m'.sources && m'.claims == m.claims
  {
    GatheredKinds(m, u.found);
    MergedSourcesGrow(m.sources, u.found.sources);
    SourcesGrounded(documents, m, Gathered(m, u.found).sources);
    OwnRoundsConcat(m.completed, u.found.completed);
  }

  lemma {:induction false} RoundStaysGrounded(documents: map<Id, string>, s: State, us: seq<Update>)
    requires Grounded(documents, s.found) && OwnRounds(s.found.completed)
    requires forall i :: 0 <= i < |us| ==> Researched(us[i])
    ensures var t := AppliedAll(s, us);
            && Grounded(documents, t.found) && OwnRounds(t.found.completed) && t.plan == s.plan
            && s.found.completed <= t.found.completed && s.found.sources <= t.found.sources && t.found.claims == s.found.claims
    decreases |us|
  {
    if us != [] {
      assert Researched(us[0]);
      ResearchedStaysGrounded(documents, s.found, us[0]);
      RoundStaysGrounded(documents, Applied(s, us[0]), us[1..]);
    }
  }

  lemma ResearcherResearched(work: SubtaskAssignment, input: ResearcherInput)
    requires OfRound(work.subtask.key, work.subtask.iteration) && ResearcherNode(work, input).Wrote?
    ensures Researched(ResearcherNode(work, input).update)
  {
  }

  ghost predicate OwnAssignments(next: Next) {
    next.Round? ==> forall i :: 0 <= i < |next.assignments| ==>
      OfRound(next.assignments[i].subtask.key, next.assignments[i].subtask.iteration)
  }

  lemma RoundResearched(work: seq<SubtaskAssignment>, input: Input)
    requires AllWrote(work, input.researchers) && OwnAssignments(Round(work))
    ensures forall i :: 0 <= i < |work| ==> Researched(RoundUpdates(work, input)[i])
  {
    var order := FoldOrder(input.order, |work|);
    forall i | 0 <= i < |work| ensures Researched(RoundUpdates(work, input)[i]) {
      var k := order[i];
      assert ResearcherResult(work, input.researchers, k).Wrote?;
      ResearcherResearched(work[k], if k < |input.researchers| then input.researchers[k] else ResearcherInput(false, Raised));
    }
  }

  // --- keys ----------------------------------------------------------------------------------------

  ghost predicate OwnPlan(plan: Option<Plan>) {
    plan.Some? ==> forall i :: 0 <= i < |plan.value.subtasks| ==>
      OfRound(plan.value.subtasks[i].key, plan.value.subtasks[i].iteration)
  }

  lemma PlannedIsOwn(iteration: nat, plan: Plan)
    requires GenuinePlan(iteration, plan)
    ensures OwnPlan(Some(plan))
  {
    var goal, proposals, limit :| plan == Planned(iteration, goal, proposals, limit);
    forall i | 0 <= i < |plan.subtasks| ensures OfRound(plan.subtasks[i].key, plan.subtasks[i].iteration) {
      assert TaskKey(iteration, i + 1) == plan.subtasks[i].key;
    }
  }

  lemma DispatchesAreSubtasks(cfg: Config, used: Consumption, subtasks: seq<Subtask>, i: nat)
    requires i < |Allocate(cfg.budget, used, subtasks, cfg.width)|
    ensures Allocate(cfg.budget, used, subtasks, cfg.width)[i].subtask in subtasks
  {
    var ordered := Sort(DispatchedBefore, Enumerated(subtasks));
    SameMembers(Enumerated(subtasks), ordered);
    assert ordered[i] in ordered;
  }

  lemma RoutedAssignmentsAreOwn(cfg: Config, s: State)
    requires OwnPlan(s.plan)
    ensures OwnAssignments(AfterPlanner(cfg, s))
  {
    var next := AfterPlanner(cfg, s);
    if next.Round? {
      forall i | 0 <= i < |next.assignments|
        ensures OfRound(next.assignments[i].subtask.key, next.assignments[i].subtask.iteration)
      {
        DispatchesAreSubtasks(cfg, Consumed(s), s.plan.value.subtasks, i);
      }
    }
  }

  lemma PlannerPlansOwn(cfg: Config, s: State, input: Input, resumedAt: Time)
    requires PlannerNode(cfg, s, input, resumedAt).Wrote?
    ensures var u := PlannerNode(cfg, s, input, resumedAt).update;
            u.plan.Some? ==> input.reply.Returned? && input.reply.value.PlanValued? && input.reply.value.plan == u.plan.value
  {
  }

  // --- whole runs ----------------------------------------------------------------------------------

  ghost predicate Sound(documents: map<Id, string>, m: Machine) {
    && Grounded(documents, m.state.found)
    && OwnRounds(m.state.found.completed)
    && OwnPlan(m.state.plan)
    && OwnAssignments(m.next)
  }

  /** What later states keep of earlier ones. */
  predicate Kept(m: Material, later: Material) {
    && m.completed <= later.completed && m.sources <= later.sources
    && AllGrown(m.claims, later.claims)
  }

  lemma NodeKeepsFound(documents: map<Id, string>, cfg: Config, m: Machine, input: Input)
    requires Sound(documents, m) && m.next.At? && GenuineReply(documents, m.next.node, m.state, input.reply)
    requires NodeStep(cfg, m.next.node, m.state, input, m.resumedAt).Wrote?
    ensures var s' := Applied(m.state, NodeStep(cfg, m.next.node, m.state, input, m.resumedAt).update);
            Grounded(documents, s'.found) && OwnRounds(s'.found.completed) && Kept(m.state.found, s'.found)
  {
    NodeIsWholesome(documents, cfg, m.next.node, m.state, input, m.resumedAt);
    GatheredStaysGrounded(documents, m.state.found, NodeStep(cfg, m.next.node, m.state, input, m.resumedAt).update.found);
  }

  lemma NodeKeepsPlan(documents: map<Id, string>, cfg: Config, m: Machine, input: Input)
    requires Sound(documents, m) && m.next.At? && GenuineReply(documents, m.next.node, m.state, input.reply)
    requires NodeStep(cfg, m.next.node, m.state, input, m.resumedAt).Wrote?
    ensures var s' := Applied(m.state, NodeStep(cfg, m.next.node, m.state, input, m.resumedAt).update);
            OwnPlan(s'.plan) && OwnAssignments(Routed(cfg, m.next.node, s'))
  {
    var u := NodeStep(cfg, m.next.node, m.state, input, m.resumedAt).update;
    if m.next.node == Planner {
      PlannerPlansOwn(cfg, m.state, input, m.resumedAt);
      if u.plan.Some? {
        PlannedIsOwn(m.state.iteration + 1, u.plan.value);
      }
      RoutedAssignmentsAreOwn(cfg, Applied(m.state, u));
    } else if m.next.node in {Critic, Answerer, Synthesizer, CitationValidator} {
      OthersAddNothing(cfg, m.next.node, m.state, input, m.resumedAt);
    } else {
      ProcessAdds(m.state, m.next.node, input, m.resumedAt);
    }
  }

  lemma StepSound(documents: map<Id, string>, cfg: Config, m: Machine, e: Event)
    requires Sound(documents, m) && GenuineEvent(documents, m, e)
    ensures Sound(documents, After(cfg, m, e)) && Kept(m.state.found, After(cfg, m, e).state.found)
  {
    ClaimsGrowByNothing(m.state.found);
    if Commits(cfg, m, e) {
      if m.next.At? {
        NodeKeepsFound(documents, cfg, m, e.input);
        NodeKeepsPlan(documents, cfg, m, e.input);
      } else {
        RoundResearched(m.next.assignments, e.input);
        RoundStaysGrounded(documents, m.state, RoundUpdates(m.next.assignments, e.input));
      }
    }
  }

  lemma GrownTwice(a: seq<ClaimItem>, b: seq<ClaimItem>, c: seq<ClaimItem>)
    requires AllGrown(a, b) && AllGrown(b, c)
    ensures AllGrown(a, c)
  {
    forall x | x in a ensures StillStored(c, x) {
      assert StillStored(b, x);
      var y := Lookup(ClaimId, b, x.id).value;
      assert y in b && StillStored(c, y);
      var z := Lookup(ClaimId, c, y.id).value;
      assert x.evidenceIds <= y.evidenceIds <= z.evidenceIds;
    }
  }

  /** Over any events of the run's own agents, crashes and resumes among them:
      material stays grounded; outcomes and sources are only added; and every
      claim stays, under its id, with its old evidence a prefix of its new. */
  lemma {:induction false} RunSound(documents: map<Id, string>, cfg: Config, m: Machine, events: seq<Event>)
    requires Sound(documents, m) && GenuineRun(documents, cfg, m, events)
    ensures Sound(documents, Run(cfg, m, events)) && Kept(m.state.found, Run(cfg, m, events).state.found)
    decreases |events|
  {
    ClaimsGrowByNothing(m.state.found);
    if events != [] {
      var m' := After(cfg, m, events[0]);
      StepSound(documents, cfg, m, events[0]);
      RunSound(documents, cfg, m', events[1..]);
      GrownTwice(m.state.found.claims, m'.state.found.claims, Run(cfg, m', events[1..]).state.found.claims);
    }
  }

  lemma StartedSound(documents: map<Id, string>, now: Time)
    ensures Sound(documents, Started(now))
  {
  }

  lemma {:induction false} GenuineSplits(documents: map<Id, string>, cfg: Config, m: Machine, events: seq<Event>,
                                         more: seq<Event>)
    requires GenuineRun(documents, cfg, m, events + more)
    ensures GenuineRun(documents, cfg, m, events) && GenuineRun(documents, cfg, Run(cfg, m, events), more)
    decreases |events|
  {
    if events == [] {
      assert events + more == more;
    } else {
      assert (events + more)[0] == events[0] && (events + more)[1..] == events[1..] + more;
      GenuineSplits(documents, cfg, After(cfg, m, events[0]), events[1..], more);
    }
  }

  /** In every reachable state no id is held twice, spans read back and are of
      retrieved sources, every claim rests on stored spans, and every
      contradiction is between two different stored claims. */
  lemma RunIsGrounded(documents: map<Id, string>, cfg: Config, now: Time, events: seq<Event>)
    requires GenuineRun(documents, cfg, Started(now), events)
    ensures Grounded(documents, Run(cfg, Started(now), events).state.found)
  {
    StartedSound(documents, now);
    RunSound(documents, cfg, Started(now), events);
  }

  /** A source is read for evidence in one round at most: if a state of the run
      would read it in round `i`, and a later one in round `j`, they are the
      same round. */
  lemma SourceIsReadInOneRound(documents: map<Id, string>, cfg: Config, now: Time, events: seq<Event>, more: seq<Event>,
                               i: nat, j: nat, id: Id)
    requires GenuineRun(documents, cfg, Started(now), events + more)
    requires var m := Run(cfg, Started(now), events); ReadIn(m.state.found.completed, m.state.found.sources, i, id)
    requires var m := Run(cfg, Started(now), events + more); ReadIn(m.state.found.completed, m.state.found.sources, j, id)
    ensures i == j
  {
    StartedSound(documents, now);
    GenuineSplits(documents, cfg, Started(now), events, more);
    RunConcat(cfg, Started(now), events, more);
    var m := Run(cfg, Started(now), events);
    RunSound(documents, cfg, Started(now), events);
    RunSound(documents, cfg, m, more);
    var m' := Run(cfg, m, more);
    ReadInOneRound(m.state.found.completed, m.state.found.sources, i, m'.state.found.completed, m'.state.found.sources, j, id);
  }
}
