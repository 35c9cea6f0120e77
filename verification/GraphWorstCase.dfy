/** The bound on a run's supersteps is exact: some run whose every reply its own
    agents can give takes every one of them. */
module GraphWorstCase {
  import opened Wrappers
  import opened Schemas
  import opened Sums
  import opened Reducers
  import opened Budget
  import opened Graph
  import opened GraphTermination
  import opened Catalogs
  import opened Planning
  import opened Citations
  import opened Extracting
  import opened Normalizing
  import opened Grounding
  import opened Integrity
  import opened CitedReport
  import opened WorstReplies

  // --- the worst that can happen ---------------------------------------------------------------

  /** No round comes after this one. */
  predicate LastRound(cfg: Config, iteration: nat) {
    cfg.mode == Quick || iteration >= cfg.budget.maxIterations
  }

  function WorstPlan(iteration: nat): Plan {
    Planned(iteration, "x", [ProposedSubtask("x", High)], 1)
  }

  function WorstDraft(s: State): ReportDraft {
    ReportDraft("x", 0, InventedSections(CatalogOf(s)), None)
  }

  function WorstEvidence(cfg: Config, s: State, usage: NodeUsage): Reply {
    if LastRound(cfg, s.iteration)
    then Returned(EvidenceValued(Extracted(s.found.completed, s.found.sources, s.iteration, OneCall(TaskKey(s.iteration, 1)))), usage)
    else Raised
  }

  function WorstClaims(cfg: Config, s: State, usage: NodeUsage): Reply {
    var claims := Normalized(s.found.evidence, s.found.claims, OneProposal());
    if LastRound(cfg, s.iteration) && claims.Some? then Returned(ClaimsValued(claims.value), usage) else Raised
  }

  function WorstVerdict(s: State, usage: NodeUsage): Reply {
    if s.report.Some? then Returned(CheckValued(Checked(RecordsOf(s.found), s.report.value)), usage) else Raised
  }

  /** Plans always have work; nothing is found before the last round; the critic
      is never satisfied; and no draft passes its check. */
  function WorstReply(cfg: Config, m: Machine, usage: NodeUsage): Reply {
    match m.next
    case At(Planner) => Returned(PlanValued(WorstPlan(m.state.iteration + 1)), usage)
    case At(EvidenceExtractor) => WorstEvidence(cfg, m.state, usage)
    case At(ClaimNormalizer) => WorstClaims(cfg, m.state, usage)
    case At(Critic) => Returned(CritiqueValued(CritiqueValue(m.state.iteration, false, ["x"])), usage)
    case At(Synthesizer) => Returned(ReportValued(WorstDraft(m.state)), usage)
    case At(CitationValidator) => WorstVerdict(m.state, usage)
    case _ => Raised
  }

  /** A researcher finds one source, in the last round. */
  function WorstResearch(cfg: Config, m: Machine, usage: NodeUsage): seq<ResearcherInput> {
    if LastRound(cfg, m.state.iteration)
    then [ResearcherInput(false, Returned(OutcomeValued(OneOutcome(TaskKey(m.state.iteration, 1), m.state.iteration)), usage))]
    else []
  }

  function WorstInput(cfg: Config, m: Machine, usage: NodeUsage): Input {
    Input(m.resumedAt, m.resumedAt, false, WorstReply(cfg, m, usage), WorstResearch(cfg, m, usage), [])
  }

  // --- nothing is spent ------------------------------------------------------------------------

  /** No time has passed, and nothing was paid for or searched. */
  predicate Quiet(s: State, resumedAt: Time) {
    && s.clock.elapsed <= 0 && s.clock.asOf == resumedAt
    && s.cost.usd <= 0 && s.cost.uncostedCalls <= 0 && s.searches <= 0
  }

  predicate Free(usage: NodeUsage) {
    usage.cost.usd <= 0 && usage.cost.uncostedCalls <= 0 && usage.searchQueries <= 0
  }

  predicate QuietUpdate(u: Update, resumedAt: Time) {
    && (u.usage.Some? ==> Free(u.usage.value))
    && (u.clock.Some? ==> u.clock.value.elapsed <= 0 && u.clock.value.asOf == resumedAt)
  }

  lemma QuietApplied(s: State, u: Update, resumedAt: Time)
    requires Quiet(s, resumedAt) && QuietUpdate(u, resumedAt)
    ensures Quiet(Applied(s, u), resumedAt)
  {
  }

  // --- how far the story has got ---------------------------------------------------------------

  predicate NothingFound(m: Material) {
    m.sources == [] && m.completed == [] && m.evidence == [] && m.claims == []
  }

  predicate OneFound(m: Material, iteration: nat) {
    && m.completed == [OneOutcome(TaskKey(iteration, 1), iteration)] && m.sources == OneSource(TaskKey(iteration, 1))
    && m.evidence == [] && m.claims == []
  }

  predicate OwnWork(work: seq<SubtaskAssignment>, iteration: nat) {
    |work| == 1 && work[0].subtask.key == TaskKey(iteration, 1) && work[0].subtask.iteration == iteration
  }

  /** What has been gathered, wherever the run is: nothing before the last
      round, and from its end on something to write about. */
  predicate Story(cfg: Config, s: State, next: Next) {
    var last := LastRound(cfg, s.iteration);
    match next
    case Round(work) => NothingFound(s.found) && OwnWork(work, s.iteration)
    case At(EvidenceExtractor) => if last then OneFound(s.found, s.iteration) else NothingFound(s.found)
    case At(ClaimNormalizer) => if last then s.found.evidence != [] && s.found.claims == [] else NothingFound(s.found)
    case At(Verifier) => if last then s.found.claims != [] else NothingFound(s.found)
    case At(ContradictionChecker) => if last then s.found.claims != [] else NothingFound(s.found)
    case At(Critic) => if last then s.found.claims != [] else NothingFound(s.found)
    case At(Answerer) => s.found.claims != []
    case At(Synthesizer) => s.found.claims != []
    case At(CitationValidator) => s.found.claims != [] && s.report.Some? && 0 in MarkersOf(s.report.value.sections)
    case End => true
    case At(_) => NothingFound(s.found)
  }

  /** A run that has spent nothing and been stopped by nothing. */
  predicate Unhurried(cfg: Config, m: Machine) {
    && OnCourse(cfg, m)
    && Quiet(m.state, m.resumedAt)
    && StopReasonOf(m.state) != Some(Cancelled)
    && (Discovering(m.next) ==> m.state.stop.None?)
    && Unique(m.state.found)
    && Story(cfg, m.state, m.next)
  }

  /** `m` one superstep on, at state `s'` and with `next` to run. */
  predicate Ticked(cfg: Config, m: Machine, s': State, next: Next) {
    && Quiet(s', m.resumedAt)
    && StopReasonOf(s') != Some(Cancelled)
    && (Discovering(next) ==> s'.stop.None?)
    && StepsLeft(cfg, Machine(s', next, m.resumedAt)) == StepsLeft(cfg, m) - 1
  }

  /** A node's writes move the run one superstep on, and the story with it. */
  predicate NodeTicks(cfg: Config, m: Machine, node: GraphNode, r: NodeResult) {
    r.Wrote? && Moves(cfg, m, Applied(m.state, r.update), Routed(cfg, node, Applied(m.state, r.update)))
  }

  predicate Moves(cfg: Config, m: Machine, s': State, next: Next) {
    Ticked(cfg, m, s', next) && Unique(s'.found) && Story(cfg, s', next)
  }

  // --- gathering -------------------------------------------------------------------------------

  lemma GatheredUnique(m: Material, more: Material)
    requires Unique(m)
    ensures Unique(Gathered(m, more))
  {
    MergedSourcesGrow(m.sources, more.sources);
    MergedUnique(EvidenceId, m.evidence, more.evidence);
    MergedUnique(ClaimId, m.claims, more.claims);
    MergedUnique(ContradictionId, m.contradictions, more.contradictions);
  }

  lemma SomethingMerged<T>(idOf: T -> Id, items: seq<T>, more: seq<T>)
    requires UniqueIds(idOf, items) && (items != [] || more != [])
    ensures MergedById(idOf, items, more) != []
  {
    MergedIsPut(idOf, items, more);
    PutAllKeeps(idOf, items, more);
    if more != [] {
      var init := PutAll(idOf, items, more[..|more| - 1]);
      PutAllKeeps(idOf, items, more[..|more| - 1]);
      PutKeeps(idOf, init, more[|more| - 1]);
    }
  }

  /** Claims stay, whatever else is gathered. */
  lemma ClaimsStay(m: Material, more: Material)
    requires Unique(m) && (m.claims != [] || more.claims != [])
    ensures Gathered(m, more).claims != []
  {
    SomethingMerged(ClaimId, m.claims, more.claims);
  }

  lemma NothingMore(m: Material, more: Material)
    requires Unique(m) && AddsNothing(more)
    ensures NothingFound(m) ==> NothingFound(Gathered(m, more))
    ensures Gathered(m, more).claims == m.claims
  {
    GatheredKinds(m, more);
    assert m.completed + [] == m.completed;
  }

  lemma OneGathered(m: Material, iteration: nat, more: Material)
    requires Unique(m) && NothingFound(m) && OneFound(more, iteration)
    ensures OneFound(Gathered(m, more), iteration)
  {
    GatheredKinds(m, more);
    var sources := more.sources;
    assert [] + sources == sources && [] + more.completed == more.completed;
    SetDefaultsUnique(sources);
  }

  // --- planning --------------------------------------------------------------------------------

  /** Nothing bars a round while nothing is spent or found and rounds are left. */
  lemma Unbarred(cfg: Config, s: State, resumedAt: Time, usage: Option<NodeUsage>)
    requires Quiet(s, resumedAt) && |s.found.sources| <= 0 && (usage.Some? ==> Free(usage.value))
    ensures s.clock.ElapsedAt(resumedAt, resumedAt) <= 0
    ensures LimitReached(cfg.budget, Used(s, resumedAt, resumedAt, usage), true).None?
    ensures LimitReached(cfg.budget, Used(s, resumedAt, resumedAt, usage), false).None?
    ensures Used(s, resumedAt, resumedAt, usage).iterations == s.iteration
  {
  }

  lemma RoundsRemain(cfg: Config, m: Machine)
    requires OnCourse(cfg, m) && m.next == At(Planner)
    ensures m.state.iteration < cfg.budget.maxIterations
  {
  }

  lemma RoundUnbarred(cfg: Config, s: State, resumedAt: Time)
    requires Quiet(s, resumedAt) && |s.found.sources| <= 0 && s.iteration < cfg.budget.maxIterations
    ensures RoundBarred(cfg.budget, Used(s, resumedAt, resumedAt, None)).None?
  {
    Unbarred(cfg, s, resumedAt, None);
  }

  lemma PlanAccepted(cfg: Config, s: State, input: Input, resumedAt: Time, plan: Plan, usage: NodeUsage)
    requires Quiet(s, resumedAt) && Free(usage) && input.exit == resumedAt && |s.found.sources| <= 0
    requires !IsCancelled(s, input.cancelled) && s.stop.None?
    requires input.reply == Returned(PlanValued(plan), usage) && plan.iteration == s.iteration + 1
    requires RoundBarred(cfg.budget, Used(s, input.entry, resumedAt, None)).None?
    requires LimitReached(cfg.budget, Used(s, input.exit, resumedAt, Some(usage)), false).None?
    ensures var r := PlannerNode(cfg, s, input, resumedAt);
            && r.Wrote? && r.update.stop.None? && r.update.iteration == Some(s.iteration + 1) && r.update.plan == Some(plan)
            && QuietUpdate(r.update, resumedAt) && AddsNothing(r.update.found)
  {
    Unbarred(cfg, s, resumedAt, None);
  }

  /** A plan accepted at once and for nothing. */
  predicate Plans(s: State, r: NodeResult, plan: Plan, resumedAt: Time) {
    && r.Wrote? && r.update.stop.None? && r.update.iteration == Some(s.iteration + 1) && r.update.plan == Some(plan)
    && QuietUpdate(r.update, resumedAt) && AddsNothing(r.update.found)
  }

  lemma PlannerAccepts(cfg: Config, s: State, input: Input, resumedAt: Time, plan: Plan, usage: NodeUsage)
    requires Free(usage) && Quiet(s, resumedAt) && |s.found.sources| <= 0 && s.iteration < cfg.budget.maxIterations
    requires s.stop.None? && input.entry == resumedAt && input.exit == resumedAt && !input.cancelled
    requires input.reply == Returned(PlanValued(plan), usage) && plan.iteration == s.iteration + 1
    ensures Plans(s, PlannerNode(cfg, s, input, resumedAt), plan, resumedAt)
  {
    RoundUnbarred(cfg, s, resumedAt);
    Unbarred(cfg, s, resumedAt, Some(usage));
    PlanAccepted(cfg, s, input, resumedAt, plan, usage);
  }

  lemma PlannerMoves(cfg: Config, m: Machine, r: NodeResult)
    requires Unhurried(cfg, m) && m.next == At(Planner) && Plans(m.state, r, WorstPlan(m.state.iteration + 1), m.resumedAt)
    ensures NodeTicks(cfg, m, Planner, r)
  {
    PlannedRound(cfg, m, r.update);
  }

  lemma WorstPlanner(cfg: Config, m: Machine, usage: NodeUsage)
    requires Free(usage) && Unhurried(cfg, m) && m.next == At(Planner)
    ensures NodeTicks(cfg, m, Planner, PlannerNode(cfg, m.state, WorstInput(cfg, m, usage), m.resumedAt))
  {
    RoundsRemain(cfg, m);
    PlannerAccepts(cfg, m.state, WorstInput(cfg, m, usage), m.resumedAt, WorstPlan(m.state.iteration + 1), usage);
    PlannerMoves(cfg, m, PlannerNode(cfg, m.state, WorstInput(cfg, m, usage), m.resumedAt));
  }

  /** A plan with work in it, with everything left to spend, starts a round. */
  lemma PlannedRound(cfg: Config, m: Machine, u: Update)
    requires Unhurried(cfg, m) && m.next == At(Planner)
    requires QuietUpdate(u, m.resumedAt) && u.stop.None? && u.iteration == Some(m.state.iteration + 1)
    requires u.plan == Some(WorstPlan(m.state.iteration + 1)) && AddsNothing(u.found)
    ensures var s' := Applied(m.state, u);
            Moves(cfg, m, s', AfterPlanner(cfg, s'))
  {
    QuietApplied(m.state, u, m.resumedAt);
    GatheredUnique(m.state.found, u.found);
    NothingMore(m.state.found, u.found);
    var s' := Applied(m.state, u);
    assert s'.plan == u.plan && s'.stop.None? && s'.iteration == m.state.iteration + 1;
    QuietRoundStarts(cfg, s', m.resumedAt);
    RoundCounted(cfg, m, s');
  }

  lemma OnePlanned(iteration: nat)
    ensures var subtasks := WorstPlan(iteration).subtasks;
            |subtasks| == 1 && subtasks[0].key == TaskKey(iteration, 1) && subtasks[0].iteration == iteration
  {
  }

  lemma QuietRoundStarts(cfg: Config, s: State, resumedAt: Time)
    requires Quiet(s, resumedAt) && |s.found.sources| <= 0 && s.stop.None? && s.plan == Some(WorstPlan(s.iteration))
    ensures AfterPlanner(cfg, s).Round? && OwnWork(AfterPlanner(cfg, s).assignments, s.iteration)
  {
    var subtasks := s.plan.value.subtasks;
    OnePlanned(s.iteration);
    AllocationByPriority(cfg.budget, Consumed(s), subtasks, cfg.width);
    DispatchesAreSubtasks(cfg, Consumed(s), subtasks, 0);
  }

  lemma RoundCounted(cfg: Config, m: Machine, s': State)
    requires OnCourse(cfg, m) && m.next == At(Planner) && s'.iteration == m.state.iteration + 1
    ensures forall work :: StepsLeft(cfg, Machine(s', Round(work), m.resumedAt)) == StepsLeft(cfg, m) - 1
  {
    assert RoundsLeft(cfg, s') == RoundsLeft(cfg, m.state) - 1;
    assert RoundSteps(cfg.mode) * (RoundsLeft(cfg, m.state) - 1)
        == RoundSteps(cfg.mode) * RoundsLeft(cfg, m.state) - RoundSteps(cfg.mode);
  }

  // --- a round ---------------------------------------------------------------------------------

  /** What the round's one researcher writes. */
  lemma WorstResearcher(cfg: Config, m: Machine, usage: NodeUsage)
    requires Free(usage) && Unhurried(cfg, m) && m.next.Round?
    ensures var r := ResearcherResult(m.next.assignments, WorstResearch(cfg, m, usage), 0);
            && r.Wrote? && QuietUpdate(r.update, m.resumedAt)
            && r.update.stop.None? && r.update.iteration.None? && r.update.repairs.None?
            && (if LastRound(cfg, m.state.iteration) then OneFound(r.update.found, m.state.iteration) else AddsNothing(r.update.found))
  {
  }

  /** One researcher's writes move the round on. */
  lemma RoundMoves(cfg: Config, m: Machine, u: Update)
    requires Unhurried(cfg, m) && m.next.Round?
    requires u.stop.None? && u.iteration.None? && u.repairs.None? && QuietUpdate(u, m.resumedAt)
    requires if LastRound(cfg, m.state.iteration) then OneFound(u.found, m.state.iteration) else AddsNothing(u.found)
    ensures Moves(cfg, m, Applied(m.state, u), At(EvidenceExtractor))
  {
    QuietApplied(m.state, u, m.resumedAt);
    GatheredUnique(m.state.found, u.found);
    if LastRound(cfg, m.state.iteration) {
      OneGathered(m.state.found, m.state.iteration, u.found);
    } else {
      NothingMore(m.state.found, u.found);
    }
  }

  lemma OneUpdate(s: State, u: Update)
    ensures AppliedAll(s, [u]) == Applied(s, u)
  {
    assert [u][1..] == [];
  }

  lemma OneResearcher(cfg: Config, m: Machine, usage: NodeUsage)
    requires Free(usage) && Unhurried(cfg, m) && m.next.Round?
    ensures AllWrote(m.next.assignments, WorstResearch(cfg, m, usage))
    ensures RoundUpdates(m.next.assignments, WorstInput(cfg, m, usage))
            == [ResearcherResult(m.next.assignments, WorstResearch(cfg, m, usage), 0).update]
  {
    WorstResearcher(cfg, m, usage);
  }

  lemma WorstRound(cfg: Config, m: Machine, usage: NodeUsage)
    requires Free(usage) && Unhurried(cfg, m) && m.next.Round?
    ensures AllWrote(m.next.assignments, WorstResearch(cfg, m, usage))
    ensures Moves(cfg, m, AppliedAll(m.state, RoundUpdates(m.next.assignments, WorstInput(cfg, m, usage))), At(EvidenceExtractor))
  {
    WorstResearcher(cfg, m, usage);
    OneResearcher(cfg, m, usage);
    var u := ResearcherResult(m.next.assignments, WorstResearch(cfg, m, usage), 0).update;
    RoundMoves(cfg, m, u);
    OneUpdate(m.state, u);
  }

  // --- processing ------------------------------------------------------------------------------

  predicate Processing(next: Next) {
    next in {At(EvidenceExtractor), At(ClaimNormalizer), At(Verifier), At(ContradictionChecker)}
  }

  /** A step that writes no counter and no stop takes its superstep. */
  lemma ProcessTicks(cfg: Config, m: Machine, u: Update)
    requires Unhurried(cfg, m) && Processing(m.next)
    requires QuietUpdate(u, m.resumedAt) && u.iteration.None? && u.repairs.None? && u.stop.None?
    ensures var s' := Applied(m.state, u);
            Ticked(cfg, m, s', Routed(cfg, m.next.node, s')) && Unique(s'.found) && s'.iteration == m.state.iteration
  {
    QuietApplied(m.state, u, m.resumedAt);
    GatheredUnique(m.state.found, u.found);
  }

  /** The step fails, or answers what it should, for nothing. */
  predicate Answers(reply: Reply, written: Option<Update>, usage: NodeUsage) {
    if written.Some? then reply.Returned? && reply.usage == usage && written.value == NOTHING.(found := written.value.found)
    else reply == Raised
  }

  lemma WorstAnswers(cfg: Config, m: Machine, usage: NodeUsage)
    requires Processing(m.next)
    ensures Answers(WorstReply(cfg, m, usage), Graph.Written(m.next.node, WorstReply(cfg, m, usage)), usage)
  {
  }

  lemma ProcessWrites(s: State, node: GraphNode, written: Option<Update>, input: Input, resumedAt: Time,
                      usage: NodeUsage)
    requires Free(usage) && Quiet(s, resumedAt) && StopReasonOf(s) != Some(Cancelled)
    requires input.exit == resumedAt && !input.cancelled && Answers(input.reply, written, usage)
    ensures var r := ProcessNode(s, node, written, input, resumedAt);
            && r.Wrote? && QuietUpdate(r.update, resumedAt)
            && r.update.iteration.None? && r.update.repairs.None? && r.update.stop.None?
            && r.update.found == if written.Some? then written.value.found else NO_MATERIAL
  {
  }

  lemma WorstExtractor(cfg: Config, m: Machine, usage: NodeUsage, found: Material)
    requires Unhurried(cfg, m) && m.next == At(EvidenceExtractor)
    requires var written := Graph.Written(EvidenceExtractor, WorstReply(cfg, m, usage));
             found == if written.Some? then written.value.found else NO_MATERIAL
    ensures var later := Gathered(m.state.found, found);
            if LastRound(cfg, m.state.iteration) then later.evidence != [] && later.claims == [] else NothingFound(later)
  {
    if LastRound(cfg, m.state.iteration) {
      SomethingExtracted(TaskKey(m.state.iteration, 1), m.state.iteration);
      SomethingMerged(EvidenceId, m.state.found.evidence, found.evidence);
      GatheredKinds(m.state.found, found);
    } else {
      NothingMore(m.state.found, found);
    }
  }

  lemma WorstNormalizer(cfg: Config, m: Machine, usage: NodeUsage, found: Material)
    requires Unhurried(cfg, m) && m.next == At(ClaimNormalizer)
    requires var written := Graph.Written(ClaimNormalizer, WorstReply(cfg, m, usage));
             found == if written.Some? then written.value.found else NO_MATERIAL
    ensures var later := Gathered(m.state.found, found);
            if LastRound(cfg, m.state.iteration) then later.claims != [] else NothingFound(later)
  {
    if LastRound(cfg, m.state.iteration) {
      SomethingNormalized(m.state.found.evidence);
      ClaimsStay(m.state.found, found);
    } else {
      NothingMore(m.state.found, found);
    }
  }

  /** The story goes on with what a processing step adds. */
  lemma ProcessTells(cfg: Config, m: Machine, usage: NodeUsage, u: Update)
    requires Unhurried(cfg, m) && Processing(m.next) && u.iteration.None?
    requires var written := Graph.Written(m.next.node, WorstReply(cfg, m, usage));
             u.found == if written.Some? then written.value.found else NO_MATERIAL
    ensures var s' := Applied(m.state, u);
            Story(cfg, s', Routed(cfg, m.next.node, s'))
  {
    if m.next == At(EvidenceExtractor) {
      WorstExtractor(cfg, m, usage, u.found);
    } else if m.next == At(ClaimNormalizer) {
      WorstNormalizer(cfg, m, usage, u.found);
    } else {
      NothingMore(m.state.found, u.found);
    }
  }

  lemma WorstProcessing(cfg: Config, m: Machine, usage: NodeUsage)
    requires Free(usage) && Unhurried(cfg, m) && Processing(m.next)
    ensures var input := WorstInput(cfg, m, usage);
            NodeTicks(cfg, m, m.next.node, ProcessNode(m.state, m.next.node, Graph.Written(m.next.node, input.reply), input, m.resumedAt))
  {
    var input := WorstInput(cfg, m, usage);
    var r := ProcessNode(m.state, m.next.node, Graph.Written(m.next.node, input.reply), input, m.resumedAt);
    WorstAnswers(cfg, m, usage);
    ProcessWrites(m.state, m.next.node, Graph.Written(m.next.node, input.reply), input, m.resumedAt, usage);
    ProcessTicks(cfg, m, r.update);
    ProcessTells(cfg, m, usage, r.update);
  }

  // --- the critic ------------------------------------------------------------------------------

  lemma CriticBars(cfg: Config, s: State, resumedAt: Time, usage: NodeUsage)
    requires Quiet(s, resumedAt) && Free(usage) && (s.iteration < cfg.budget.maxIterations ==> |s.found.sources| <= 0)
    ensures var barred := RoundBarred(cfg.budget, Used(s, resumedAt, resumedAt, Some(usage)));
            (barred.Some? <==> s.iteration >= cfg.budget.maxIterations) && barred != Some(Cancelled)
  {
    if s.iteration < cfg.budget.maxIterations {
      Unbarred(cfg, s, resumedAt, Some(usage));
    }
  }

  lemma WorstCritique(cfg: Config, m: Machine, usage: NodeUsage)
    requires Free(usage) && Unhurried(cfg, m) && m.next == At(Critic)
    ensures var r := CriticNode(cfg, m.state, WorstInput(cfg, m, usage), m.resumedAt);
            && r.Wrote? && QuietUpdate(r.update, m.resumedAt) && r.update.iteration.None? && r.update.repairs.None?
            && r.update.critique.Some? && !r.update.critique.value.sufficient && AddsNothing(r.update.found)
            && (r.update.stop.Some? <==> m.state.iteration >= cfg.budget.maxIterations)
            && (r.update.stop.Some? ==> r.update.stop.value.reason != Cancelled)
  {
    CriticBars(cfg, m.state, m.resumedAt, usage);
  }

  lemma WorstCritic(cfg: Config, m: Machine, usage: NodeUsage)
    requires Free(usage) && Unhurried(cfg, m) && m.next == At(Critic)
    ensures NodeTicks(cfg, m, Critic, CriticNode(cfg, m.state, WorstInput(cfg, m, usage), m.resumedAt))
  {
    WorstCritique(cfg, m, usage);
    Criticised(cfg, m, CriticNode(cfg, m.state, WorstInput(cfg, m, usage), m.resumedAt).update);
  }

  /** An unsatisfied critic sends the run round again, or ends discovery. */
  lemma Criticised(cfg: Config, m: Machine, u: Update)
    requires Unhurried(cfg, m) && m.next == At(Critic)
    requires QuietUpdate(u, m.resumedAt) && u.iteration.None? && u.repairs.None? && AddsNothing(u.found)
    requires u.critique.Some? && !u.critique.value.sufficient
    requires u.stop.Some? <==> m.state.iteration >= cfg.budget.maxIterations
    requires u.stop.Some? ==> u.stop.value.reason != Cancelled
    ensures var s' := Applied(m.state, u);
            Moves(cfg, m, s', AfterCritic(s'))
  {
    QuietApplied(m.state, u, m.resumedAt);
    GatheredUnique(m.state.found, u.found);
    NothingMore(m.state.found, u.found);
    var s' := Applied(m.state, u);
    assert s'.iteration == m.state.iteration && s'.stop == u.stop && s'.critique == u.critique;
    CriticRouted(cfg, m, s');
  }

  lemma CriticRouted(cfg: Config, m: Machine, s': State)
    requires OnCourse(cfg, m) && m.next == At(Critic) && Quiet(s', m.resumedAt) && Unique(s'.found)
    requires s'.iteration == m.state.iteration && s'.critique.Some? && !s'.critique.value.sufficient
    requires s'.stop.Some? <==> s'.iteration >= cfg.budget.maxIterations
    requires StopReasonOf(s') != Some(Cancelled)
    requires if LastRound(cfg, s'.iteration) then s'.found.claims != [] else NothingFound(s'.found)
    ensures Moves(cfg, m, s', AfterCritic(s'))
  {
  }

  // --- writing ---------------------------------------------------------------------------------

  /** With nothing spent and some claims to write about. */
  predicate Writable(m: Machine) {
    && Quiet(m.state, m.resumedAt) && StopReasonOf(m.state) != Some(Cancelled)
    && Unique(m.state.found) && m.state.found.claims != []
  }

  lemma SomethingToWriteAbout(cfg: Config, m: Machine)
    requires Unhurried(cfg, m) && m.next in {At(Answerer), At(Synthesizer), At(CitationValidator)}
    ensures Writable(m) && OnCourse(cfg, m)
    ensures m.next == At(CitationValidator) ==> m.state.report.Some? && 0 in MarkersOf(m.state.report.value.sections)
  {
  }

  /** What a writing node writes, at once and for nothing. */
  predicate Writes(r: NodeResult, resumedAt: Time) {
    && r.Wrote? && QuietUpdate(r.update, resumedAt) && r.update.found == NO_MATERIAL
    && r.update.stop.None? && r.update.iteration.None?
  }

  /** `s'` is the state on, with the same material to write about. */
  predicate StillWritable(m: Machine, s': State) {
    && Quiet(s', m.resumedAt) && StopReasonOf(s') != Some(Cancelled)
    && s'.found == m.state.found && s'.iteration == m.state.iteration
  }

  lemma StillToWriteAbout(m: Machine, u: Update)
    requires Writable(m) && QuietUpdate(u, m.resumedAt) && u.found == NO_MATERIAL && u.stop.None? && u.iteration.None?
    ensures StillWritable(m, Applied(m.state, u))
  {
    QuietApplied(m.state, u, m.resumedAt);
    GatheredNothing(m.state.found);
  }

  lemma CountersApplied(s: State, u: Update)
    ensures var s' := Applied(s, u);
            && s'.repairs == u.repairs.GetOr(s.repairs) && s'.check == u.check.GetOr(s.check)
            && s'.report == if u.report.Some? then u.report else s.report
  {
  }

  lemma AnswererRouted(cfg: Config, m: Machine, s': State)
    requires Writable(m) && OnCourse(cfg, m) && m.next == At(Answerer)
    requires StillWritable(m, s') && s'.repairs == m.state.repairs
    ensures Moves(cfg, m, s', At(Synthesizer))
  {
  }

  /** A draft has been written that cites nothing. */
  predicate Drafted(m: Machine, s': State) {
    && StillWritable(m, s') && s'.repairs == m.state.repairs
    && s'.report.Some? && 0 in MarkersOf(s'.report.value.sections)
  }

  lemma DraftsIt(m: Machine, u: Update)
    requires Writable(m) && QuietUpdate(u, m.resumedAt) && u.found == NO_MATERIAL && u.stop.None? && u.iteration.None?
    requires u.repairs.None? && u.report.Some? && 0 in MarkersOf(u.report.value.sections)
    ensures Drafted(m, Applied(m.state, u))
  {
    StillToWriteAbout(m, u);
    CountersApplied(m.state, u);
  }

  lemma DraftRouted(cfg: Config, m: Machine, s': State)
    requires Writable(m) && OnCourse(cfg, m) && m.next == At(Synthesizer) && Drafted(m, s')
    ensures Moves(cfg, m, s', At(CitationValidator))
  {
  }

  lemma AnswererWrites(s: State, input: Input, resumedAt: Time)
    requires Quiet(s, resumedAt) && StopReasonOf(s) != Some(Cancelled)
    requires input.entry == resumedAt && input.exit == resumedAt && !input.cancelled && input.reply == Raised
    ensures var r := AnswererNode(s, input, resumedAt); Writes(r, resumedAt) && r.update.repairs.None?
  {
  }

  /** Writes that move the run on, of the node that is next. */
  lemma Ticks(cfg: Config, m: Machine, node: GraphNode, r: NodeResult, next: Next)
    requires r.Wrote? && Moves(cfg, m, Applied(m.state, r.update), next)
    requires Routed(cfg, node, Applied(m.state, r.update)) == next
    ensures NodeTicks(cfg, m, node, r)
  {
  }

  lemma AnswererMoves(cfg: Config, m: Machine, r: NodeResult)
    requires Writable(m) && OnCourse(cfg, m) && m.next == At(Answerer) && Writes(r, m.resumedAt) && r.update.repairs.None?
    ensures NodeTicks(cfg, m, Answerer, r)
  {
    StillToWriteAbout(m, r.update);
    CountersApplied(m.state, r.update);
    AnswererRouted(cfg, m, Applied(m.state, r.update));
    Ticks(cfg, m, Answerer, r, At(Synthesizer));
  }

  lemma WorstAnswerer(cfg: Config, m: Machine, usage: NodeUsage)
    requires Free(usage) && Unhurried(cfg, m) && m.next == At(Answerer)
    ensures NodeTicks(cfg, m, Answerer, AnswererNode(m.state, WorstInput(cfg, m, usage), m.resumedAt))
  {
    SomethingToWriteAbout(cfg, m);
    AnswererWrites(m.state, WorstInput(cfg, m, usage), m.resumedAt);
    AnswererMoves(cfg, m, AnswererNode(m.state, WorstInput(cfg, m, usage), m.resumedAt));
  }

  lemma SynthesizerWritesIt(s: State, input: Input, resumedAt: Time, draft: ReportDraft, usage: NodeUsage)
    requires Free(usage) && Quiet(s, resumedAt) && StopReasonOf(s) != Some(Cancelled)
    requires input.exit == resumedAt && !input.cancelled && input.reply == Returned(ReportValued(draft), usage)
    ensures var r := SynthesizerNode(s, input, resumedAt);
            && Writes(r, resumedAt) && r.update.repairs.None?
            && r.update.report.Some? && r.update.report.value.sections == draft.sections
  {
  }

  lemma SynthesizerMoves(cfg: Config, m: Machine, r: NodeResult)
    requires Writable(m) && OnCourse(cfg, m) && m.next == At(Synthesizer)
    requires Writes(r, m.resumedAt) && r.update.repairs.None?
    requires r.update.report.Some? && 0 in MarkersOf(r.update.report.value.sections)
    ensures NodeTicks(cfg, m, Synthesizer, r)
  {
    DraftsIt(m, r.update);
    DraftRouted(cfg, m, Applied(m.state, r.update));
    Ticks(cfg, m, Synthesizer, r, At(CitationValidator));
  }

  lemma WorstSynthesizer(cfg: Config, m: Machine, usage: NodeUsage)
    requires Free(usage) && Unhurried(cfg, m) && m.next == At(Synthesizer)
    ensures NodeTicks(cfg, m, Synthesizer, SynthesizerNode(m.state, WorstInput(cfg, m, usage), m.resumedAt))
  {
    SomethingToWriteAbout(cfg, m);
    InventedIsCited(CatalogOf(m.state));
    SynthesizerWritesIt(m.state, WorstInput(cfg, m, usage), m.resumedAt, WorstDraft(m.state), usage);
    SynthesizerMoves(cfg, m, SynthesizerNode(m.state, WorstInput(cfg, m, usage), m.resumedAt));
  }

  lemma ValidatorWritesIt(s: State, input: Input, resumedAt: Time, check: CitationCheck, usage: NodeUsage)
    requires Free(usage) && Quiet(s, resumedAt) && StopReasonOf(s) != Some(Cancelled) && s.report.Some?
    requires input.exit == resumedAt && !input.cancelled && input.reply == Returned(CheckValued(check), usage)
    requires check.revision == s.report.value.revision && !check.Passed()
    ensures var r := ValidatorNode(s, input, resumedAt);
            && Writes(r, resumedAt) && r.update.check == Some(Some(check)) && r.update.report.None?
            && r.update.repairs == if s.repairs < MAX_CITATION_REPAIRS then Some(s.repairs + 1) else None
  {
  }

  /** A draft that has been checked and failed. */
  predicate Failed(m: Machine, s': State) {
    && m.state.report.Some? && StillWritable(m, s')
    && s'.check.Some? && !s'.check.value.Passed() && s'.check.value.revision == m.state.report.value.revision
    && s'.repairs == if m.state.repairs < MAX_CITATION_REPAIRS then m.state.repairs + 1 else m.state.repairs
  }

  lemma FailsCheck(m: Machine, u: Update, check: CitationCheck)
    requires Writable(m) && m.state.report.Some?
    requires check.revision == m.state.report.value.revision && !check.Passed()
    requires QuietUpdate(u, m.resumedAt) && u.found == NO_MATERIAL && u.stop.None? && u.iteration.None?
    requires u.check == Some(Some(check)) && u.repairs == if m.state.repairs < MAX_CITATION_REPAIRS then Some(m.state.repairs + 1) else None
    ensures Failed(m, Applied(m.state, u))
  {
    StillToWriteAbout(m, u);
    CountersApplied(m.state, u);
  }

  lemma ValidatorMoves(cfg: Config, m: Machine, r: NodeResult, check: CitationCheck)
    requires Writable(m) && OnCourse(cfg, m) && m.next == At(CitationValidator) && m.state.report.Some?
    requires check.revision == m.state.report.value.revision && !check.Passed()
    requires Writes(r, m.resumedAt) && r.update.check == Some(Some(check)) && r.update.report.None?
    requires r.update.repairs == if m.state.repairs < MAX_CITATION_REPAIRS then Some(m.state.repairs + 1) else None
    ensures NodeTicks(cfg, m, CitationValidator, r)
  {
    FailsCheck(m, r.update, check);
    CheckRouted(cfg, m, Applied(m.state, r.update));
    Ticks(cfg, m, CitationValidator, r, AfterValidation(Applied(m.state, r.update)));
  }

  lemma CheckRouted(cfg: Config, m: Machine, s': State)
    requires Writable(m) && OnCourse(cfg, m) && m.next == At(CitationValidator) && Failed(m, s')
    ensures Moves(cfg, m, s', AfterValidation(s'))
  {
  }

  lemma ValidatorTakes(cfg: Config, m: Machine, usage: NodeUsage, input: Input, check: CitationCheck)
    requires Free(usage) && Writable(m) && OnCourse(cfg, m) && m.next == At(CitationValidator) && m.state.report.Some?
    requires input.exit == m.resumedAt && !input.cancelled && input.reply == Returned(CheckValued(check), usage)
    requires check.revision == m.state.report.value.revision && !check.Passed()
    ensures NodeTicks(cfg, m, CitationValidator, ValidatorNode(m.state, input, m.resumedAt))
  {
    ValidatorWritesIt(m.state, input, m.resumedAt, check, usage);
    ValidatorMoves(cfg, m, ValidatorNode(m.state, input, m.resumedAt), check);
  }

  /** The validator's own check of a draft that cites nothing. */
  predicate Rejects(m: Machine, reply: Reply, usage: NodeUsage) {
    && m.state.report.Some? && reply.Returned? && reply.value.CheckValued? && reply.usage == usage
    && reply.value.check.revision == m.state.report.value.revision && !reply.value.check.Passed()
  }

  lemma CheckRejects(m: Machine, reply: Reply, usage: NodeUsage)
    requires m.state.report.Some? && 0 in MarkersOf(m.state.report.value.sections)
    requires reply == Returned(CheckValued(Checked(RecordsOf(m.state.found), m.state.report.value)), usage)
    ensures Rejects(m, reply, usage)
  {
    InventedIsRejected(RecordsOf(m.state.found), m.state.report.value);
  }

  lemma ValidatorRejects(cfg: Config, m: Machine, usage: NodeUsage, input: Input)
    requires Free(usage) && Writable(m) && OnCourse(cfg, m) && m.next == At(CitationValidator)
    requires input.exit == m.resumedAt && !input.cancelled && Rejects(m, input.reply, usage)
    ensures NodeTicks(cfg, m, CitationValidator, ValidatorNode(m.state, input, m.resumedAt))
  {
    ValidatorTakes(cfg, m, usage, input, input.reply.value.check);
  }

  lemma WorstReplyRejects(cfg: Config, m: Machine, usage: NodeUsage)
    requires Unhurried(cfg, m) && m.next == At(CitationValidator)
    ensures Rejects(m, WorstReply(cfg, m, usage), usage)
  {
    SomethingToWriteAbout(cfg, m);
    CheckRejects(m, WorstReply(cfg, m, usage), usage);
  }

  lemma WorstValidator(cfg: Config, m: Machine, usage: NodeUsage)
    requires Free(usage) && Unhurried(cfg, m) && m.next == At(CitationValidator)
    ensures NodeTicks(cfg, m, CitationValidator, ValidatorNode(m.state, WorstInput(cfg, m, usage), m.resumedAt))
  {
    SomethingToWriteAbout(cfg, m);
    WorstReplyRejects(cfg, m, usage);
    ValidatorRejects(cfg, m, usage, WorstInput(cfg, m, usage));
  }

  // --- every superstep -------------------------------------------------------------------------

  lemma WorstStep(cfg: Config, m: Machine, usage: NodeUsage)
    requires Free(usage) && Unhurried(cfg, m) && m.next != End
    ensures Superstep(cfg, m, WorstInput(cfg, m, usage)).Commit?
    ensures var m' := Superstep(cfg, m, WorstInput(cfg, m, usage)).machine;
            m'.resumedAt == m.resumedAt && Moves(cfg, m, m'.state, m'.next)
  {
    match m.next
    case Round(_) => WorstRound(cfg, m, usage);
    case At(Planner) => WorstPlanner(cfg, m, usage);
    case At(Critic) => WorstCritic(cfg, m, usage);
    case At(Answerer) => WorstAnswerer(cfg, m, usage);
    case At(Synthesizer) => WorstSynthesizer(cfg, m, usage);
    case At(CitationValidator) => WorstValidator(cfg, m, usage);
    case At(_) => WorstProcessing(cfg, m, usage);
  }

  // --- every reply is one the run's agents can give -----------------------------------------------

  lemma WorstPlanIsGenuine(iteration: nat)
    ensures GenuinePlan(iteration, WorstPlan(iteration))
  {
  }

  lemma WorstEvidenceIsGenuine(s: State, key: string, items: seq<EvidenceItem>)
    requires s.found.sources == OneSource(key)
    requires items == Extracted(s.found.completed, s.found.sources, s.iteration, OneCall(key))
    ensures GenuineEvidence(STORED, s, items)
  {
    OneCallIsHonest(key);
  }

  lemma WorstReplyIsGenuine(cfg: Config, m: Machine, usage: NodeUsage)
    requires Unhurried(cfg, m)
    ensures GenuineEvent(STORED, m, Stepped(WorstInput(cfg, m, usage)))
  {
    var reply := WorstReply(cfg, m, usage);
    if m.next == At(Planner) {
      WorstPlanIsGenuine(m.state.iteration + 1);
    } else if m.next == At(EvidenceExtractor) && reply.Returned? {
      WorstEvidenceIsGenuine(m.state, TaskKey(m.state.iteration, 1), reply.value.evidence);
    } else if m.next == At(ClaimNormalizer) && reply.Returned? {
      assert Normalized(m.state.found.evidence, m.state.found.claims, OneProposal()) == Some(reply.value.claims);
    }
  }

  lemma SomethingCatalogued(s: State)
    requires s.found.claims != []
    ensures CatalogOf(s) != []
  {
    CatalogOfClaims(s.found.claims, MAX_PROMPT_CLAIMS);
  }

  lemma InventedIsGenuine(s: State)
    requires CatalogOf(s) != []
    ensures GenuineDraft(s, WorstDraft(s))
  {
    InventedIsCited(CatalogOf(s));
    InventedIsWritten(CatalogOf(s));
  }

  lemma WorstWritingIsGenuine(cfg: Config, m: Machine, usage: NodeUsage)
    requires Unhurried(cfg, m)
    ensures GenuineWriting(m, Stepped(WorstInput(cfg, m, usage)))
  {
    if m.next == At(Synthesizer) {
      SomethingCatalogued(m.state);
      InventedIsGenuine(m.state);
    } else if m.next == At(CitationValidator) {
      CheckIsGenuine(m.state, WorstReply(cfg, m, usage));
    }
  }

  lemma CheckIsGenuine(s: State, reply: Reply)
    requires s.report.Some? && reply.Returned? && reply.value == CheckValued(Checked(RecordsOf(s.found), s.report.value))
    ensures GenuineCheck(s, reply.value.check)
  {
  }

  // --- the whole run ---------------------------------------------------------------------------

  /** The worst input takes a superstep, and can be what happens. */
  lemma WorstNext(cfg: Config, m: Machine, usage: NodeUsage)
    requires Free(usage) && Unhurried(cfg, m) && m.next != End && StepsLeft(cfg, m) >= 0
    ensures var e := Stepped(WorstInput(cfg, m, usage));
            && Commits(cfg, m, e) && Unhurried(cfg, After(cfg, m, e))
            && 0 <= StepsLeft(cfg, After(cfg, m, e)) == StepsLeft(cfg, m) - 1
            && GenuineEvent(STORED, m, e) && GenuineWriting(m, e)
  {
    WorstStep(cfg, m, usage);
    StepAdvances(cfg, m, WorstInput(cfg, m, usage));
    WorstReplyIsGenuine(cfg, m, usage);
    WorstWritingIsGenuine(cfg, m, usage);
  }

  lemma OneMoreStep(cfg: Config, m: Machine, e: Event, rest: seq<Event>, events: seq<Event>)
    requires events == [e] + rest && Commits(cfg, m, e) && GenuineEvent(STORED, m, e) && GenuineWriting(m, e)
    requires GenuineRun(STORED, cfg, After(cfg, m, e), rest) && GenuinelyWritten(cfg, After(cfg, m, e), rest)
    ensures GenuineRun(STORED, cfg, m, events) && GenuinelyWritten(cfg, m, events)
    ensures CommittedSteps(cfg, m, events) == 1 + CommittedSteps(cfg, After(cfg, m, e), rest)
    ensures Run(cfg, m, events) == Run(cfg, After(cfg, m, e), rest)
  {
    assert events[1..] == rest;
  }

  /** From anywhere in such a run, it can be made to take every step left. */
  lemma {:induction false} WorstRest(cfg: Config, m: Machine, usage: NodeUsage) returns (events: seq<Event>)
    requires Free(usage) && Unhurried(cfg, m) && StepsLeft(cfg, m) >= 0
    ensures CommittedSteps(cfg, m, events) == StepsLeft(cfg, m)
    ensures Run(cfg, m, events).next == End
    ensures GenuineRun(STORED, cfg, m, events) && GenuinelyWritten(cfg, m, events)
    decreases StepsLeft(cfg, m)
  {
    events := [];
    if m.next != End {
      WorstNext(cfg, m, usage);
      var e := Stepped(WorstInput(cfg, m, usage));
      var rest := WorstRest(cfg, After(cfg, m, e), usage);
      events := [e] + rest;
      OneMoreStep(cfg, m, e, rest, events);
    }
  }

  lemma StartedUnhurried(cfg: Config, now: Time)
    ensures Unhurried(cfg, Started(now)) && StepsLeft(cfg, Started(now)) == MostSteps(cfg)
  {
  }

  /** A run of its own agents that takes as many supersteps as any could. */
  ghost predicate Longest(documents: map<Id, string>, cfg: Config, now: Time, events: seq<Event>) {
    && GenuineRun(documents, cfg, Started(now), events) && GenuinelyWritten(cfg, Started(now), events)
    && CommittedSteps(cfg, Started(now), events) == MostSteps(cfg)
    && Run(cfg, Started(now), events).next == End
  }

  /** For every mode and every set of ceilings some run of its own agents takes
      exactly `MostSteps` supersteps, so no smaller recursion limit would be
      safe. */
  lemma BoundIsReached(cfg: Config, now: Time)
    ensures exists events :: Longest(STORED, cfg, now, events)
  {
    StartedUnhurried(cfg, now);
    var events := WorstRest(cfg, Started(now), NO_USAGE);
    assert Longest(STORED, cfg, now, events);
  }
}
