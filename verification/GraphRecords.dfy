/** Who writes what. Every field of the state is written by its own agents, with
    exactly what they returned; every failure is on record; and a stop says why. */
module GraphRecords {
  import opened Wrappers
  import opened Schemas
  import opened Reducers
  import opened Budget
  import opened Graph
  import opened GraphTermination

  // --- when an agent is called -----------------------------------------------------------

  /** Every ceiling still has something left, every call has a price, and there
      is a round left: said of the state. */
  predicate RoundAllowed(budget: RunBudget, s: State, elapsed: nat) {
    && s.cost.usd < budget.maxCost && s.cost.uncostedCalls == 0 && elapsed < budget.maxRuntime
    && |s.found.sources| < budget.maxSources && s.searches < budget.maxSearchQueries && s.iteration < budget.maxIterations
  }

  predicate Uncancelled(s: State, flag: bool) {
    !flag && (s.stop.Some? ==> s.stop.value.reason != Cancelled)
  }

  /** A planner needs a round to be allowed, a critic that nothing has stopped
      discovery, an answerer that there is no answer yet. */
  predicate MayCall(cfg: Config, node: GraphNode, s: State, input: Input, resumedAt: Time) {
    && Uncancelled(s, input.cancelled)
    && (node == Planner ==> s.stop.None? && RoundAllowed(cfg.budget, s, s.clock.ElapsedAt(input.entry, resumedAt)))
    && (node == Critic ==> s.stop.None?)
    && (node == Answerer ==> s.answer.None?)
  }

  // --- what a node writes of what it was given ----------------------------------------------

  predicate Gave(called: bool, reply: Reply) {
    called && reply.Returned?
  }

  function PlanFrom(node: GraphNode, called: bool, reply: Reply): Option<Plan> {
    if Gave(called, reply) && node == Planner && reply.value.PlanValued? then Some(reply.value.plan) else None
  }

  function SubtasksFrom(node: GraphNode, called: bool, reply: Reply): seq<Subtask> {
    var plan := PlanFrom(node, called, reply);
    if plan.Some? then plan.value.subtasks else []
  }

  function EvidenceFrom(node: GraphNode, called: bool, reply: Reply): seq<EvidenceItem> {
    if Gave(called, reply) && node == EvidenceExtractor && reply.value.EvidenceValued? then reply.value.evidence else []
  }

  function ClaimsFrom(node: GraphNode, called: bool, reply: Reply): seq<ClaimItem> {
    if Gave(called, reply) && node in {ClaimNormalizer, Verifier} && reply.value.ClaimsValued? then reply.value.claims else []
  }

  function ContradictionsFrom(node: GraphNode, called: bool, reply: Reply): seq<ContradictionItem> {
    if Gave(called, reply) && node == ContradictionChecker && reply.value.ContradictionsValued?
    then reply.value.contradictions else []
  }

  function CritiqueFrom(node: GraphNode, called: bool, reply: Reply): Option<Critique> {
    if Gave(called, reply) && node == Critic && reply.value.CritiqueValued? then Some(reply.value.critique) else None
  }

  function AnswerFrom(node: GraphNode, called: bool, reply: Reply): Option<AnswerDraft> {
    if Gave(called, reply) && node == Answerer && reply.value.AnswerValued? then reply.value.answer else None
  }

  function ReportFrom(node: GraphNode, called: bool, reply: Reply): Option<ReportDraft> {
    if Gave(called, reply) && node == Synthesizer && reply.value.ReportValued? then Some(reply.value.report) else None
  }

  function CheckFrom(node: GraphNode, called: bool, reply: Reply): Option<CitationCheck> {
    if Gave(called, reply) && node == CitationValidator && reply.value.CheckValued? then Some(reply.value.check) else None
  }

  /** What is gathered is what was returned. */
  predicate WritesGathered(node: GraphNode, reply: Reply, u: Update, called: bool) {
    && u.found.sources == [] && u.found.completed == [] && u.found.failed == []
    && u.found.subtasks == SubtasksFrom(node, called, reply)
    && u.found.evidence == EvidenceFrom(node, called, reply)
    && u.found.claims == ClaimsFrom(node, called, reply)
    && u.found.contradictions == ContradictionsFrom(node, called, reply)
  }

  /** So is what is concluded; a new draft is stamped with the repairs granted
      and the caveat of the stop, and waits for its check. */
  predicate WritesConclusions(node: GraphNode, s: State, reply: Reply, u: Update, called: bool) {
    var report := ReportFrom(node, called, reply);
    var check := CheckFrom(node, called, reply);
    && u.plan == PlanFrom(node, called, reply)
    && u.iteration == (if u.plan.Some? then Some(s.iteration + 1) else None)
    && u.critique == CritiqueFrom(node, called, reply)
    && u.answer == AnswerFrom(node, called, reply)
    && u.report.Some? == report.Some? && (report.Some? ==> Stamped(s, report.value, u.report.value))
    && u.check == (if report.Some? then Some(None) else if check.Some? then Some(check) else None)
  }

  predicate Stamped(s: State, draft: ReportDraft, report: ReportDraft) {
    && report.title == draft.title && report.sections == draft.sections && report.revision == s.repairs
    && report.coverageCaveat == if s.stop.Some? then s.stop.value.caveat else None
  }

  /** A refused or failed call is recorded, with the round it was in, and nothing
      else is. */
  predicate WritesFailure(node: GraphNode, s: State, reply: Reply, u: Update, called: bool) {
    var round := if node == Planner then s.iteration + 1 else s.iteration;
    u.errors == if called && (reply.Raised? || reply.Refused?) then [NodeError(node, round, StepFailed, None)] else []
  }

  /** The clock is read last after a call, and otherwise on entry. */
  predicate WritesClock(s: State, input: Input, resumedAt: Time, u: Update, called: bool) {
    var now := if called then input.exit else input.entry;
    u.clock == Some(RunClock(s.clock.ElapsedAt(now, resumedAt), now))
  }

  predicate Records(cfg: Config, node: GraphNode, s: State, input: Input, resumedAt: Time, u: Update, called: bool) {
    && called == MayCall(cfg, node, s, input, resumedAt)
    && WritesGathered(node, input.reply, u, called)
    && WritesConclusions(node, s, input.reply, u, called)
    && WritesFailure(node, s, input.reply, u, called)
    && WritesClock(s, input, resumedAt, u, called)
  }

  lemma PlannerRecords(cfg: Config, s: State, input: Input, resumedAt: Time)
    requires PlannerNode(cfg, s, input, resumedAt).Wrote?
    ensures var r := PlannerNode(cfg, s, input, resumedAt); Records(cfg, Planner, s, input, resumedAt, r.update, r.called)
  {
    LimitIsFirstReached(cfg.budget, Used(s, input.entry, resumedAt, None), true);
  }

  lemma ProcessRecords(cfg: Config, node: GraphNode, s: State, input: Input, resumedAt: Time)
    requires node in {Researcher, EvidenceExtractor, ClaimNormalizer, Verifier, ContradictionChecker}
    requires ProcessNode(s, node, Written(node, input.reply), input, resumedAt).Wrote?
    ensures var r := ProcessNode(s, node, Written(node, input.reply), input, resumedAt);
            Records(cfg, node, s, input, resumedAt, r.update, r.called)
  {
  }

  lemma CriticRecords(cfg: Config, s: State, input: Input, resumedAt: Time)
    requires CriticNode(cfg, s, input, resumedAt).Wrote?
    ensures var r := CriticNode(cfg, s, input, resumedAt); Records(cfg, Critic, s, input, resumedAt, r.update, r.called)
  {
  }

  lemma AnswererRecords(cfg: Config, s: State, input: Input, resumedAt: Time)
    requires AnswererNode(s, input, resumedAt).Wrote?
    ensures var r := AnswererNode(s, input, resumedAt); Records(cfg, Answerer, s, input, resumedAt, r.update, r.called)
  {
  }

  lemma SynthesizerRecords(cfg: Config, s: State, input: Input, resumedAt: Time)
    requires SynthesizerNode(s, input, resumedAt).Wrote?
    ensures var r := SynthesizerNode(s, input, resumedAt); Records(cfg, Synthesizer, s, input, resumedAt, r.update, r.called)
  {
  }

  lemma ValidatorRecords(cfg: Config, s: State, input: Input, resumedAt: Time)
    requires ValidatorNode(s, input, resumedAt).Wrote?
    ensures var r := ValidatorNode(s, input, resumedAt); Records(cfg, CitationValidator, s, input, resumedAt, r.update, r.called)
  {
  }

  /** Whichever node it is: its agent is called exactly if it may be, and each
      field is written by its own agents, with what they returned. */
  lemma NodeRecords(cfg: Config, node: GraphNode, s: State, input: Input, resumedAt: Time)
    requires NodeStep(cfg, node, s, input, resumedAt).Wrote?
    ensures var r := NodeStep(cfg, node, s, input, resumedAt); Records(cfg, node, s, input, resumedAt, r.update, r.called)
  {
    match node
    case Planner => PlannerRecords(cfg, s, input, resumedAt);
    case Critic => CriticRecords(cfg, s, input, resumedAt);
    case Answerer => AnswererRecords(cfg, s, input, resumedAt);
    case Synthesizer => SynthesizerRecords(cfg, s, input, resumedAt);
    case CitationValidator => ValidatorRecords(cfg, s, input, resumedAt);
    case _ => ProcessRecords(cfg, node, s, input, resumedAt);
  }

  // --- why a stop is written ------------------------------------------------------------------

  /** What has been used once a call is counted in. */
  function MeasuredAt(s: State, now: Time, resumedAt: Time, usage: Option<NodeUsage>): Consumption {
    var elapsed := s.clock.ElapsedAt(now, resumedAt);
    if usage.None? then Consumption(s.iteration, |s.found.sources|, s.searches, elapsed, s.cost)
    else
      var cost := usage.value.cost;
      Consumption(s.iteration, |s.found.sources|, s.searches + usage.value.searchQueries, elapsed,
                  CostEstimate(s.cost.usd + cost.usd, s.cost.uncostedCalls + cost.uncostedCalls))
  }

  ghost predicate NamesCeiling(budget: RunBudget, used: Consumption, atRoundBoundary: bool, reason: StopReason) {
    exists n :: FirstReached(budget, used, atRoundBoundary, n) && CEILINGS[n] == reason
  }

  /** No further round: for the first ceiling reached, or for want of rounds. */
  ghost predicate Bars(budget: RunBudget, used: Consumption, reason: StopReason) {
    || NamesCeiling(budget, used, true, reason)
    || (reason == Iterations && UnderEveryCeiling(budget, used, true) && used.iterations >= budget.maxIterations)
  }

  lemma BarredIsNamed(budget: RunBudget, used: Consumption)
    ensures forall reason :: Bars(budget, used, reason) <==> RoundBarred(budget, used) == Some(reason)
    ensures forall reason :: NamesCeiling(budget, used, false, reason) <==> LimitReached(budget, used, false) == Some(reason)
  {
    LimitIsFirstReached(budget, used, true);
    LimitIsFirstReached(budget, used, false);
  }

  function UsageOf(reply: Reply): Option<NodeUsage> {
    if reply.Returned? then Some(reply.usage) else None
  }

  /** The reasons a node writes a stop for. */
  ghost predicate StopsFor(cfg: Config, node: GraphNode, s: State, input: Input, resumedAt: Time, called: bool,
                           reason: StopReason) {
    if !Uncancelled(s, input.cancelled) then reason == Cancelled
    else if !called then node == Planner && s.stop.None? && Bars(cfg.budget, MeasuredAt(s, input.entry, resumedAt, None), reason)
    else if input.reply.Refused? then reason == Cost
    else if input.reply.Raised? then node in {Planner, Critic} && reason == DiscoveryFailed
    else
      var used := MeasuredAt(s, input.exit, resumedAt, UsageOf(input.reply));
      var critique := CritiqueFrom(node, called, input.reply);
      || (node == Planner && NamesCeiling(cfg.budget, used, false, reason))
      || (critique.Some? && !critique.value.sufficient && Bars(cfg.budget, used, reason))
  }

  /** What the critic last wanted, if that is what there was no round left for. */
  function Wanted(node: GraphNode, s: State, reply: Reply, reason: StopReason): seq<string> {
    var critique := if node == Planner then s.critique else CritiqueFrom(node, true, reply);
    if reason == Iterations && critique.Some? then critique.value.missing else []
  }

  /** A caveat gives the stop's reason, what had been used by then, and what was
      still wanted. */
  predicate CaveatSays(node: GraphNode, s: State, input: Input, resumedAt: Time, called: bool, stop: Stop) {
    && stop.caveat.Some? && stop.caveat.value.explains == stop.reason
    && stop.caveat.value.used
       == MeasuredAt(s, if called then input.exit else input.entry, resumedAt, if called then UsageOf(input.reply) else None)
    && stop.caveat.value.missing == Wanted(node, s, input.reply, stop.reason)
  }

  ghost predicate WritesStop(cfg: Config, node: GraphNode, s: State, input: Input, resumedAt: Time, stop: Option<Stop>,
                             called: bool) {
    && (forall reason :: StopsFor(cfg, node, s, input, resumedAt, called, reason) ==> stop.Some? && stop.value.reason == reason)
    && (stop.Some? ==>
          && StopsFor(cfg, node, s, input, resumedAt, called, stop.value.reason)
          && (stop.value.reason == Cancelled || s.stop.Some? ==> stop.value.caveat.None?)
          && (stop.value.reason != Cancelled && s.stop.None? ==> CaveatSays(node, s, input, resumedAt, called, stop.value)))
  }

  /** The stop is for this reason, or there is none to write. */
  lemma StopIsFor(cfg: Config, node: GraphNode, s: State, input: Input, resumedAt: Time, called: bool, stop: Option<Stop>,
                  why: Option<StopReason>)
    requires forall reason :: StopsFor(cfg, node, s, input, resumedAt, called, reason) <==> why == Some(reason)
    requires stop.Some? <==> why.Some?
    requires stop.Some? ==> stop.value.reason == why.value
    requires stop.Some? && (stop.value.reason == Cancelled || s.stop.Some?) ==> stop.value.caveat.None?
    requires stop.Some? && stop.value.reason != Cancelled && s.stop.None? ==>
               CaveatSays(node, s, input, resumedAt, called, stop.value)
    ensures WritesStop(cfg, node, s, input, resumedAt, stop, called)
  {
  }

  /** Whether a node that was not called has a reason to write a stop. */
  function WhyUncalled(cfg: Config, node: GraphNode, s: State, input: Input, resumedAt: Time): Option<StopReason> {
    if !Uncancelled(s, input.cancelled) then Some(Cancelled)
    else if node == Planner && s.stop.None? then RoundBarred(cfg.budget, MeasuredAt(s, input.entry, resumedAt, None))
    else None
  }

  /** And one that was. */
  function WhyCalled(cfg: Config, node: GraphNode, s: State, input: Input, resumedAt: Time): Option<StopReason> {
    var used := MeasuredAt(s, input.exit, resumedAt, UsageOf(input.reply));
    var critique := CritiqueFrom(node, true, input.reply);
    if !Uncancelled(s, input.cancelled) then Some(Cancelled)
    else if input.reply.Refused? then Some(Cost)
    else if input.reply.Raised? then (if node in {Planner, Critic} then Some(DiscoveryFailed) else None)
    else if node == Planner then LimitReached(cfg.budget, used, false)
    else if critique.Some? && !critique.value.sufficient then RoundBarred(cfg.budget, used)
    else None
  }

  lemma WhyIsWhy(cfg: Config, node: GraphNode, s: State, input: Input, resumedAt: Time, called: bool, reason: StopReason)
    ensures StopsFor(cfg, node, s, input, resumedAt, called, reason)
            <==> (if called then WhyCalled(cfg, node, s, input, resumedAt) else WhyUncalled(cfg, node, s, input, resumedAt)) == Some(reason)
  {
    if called {
      BarredIsNamed(cfg.budget, MeasuredAt(s, input.exit, resumedAt, UsageOf(input.reply)));
    } else {
      BarredIsNamed(cfg.budget, MeasuredAt(s, input.entry, resumedAt, None));
    }
  }

  /** The stop written is the one there is a reason for, and its caveat says what
      had been used. */
  predicate StopsAs(cfg: Config, node: GraphNode, s: State, input: Input, resumedAt: Time, stop: Option<Stop>, called: bool) {
    var why := if called then WhyCalled(cfg, node, s, input, resumedAt) else WhyUncalled(cfg, node, s, input, resumedAt);
    && (stop.Some? <==> why.Some?)
    && (stop.Some? ==>
          && stop.value.reason == why.value
          && (stop.value.reason == Cancelled || s.stop.Some? ==> stop.value.caveat.None?)
          && (stop.value.reason != Cancelled && s.stop.None? ==> CaveatSays(node, s, input, resumedAt, called, stop.value)))
  }

  lemma StopsAsWritten(cfg: Config, node: GraphNode, s: State, input: Input, resumedAt: Time, stop: Option<Stop>,
                       called: bool)
    requires StopsAs(cfg, node, s, input, resumedAt, stop, called)
    ensures WritesStop(cfg, node, s, input, resumedAt, stop, called)
  {
    var why := if called then WhyCalled(cfg, node, s, input, resumedAt) else WhyUncalled(cfg, node, s, input, resumedAt);
    forall reason ensures StopsFor(cfg, node, s, input, resumedAt, called, reason) <==> why == Some(reason) {
      WhyIsWhy(cfg, node, s, input, resumedAt, called, reason);
    }
    StopIsFor(cfg, node, s, input, resumedAt, called, stop, why);
  }

  lemma PlannerStopsAs(cfg: Config, s: State, input: Input, resumedAt: Time)
    requires PlannerNode(cfg, s, input, resumedAt).Wrote?
    ensures var r := PlannerNode(cfg, s, input, resumedAt); StopsAs(cfg, Planner, s, input, resumedAt, r.update.stop, r.called)
  {
  }

  lemma PlannerSaysWhy(cfg: Config, s: State, input: Input, resumedAt: Time)
    requires PlannerNode(cfg, s, input, resumedAt).Wrote?
    ensures var r := PlannerNode(cfg, s, input, resumedAt);
            WritesStop(cfg, Planner, s, input, resumedAt, r.update.stop, r.called)
  {
    var r := PlannerNode(cfg, s, input, resumedAt);
    PlannerStopsAs(cfg, s, input, resumedAt);
    StopsAsWritten(cfg, Planner, s, input, resumedAt, r.update.stop, r.called);
  }

  lemma ProcessSaysWhy(cfg: Config, node: GraphNode, s: State, input: Input, resumedAt: Time)
    requires node in {Researcher, EvidenceExtractor, ClaimNormalizer, Verifier, ContradictionChecker}
    requires ProcessNode(s, node, Written(node, input.reply), input, resumedAt).Wrote?
    ensures var r := ProcessNode(s, node, Written(node, input.reply), input, resumedAt);
            WritesStop(cfg, node, s, input, resumedAt, r.update.stop, r.called)
  {
  }

  lemma CriticStopsAs(cfg: Config, s: State, input: Input, resumedAt: Time)
    requires CriticNode(cfg, s, input, resumedAt).Wrote?
    ensures var r := CriticNode(cfg, s, input, resumedAt); StopsAs(cfg, Critic, s, input, resumedAt, r.update.stop, r.called)
  {
  }

  lemma CriticSaysWhy(cfg: Config, s: State, input: Input, resumedAt: Time)
    requires CriticNode(cfg, s, input, resumedAt).Wrote?
    ensures var r := CriticNode(cfg, s, input, resumedAt);
            WritesStop(cfg, Critic, s, input, resumedAt, r.update.stop, r.called)
  {
    var r := CriticNode(cfg, s, input, resumedAt);
    CriticStopsAs(cfg, s, input, resumedAt);
    StopsAsWritten(cfg, Critic, s, input, resumedAt, r.update.stop, r.called);
  }

  lemma WritersSayWhy(cfg: Config, node: GraphNode, s: State, input: Input, resumedAt: Time)
    requires node in {Answerer, Synthesizer, CitationValidator} && NodeStep(cfg, node, s, input, resumedAt).Wrote?
    ensures var r := NodeStep(cfg, node, s, input, resumedAt);
            WritesStop(cfg, node, s, input, resumedAt, r.update.stop, r.called)
  {
  }

  /** Whichever node it is, a stop is written exactly for a cancellation, a
      refused call, a failed search for more, the first ceiling reached or want
      of rounds, and its caveat says what had been used. */
  lemma StopSaysWhy(cfg: Config, node: GraphNode, s: State, input: Input, resumedAt: Time)
    requires NodeStep(cfg, node, s, input, resumedAt).Wrote?
    ensures var r := NodeStep(cfg, node, s, input, resumedAt);
            WritesStop(cfg, node, s, input, resumedAt, r.update.stop, r.called)
  {
    if node == Planner {
      PlannerSaysWhy(cfg, s, input, resumedAt);
    } else if node == Critic {
      CriticSaysWhy(cfg, s, input, resumedAt);
    } else if node in {Answerer, Synthesizer, CitationValidator} {
      WritersSayWhy(cfg, node, s, input, resumedAt);
    } else {
      ProcessSaysWhy(cfg, node, s, input, resumedAt);
    }
  }
}
