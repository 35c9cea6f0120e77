/** The governed research graph (`agents/graph.py`): every node inside the run's
    rules, the routing between nodes, and one superstep of a run.

    An agent is whatever its node is told it did: it returned a value of its
    output schema, the budget guard refused it, it raised, or it broke its
    contract. Time, cancellation and the order parallel writes fold in come from
    outside too, so a statement about every list of inputs is one about every
    run. */
module Graph {
  import opened Wrappers
  import opened Schemas
  import opened Sums
  import opened Reducers
  import opened Budget

  /** What a run may use, and the graph's own bound. Frozen when the run starts. */
  datatype Config = Config(mode: Mode, budget: RunBudget, width: Positive)

  /** What the run has gathered. */
  datatype Material = Material(
    subtasks: seq<Subtask>,
    sources: seq<SourceRef>,
    completed: seq<TaskOutcome>,
    failed: seq<NodeError>,
    evidence: seq<EvidenceItem>,
    claims: seq<ClaimItem>,
    contradictions: seq<ContradictionItem>)

  const NO_MATERIAL := Material([], [], [], [], [], [], [])

  /** The state's fields, with what was gathered grouped under `found`. */
  datatype State = State(
    iteration: nat,
    plan: Option<Plan>,
    found: Material,
    critique: Option<Critique>,
    answer: Option<AnswerDraft>,
    report: Option<ReportDraft>,
    check: Option<CitationCheck>,
    repairs: nat,
    cost: CostEstimate,
    searches: nat,
    clock: RunClock,
    stop: Option<Stop>,
    errors: seq<NodeError>)

  function InitialState(now: Time): State {
    State(0, None, NO_MATERIAL, None, None, None, None, 0,
          CostEstimate(0, 0), 0, RunClock(0, now), None, [])
  }

  // --- what nodes write ------------------------------------------------------------

  /** One node's writes. A field left out is a field not written. */
  datatype Update = Update(
    iteration: Option<nat>,
    plan: Option<Plan>,
    found: Material,
    critique: Option<Critique>,
    answer: Option<AnswerDraft>,
    report: Option<ReportDraft>,
    check: Option<Option<CitationCheck>>,
    repairs: Option<nat>,
    usage: Option<NodeUsage>,
    clock: Option<RunClock>,
    stop: Option<Stop>,
    errors: seq<NodeError>)

  const NOTHING := Update(None, None, NO_MATERIAL, None, None, None, None, None, None, None, None, [])

  function SpentCost(cost: CostEstimate, usage: Option<NodeUsage>): CostEstimate {
    if usage.Some? then cost.Plus(usage.value.cost) else cost
  }

  function SpentSearches(searches: nat, usage: Option<NodeUsage>): nat {
    if usage.Some? then searches + usage.value.searchQueries else searches
  }

  function Gathered(m: Material, more: Material): Material {
    Material(
      m.subtasks + more.subtasks,
      MergedSources(m.sources, more.sources),
      m.completed + more.completed,
      m.failed + more.failed,
      MergedById(EvidenceId, m.evidence, more.evidence),
      MergedById(ClaimId, m.claims, more.claims),
      MergedById(ContradictionId, m.contradictions, more.contradictions))
  }

  /** A superstep's writes, folded in by the reducers. */
  function Applied(s: State, u: Update): State {
    State(
      u.iteration.GetOr(s.iteration),
      if u.plan.Some? then u.plan else s.plan,
      Gathered(s.found, u.found),
      if u.critique.Some? then u.critique else s.critique,
      if u.answer.Some? then u.answer else s.answer,
      if u.report.Some? then u.report else s.report,
      u.check.GetOr(s.check),
      u.repairs.GetOr(s.repairs),
      SpentCost(s.cost, u.usage),
      SpentSearches(s.searches, u.usage),
      if u.clock.Some? then LatestClock(s.clock, u.clock.value) else s.clock,
      KeepStop(s.stop, u.stop),
      s.errors + u.errors)
  }

  function AppliedAll(s: State, us: seq<Update>): State
    decreases |us|
  {
    if us == [] then s else AppliedAll(Applied(s, us[0]), us[1..])
  }

  // --- what comes from outside -------------------------------------------------------

  datatype Value =
    | PlanValued(plan: Plan)
    | OutcomeValued(outcome: TaskOutcome)
    | EvidenceValued(evidence: seq<EvidenceItem>)
    | ClaimsValued(claims: seq<ClaimItem>)
    | ContradictionsValued(contradictions: seq<ContradictionItem>)
    | CritiqueValued(critique: Critique)
    | AnswerValued(answer: Option<AnswerDraft>)
    | ReportValued(report: ReportDraft)
    | CheckValued(check: CitationCheck)

  datatype Reply =
    | Returned(value: Value, usage: NodeUsage)
    | Refused
    | Raised
    | Violated

  /** What happens around one researcher. */
  datatype ResearcherInput = ResearcherInput(cancelled: bool, reply: Reply)

  /** What happens around one superstep: the two clock readings, the cancel
      flag, what the agent did, and, for a round of researchers, what each did
      and the order their writes fold in. */
  datatype Input = Input(
    entry: Time,
    exit: Time,
    cancelled: bool,
    reply: Reply,
    researchers: seq<ResearcherInput>,
    order: seq<nat>)

  datatype GraphError = PlanningFailed | SynthesisFailed | CitationValidationFailed | NodeContractViolated

  /** A node either writes, having called its agent or not, or raises. */
  datatype NodeResult =
    | Wrote(update: Update, called: bool)
    | Threw(error: GraphError)

  // --- boundaries --------------------------------------------------------------------

  function StopReasonOf(s: State): Option<StopReason> {
    if s.stop.Some? then Some(s.stop.value.reason) else None
  }

  function Consumed(s: State): Consumption {
    Consumption(s.iteration, |s.found.sources|, s.searches, s.clock.elapsed, s.cost)
  }

  function Used(s: State, now: Time, resumedAt: Time, usage: Option<NodeUsage>): Consumption {
    Consumption(s.iteration, |s.found.sources|, SpentSearches(s.searches, usage),
                s.clock.ElapsedAt(now, resumedAt), SpentCost(s.cost, usage))
  }

  predicate IsCancelled(s: State, flag: bool) {
    StopReasonOf(s) == Some(Cancelled) || flag
  }

  function AccountedFor(s: State, now: Time, resumedAt: Time, usage: Option<NodeUsage>): Update {
    NOTHING.(clock := Some(s.clock.AdvancedTo(now, resumedAt)), usage := usage)
  }

  function StopFor(s: State, reason: StopReason, used: Consumption, critique: Option<Critique>): Option<Stop> {
    Some(Stop(reason, if s.stop.None? then CoverageCaveat(reason, used, critique) else None))
  }

  function CancelledUpdate(s: State, now: Time, resumedAt: Time): Update {
    AccountedFor(s, now, resumedAt, None).(stop := Some(Stop(Cancelled, None)))
  }

  function FailedStep(node: GraphNode, iteration: nat): NodeError {
    NodeError(node, iteration, StepFailed, None)
  }

  /** Recorded, and discovery ends for `reason`. */
  function StoppedUpdate(s: State, node: GraphNode, iteration: nat, reason: StopReason, now: Time,
                         resumedAt: Time): Update {
    AccountedFor(s, now, resumedAt, None).(
      stop := StopFor(s, reason, Used(s, now, resumedAt, None), None),
      errors := [FailedStep(node, iteration)])
  }

  // --- discovery ---------------------------------------------------------------------

  /** Why no round may start: a ceiling, or no rounds left. */
  function RoundBarred(budget: RunBudget, used: Consumption): Option<StopReason> {
    var reason := LimitReached(budget, used, true);
    if reason.None? && !MayPlanAgain(budget, used) then Some(Iterations) else reason
  }

  function PlannerNode(cfg: Config, s: State, input: Input, resumedAt: Time): NodeResult {
    if IsCancelled(s, input.cancelled) then Wrote(CancelledUpdate(s, input.entry, resumedAt), false)
    else if s.stop.Some? then Wrote(AccountedFor(s, input.entry, resumedAt, None), false)
    else
      var used := Used(s, input.entry, resumedAt, None);
      var barred := RoundBarred(cfg.budget, used);
      if barred.Some? then
        Wrote(AccountedFor(s, input.entry, resumedAt, None).(stop := StopFor(s, barred.value, used, s.critique)), false)
      else
        var iteration := s.iteration + 1;
        match input.reply
        case Violated => Threw(NodeContractViolated)
        case Refused => Wrote(StoppedUpdate(s, Planner, iteration, Cost, input.exit, resumedAt), true)
        case Raised =>
          if iteration == 1 then Threw(PlanningFailed)
          else Wrote(StoppedUpdate(s, Planner, iteration, DiscoveryFailed, input.exit, resumedAt), true)
        case Returned(PlanValued(plan), usage) =>
          if plan.iteration != iteration then Threw(NodeContractViolated)
          else
            var after := Used(s, input.exit, resumedAt, Some(usage));
            var reason := LimitReached(cfg.budget, after, false);
            Wrote(AccountedFor(s, input.exit, resumedAt, Some(usage)).(
                    iteration := Some(iteration),
                    plan := Some(plan),
                    found := NO_MATERIAL.(subtasks := plan.subtasks),
                    stop := if reason.Some? then StopFor(s, reason.value, after, None) else None),
                  true)
        case Returned(_, _) => Threw(NodeContractViolated)
  }

  function ExceededSources(work: SubtaskAssignment, outcome: TaskOutcome): seq<NodeError> {
    if |outcome.sources| > work.sourceAllowance
    then [NodeError(Researcher, work.subtask.iteration, SourcesExceeded(|outcome.sources|, work.sourceAllowance), Some(work.subtask.key))]
    else []
  }

  function ExceededQueries(work: SubtaskAssignment, usage: NodeUsage): seq<NodeError> {
    if usage.searchQueries > work.queryAllowance
    then [NodeError(Researcher, work.subtask.iteration, QueriesExceeded(usage.searchQueries, work.queryAllowance), Some(work.subtask.key))]
    else []
  }

  /** Only as many sources as were allowed count. */
  function Capped(work: SubtaskAssignment, outcome: TaskOutcome): TaskOutcome {
    if |outcome.sources| > work.sourceAllowance
    then outcome.(sources := outcome.sources[..work.sourceAllowance])
    else outcome
  }

  function ResearcherNode(work: SubtaskAssignment, input: ResearcherInput): NodeResult {
    if input.cancelled then Wrote(NOTHING.(stop := Some(Stop(Cancelled, None))), false)
    else
      match input.reply
      case Violated => Threw(NodeContractViolated)
      case Returned(OutcomeValued(outcome), usage) =>
        if outcome.taskKey != work.subtask.key || outcome.iteration != work.subtask.iteration then Threw(NodeContractViolated)
        else
          var counted := Capped(work, outcome);
          Wrote(NOTHING.(
                  found := NO_MATERIAL.(completed := [counted], sources := counted.sources),
                  usage := Some(usage),
                  errors := ExceededSources(work, outcome) + ExceededQueries(work, usage)),
                true)
      case Returned(_, _) => Threw(NodeContractViolated)
      case _ => Wrote(NOTHING.(found := NO_MATERIAL.(failed := [NodeError(Researcher, work.subtask.iteration, StepFailed, Some(work.subtask.key))])), true)
  }

  // --- processing --------------------------------------------------------------------

  /** `_process`: a step whose failure is recorded and the run goes on. `written`
      is what the agent's value writes, if it is of the right type. */
  function ProcessNode(s: State, node: GraphNode, written: Option<Update>, input: Input, resumedAt: Time): NodeResult {
    if IsCancelled(s, input.cancelled) then Wrote(CancelledUpdate(s, input.entry, resumedAt), false)
    else
      match input.reply
      case Violated => Threw(NodeContractViolated)
      case Refused => Wrote(StoppedUpdate(s, node, s.iteration, Cost, input.exit, resumedAt), true)
      case Raised =>
        Wrote(AccountedFor(s, input.exit, resumedAt, None).(errors := [FailedStep(node, s.iteration)]), true)
      case Returned(_, usage) =>
        if written.None? then Threw(NodeContractViolated)
        else Wrote(written.value.(clock := Some(s.clock.AdvancedTo(input.exit, resumedAt)), usage := Some(usage)), true)
  }

  /** The items a processing node writes. */
  function Written(node: GraphNode, reply: Reply): Option<Update> {
    match (node, reply)
    case (EvidenceExtractor, Returned(EvidenceValued(items), _)) => Some(NOTHING.(found := NO_MATERIAL.(evidence := items)))
    case (ClaimNormalizer, Returned(ClaimsValued(items), _)) => Some(NOTHING.(found := NO_MATERIAL.(claims := items)))
    case (Verifier, Returned(ClaimsValued(items), _)) => Some(NOTHING.(found := NO_MATERIAL.(claims := items)))
    case (ContradictionChecker, Returned(ContradictionsValued(items), _)) => Some(NOTHING.(found := NO_MATERIAL.(contradictions := items)))
    case _ => None
  }

  function CriticNode(cfg: Config, s: State, input: Input, resumedAt: Time): NodeResult {
    if IsCancelled(s, input.cancelled) then Wrote(CancelledUpdate(s, input.entry, resumedAt), false)
    else if s.stop.Some? then Wrote(AccountedFor(s, input.entry, resumedAt, None), false)
    else
      match input.reply
      case Violated => Threw(NodeContractViolated)
      case Refused => Wrote(StoppedUpdate(s, Critic, s.iteration, Cost, input.exit, resumedAt), true)
      case Raised => Wrote(StoppedUpdate(s, Critic, s.iteration, DiscoveryFailed, input.exit, resumedAt), true)
      case Returned(CritiqueValued(critique), usage) =>
        if critique.iteration != s.iteration then Threw(NodeContractViolated)
        else
          var used := Used(s, input.exit, resumedAt, Some(usage));
          var barred := if critique.sufficient then None else RoundBarred(cfg.budget, used);
          Wrote(AccountedFor(s, input.exit, resumedAt, Some(usage)).(
                  critique := Some(critique),
                  stop := if barred.Some? then StopFor(s, barred.value, used, Some(critique)) else None),
                true)
      case Returned(_, _) => Threw(NodeContractViolated)
  }

  // --- writing -----------------------------------------------------------------------

  function AnswererNode(s: State, input: Input, resumedAt: Time): NodeResult {
    if IsCancelled(s, input.cancelled) then Wrote(CancelledUpdate(s, input.entry, resumedAt), false)
    else if s.answer.Some? then Wrote(AccountedFor(s, input.entry, resumedAt, None), false)
    else
      match input.reply
      case Violated => Threw(NodeContractViolated)
      case Refused => Wrote(StoppedUpdate(s, Answerer, s.iteration, Cost, input.exit, resumedAt), true)
      case Raised =>
        Wrote(AccountedFor(s, input.exit, resumedAt, None).(errors := [FailedStep(Answerer, s.iteration)]), true)
      case Returned(AnswerValued(draft), usage) =>
        Wrote(AccountedFor(s, input.exit, resumedAt, Some(usage)).(answer := draft), true)
      case Returned(_, _) => Threw(NodeContractViolated)
  }

  function SynthesizerNode(s: State, input: Input, resumedAt: Time): NodeResult {
    if IsCancelled(s, input.cancelled) then Wrote(CancelledUpdate(s, input.entry, resumedAt), false)
    else
      match input.reply
      case Violated => Threw(NodeContractViolated)
      case Returned(ReportValued(draft), usage) =>
        var report := draft.(
          revision := s.repairs,
          coverageCaveat := if s.stop.Some? then s.stop.value.caveat else None);
        Wrote(AccountedFor(s, input.exit, resumedAt, Some(usage)).(report := Some(report), check := Some(None)), true)
      case Returned(_, _) => Threw(NodeContractViolated)
      case _ => Threw(SynthesisFailed)
  }

  function ValidatorNode(s: State, input: Input, resumedAt: Time): NodeResult {
    if IsCancelled(s, input.cancelled) then Wrote(CancelledUpdate(s, input.entry, resumedAt), false)
    else if s.report.None? then Threw(NodeContractViolated)
    else
      match input.reply
      case Violated => Threw(NodeContractViolated)
      case Returned(CheckValued(check), usage) =>
        if check.revision != s.report.value.revision then Threw(NodeContractViolated)
        else
          Wrote(AccountedFor(s, input.exit, resumedAt, Some(usage)).(
                  check := Some(Some(check)),
                  repairs := if !check.Passed() && s.repairs < MAX_CITATION_REPAIRS then Some(s.repairs + 1) else None),
                true)
      case Returned(_, _) => Threw(NodeContractViolated)
      case _ => Threw(CitationValidationFailed)
  }

  // --- routing -----------------------------------------------------------------------

  /** What runs next: one node, a round of researchers, or nothing. */
  datatype Next =
    | At(node: GraphNode)
    | Round(assignments: seq<SubtaskAssignment>)
    | End

  function Assignments(dispatches: seq<Dispatch>, timeLeft: Positive): seq<SubtaskAssignment> {
    seq(|dispatches|, i requires 0 <= i < |dispatches| =>
      SubtaskAssignment(dispatches[i].subtask, dispatches[i].queryAllowance, dispatches[i].sourceAllowance, timeLeft))
  }

  function AfterPlanner(cfg: Config, s: State): Next {
    if StopReasonOf(s) == Some(Cancelled) then End
    else if s.stop.Some? || s.plan.None? || s.plan.value.subtasks == [] then At(Answerer)
    else
      var dispatches := Allocate(cfg.budget, Consumed(s), s.plan.value.subtasks, cfg.width);
      var timeLeft := cfg.budget.maxRuntime - s.clock.elapsed;
      if dispatches == [] || timeLeft <= 0 then At(Answerer)
      else Round(Assignments(dispatches, timeLeft))
  }

  function AfterCritic(s: State): Next {
    if StopReasonOf(s) == Some(Cancelled) then End
    else if s.stop.Some? || s.critique.None? || s.critique.value.sufficient then At(Answerer)
    else At(Planner)
  }

  function AfterValidation(s: State): Next {
    if StopReasonOf(s) == Some(Cancelled) then End
    else if s.check.None? || s.check.value.Passed() then End
    else if s.repairs > s.check.value.revision then At(Synthesizer)
    else End
  }

  /** The edges out of a node, once its writes are in. */
  function Routed(cfg: Config, node: GraphNode, s: State): Next {
    match node
    case Planner => AfterPlanner(cfg, s)
    case Researcher => At(EvidenceExtractor)
    case EvidenceExtractor => At(ClaimNormalizer)
    case ClaimNormalizer => if cfg.mode == Quick then At(Answerer) else At(Verifier)
    case Verifier => At(ContradictionChecker)
    case ContradictionChecker => At(Critic)
    case Critic => AfterCritic(s)
    case Answerer => At(Synthesizer)
    case Synthesizer => At(CitationValidator)
    case CitationValidator => AfterValidation(s)
  }

  // --- one superstep -----------------------------------------------------------------

  /** A run as a checkpoint has it, and when this process picked it up. */
  datatype Machine = Machine(state: State, next: Next, resumedAt: Time)

  datatype Step =
    | Commit(machine: Machine, calls: seq<GraphNode>)
    | Raise(error: GraphError)

  function NodeStep(cfg: Config, node: GraphNode, s: State, input: Input, resumedAt: Time): NodeResult {
    match node
    case Planner => PlannerNode(cfg, s, input, resumedAt)
    case Critic => CriticNode(cfg, s, input, resumedAt)
    case Answerer => AnswererNode(s, input, resumedAt)
    case Synthesizer => SynthesizerNode(s, input, resumedAt)
    case CitationValidator => ValidatorNode(s, input, resumedAt)
    case _ => ProcessNode(s, node, Written(node, input.reply), input, resumedAt)
  }

  /** What researcher `i` of a round did. One nothing is said of raised. */
  function ResearcherResult(assignments: seq<SubtaskAssignment>, inputs: seq<ResearcherInput>, i: nat): NodeResult
    requires i < |assignments|
  {
    ResearcherNode(assignments[i], if i < |inputs| then inputs[i] else ResearcherInput(false, Raised))
  }

  predicate AllWrote(assignments: seq<SubtaskAssignment>, inputs: seq<ResearcherInput>) {
    forall i :: 0 <= i < |assignments| ==> ResearcherResult(assignments, inputs, i).Wrote?
  }

  /** Any order of the researchers; theirs, if what is given is not one. */
  function FoldOrder(order: seq<nat>, n: nat): (o: seq<nat>)
    ensures IsPermutation(o, n)
    ensures |o| == n && forall i :: 0 <= i < n ==> o[i] < n
    ensures IsPermutation(order, n) ==> o == order
  {
    if IsPermutation(order, n) then
      PermutationInRange(order, n);
      order
    else UpTo(n)
  }

  /** The round's writes, in the order they fold. */
  function RoundUpdates(assignments: seq<SubtaskAssignment>, input: Input): (us: seq<Update>)
    requires AllWrote(assignments, input.researchers)
    ensures |us| == |assignments|
  {
    var order := FoldOrder(input.order, |assignments|);
    seq(|assignments|, i requires 0 <= i < |assignments| =>
      ResearcherResult(assignments, input.researchers, order[i]).update)
  }

  function RoundCalls(assignments: seq<SubtaskAssignment>, inputs: seq<ResearcherInput>): seq<GraphNode>
    requires AllWrote(assignments, inputs)
  {
    if assignments == [] then []
    else
      var init := assignments[..|assignments| - 1];
      var last := ResearcherResult(assignments, inputs, |assignments| - 1);
      assert forall i :: 0 <= i < |init| ==> ResearcherResult(init, inputs, i) == ResearcherResult(assignments, inputs, i);
      RoundCalls(init, inputs) + if last.called then [Researcher] else []
  }

  /** One superstep: the writes commit together, or the step raises and nothing
      is written. */
  function Superstep(cfg: Config, m: Machine, input: Input): Step
    requires m.next != End
  {
    match m.next
    case At(node) =>
      (match NodeStep(cfg, node, m.state, input, m.resumedAt)
       case Threw(error) => Raise(error)
       case Wrote(update, called) =>
         var after := Applied(m.state, update);
         Commit(Machine(after, Routed(cfg, node, after), m.resumedAt), if called then [node] else []))
    case Round(assignments) =>
      if AllWrote(assignments, input.researchers) then
        var after := AppliedAll(m.state, RoundUpdates(assignments, input));
        Commit(Machine(after, Routed(cfg, Researcher, after), m.resumedAt), RoundCalls(assignments, input.researchers))
      else Raise(NodeContractViolated)
  }

  // --- runs --------------------------------------------------------------------------

  /** What happens to a run: a superstep, or another process picking it up. */
  datatype Event =
    | Stepped(input: Input)
    | Resumed(at: Time)

  function Started(now: Time): Machine {
    Machine(InitialState(now), At(Planner), now)
  }

  /** A finished run stays finished, and a raised step leaves the checkpoint as
      it was for whoever resumes. */
  function After(cfg: Config, m: Machine, e: Event): Machine {
    match e
    case Resumed(at) => m.(resumedAt := at)
    case Stepped(input) =>
      if m.next == End then m
      else
        match Superstep(cfg, m, input)
        case Commit(machine, _) => machine
        case Raise(_) => m
  }

  function Run(cfg: Config, m: Machine, events: seq<Event>): Machine
    decreases |events|
  {
    if events == [] then m else Run(cfg, After(cfg, m, events[0]), events[1..])
  }

  /** The agents a committed superstep called. */
  function CallsIn(cfg: Config, m: Machine, e: Event): seq<GraphNode> {
    match e
    case Resumed(_) => []
    case Stepped(input) =>
      if m.next == End then []
      else
        match Superstep(cfg, m, input)
        case Commit(_, calls) => calls
        case Raise(_) => []
  }

  /** Whether an event committed a superstep. */
  predicate Commits(cfg: Config, m: Machine, e: Event) {
    e.Stepped? && m.next != End && Superstep(cfg, m, e.input).Commit?
  }

  function CommittedSteps(cfg: Config, m: Machine, events: seq<Event>): nat
    decreases |events|
  {
    if events == [] then 0
    else (if Commits(cfg, m, events[0]) then 1 else 0) + CommittedSteps(cfg, After(cfg, m, events[0]), events[1..])
  }

  /** Running on from where a run got to is running the whole. */
  lemma {:induction false} RunConcat(cfg: Config, m: Machine, a: seq<Event>, b: seq<Event>)
    ensures Run(cfg, m, a + b) == Run(cfg, Run(cfg, m, a), b)
    decreases |a|
  {
    if a == [] {
      assert a + b == b;
    } else {
      assert (a + b)[0] == a[0] && (a + b)[1..] == a[1..] + b;
      RunConcat(cfg, After(cfg, m, a[0]), a[1..], b);
    }
  }
}
