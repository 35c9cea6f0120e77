/** The nodes whose updates the source builds step by step, as it builds them,
    and a superstep made of them: each node keeps its own promise, and the
    superstep is the step relation's. */
module GraphNodes {
  import opened Wrappers
  import opened Schemas
  import opened Budget
  import opened Sums
  import opened Graph
  import opened GraphLedger
  import opened GraphRecords

  // --- what each node promises ------------------------------------------------------------------

  /** A plan is asked for only with no stop, something left of every ceiling,
      spend known and a round left; what comes back is a plan of the next round
      or a stop that explains why there is none; the run fails for it only in the
      first round. */
  predicate PlansInBounds(cfg: Config, s: State, input: Input, resumedAt: Time, result: NodeResult) {
    match result
    case Threw(error) => error == PlanningFailed ==> s.iteration == 0 && input.reply == Raised
    case Wrote(u, called) =>
      && (called ==> Uncancelled(s, input.cancelled) && s.stop.None?
                     && RoundAllowed(cfg.budget, s, s.clock.ElapsedAt(input.entry, resumedAt)))
      && (u.plan.Some? ==> called && u.iteration == Some(u.plan.value.iteration) && u.iteration == Some(s.iteration + 1)
                           && s.iteration < cfg.budget.maxIterations && u.found.subtasks == u.plan.value.subtasks)
      && (u.plan.None? ==> s.stop.Some? || (u.stop.Some? && (u.stop.value.caveat.Some? || u.stop.value.reason == Cancelled)))
      && (!called || u.plan.None? ==> u.usage.None?)
  }

  /** Of what a researcher reports, a front part within its allowance is kept;
      searches are counted in full, and beyond the allowance only as recorded. */
  predicate ReportsWithin(work: SubtaskAssignment, input: ResearcherInput, result: NodeResult) {
    match result
    case Threw(error) => error == NodeContractViolated
    case Wrote(u, called) =>
      && |u.found.sources| <= work.sourceAllowance
      && SearchesIn(u) <= work.queryAllowance + Overuse(u.errors)
      && (u.found.completed == [] <==> u.usage.None?)
      && (u.usage.Some? ==> called && input.reply.Returned? && u.usage == Some(input.reply.usage)
                            && input.reply.value.OutcomeValued? && KeepsFront(work, u, input.reply.value.outcome))
      && (called && u.usage.None? ==> |u.found.failed| == 1 && u.found.sources == [])
  }

  /** The outcome is kept under its own key, its sources cut to the allowance,
      and a cut is recorded with what was reported. */
  predicate KeepsFront(work: SubtaskAssignment, u: Update, outcome: TaskOutcome) {
    && u.found.sources <= outcome.sources && u.found.completed == [outcome.(sources := u.found.sources)]
    && outcome.taskKey == work.subtask.key
    && (|u.found.sources| == |outcome.sources| || |u.found.sources| == work.sourceAllowance)
    && (u.found.sources != outcome.sources <==>
          NodeError(Researcher, work.subtask.iteration, SourcesExceeded(|outcome.sources|, work.sourceAllowance), Some(work.subtask.key)) in u.errors)
  }

  /** A critique that wants more either leaves a round possible or comes with the
      stop that bars it; one that wants no more stops nothing. */
  predicate CriticisesInBounds(cfg: Config, s: State, input: Input, resumedAt: Time, result: NodeResult) {
    match result
    case Threw(error) => error == NodeContractViolated
    case Wrote(u, called) =>
      && (called ==> !IsCancelled(s, input.cancelled) && s.stop.None?)
      && (u.critique.Some? && u.critique.value.sufficient ==> u.stop.None?)
      && (u.critique.Some? && !u.critique.value.sufficient && u.stop.None? ==>
            s.iteration < cfg.budget.maxIterations
            && UnderEveryCeiling(cfg.budget, MeasuredAt(s, input.exit, resumedAt, u.usage), true))
      && (called && u.critique.None? ==> u.stop.Some?)
  }

  /** A failed check grants a repair exactly if none has been granted, and
      nothing else does; so there is never more than the one. */
  predicate GrantsOneRepair(s: State, result: NodeResult) {
    result.Wrote? ==>
      var u := result.update;
      && (u.check.Some? ==> u.check.value.Some?)
      && (u.repairs.Some? <==> u.check.Some? && !u.check.value.value.Passed() && s.repairs < MAX_CITATION_REPAIRS)
      && (s.repairs <= MAX_CITATION_REPAIRS ==> Applied(s, u).repairs <= MAX_CITATION_REPAIRS)
      && (u.check.Some? && s.report.Some? ==> u.check.value.value.revision == s.report.value.revision)
  }

  lemma PlannerKeepsPromise(cfg: Config, s: State, input: Input, resumedAt: Time)
    ensures var r := PlannerNode(cfg, s, input, resumedAt);
            && PlansInBounds(cfg, s, input, resumedAt, r)
            && (r.Wrote? ==> WritesStop(cfg, Planner, s, input, resumedAt, r.update.stop, r.called))
  {
    if PlannerNode(cfg, s, input, resumedAt).Wrote? {
      PlannerRecords(cfg, s, input, resumedAt);
      PlannerSaysWhy(cfg, s, input, resumedAt);
    }
  }

  lemma CriticKeepsPromise(cfg: Config, s: State, input: Input, resumedAt: Time)
    ensures var r := CriticNode(cfg, s, input, resumedAt);
            && CriticisesInBounds(cfg, s, input, resumedAt, r)
            && (r.Wrote? ==> WritesStop(cfg, Critic, s, input, resumedAt, r.update.stop, r.called))
  {
    if CriticNode(cfg, s, input, resumedAt).Wrote? {
      CriticRecords(cfg, s, input, resumedAt);
      CriticSaysWhy(cfg, s, input, resumedAt);
      LimitIsFirstReached(cfg.budget, Used(s, input.exit, resumedAt, UsageOf(input.reply)), true);
    }
  }

  method RunPlanner(cfg: Config, s: State, input: Input, resumedAt: Time) returns (result: NodeResult)
    ensures PlansInBounds(cfg, s, input, resumedAt, result)
    ensures result.Wrote? ==> WritesStop(cfg, Planner, s, input, resumedAt, result.update.stop, result.called)
    ensures result == PlannerNode(cfg, s, input, resumedAt)
  {
    PlannerKeepsPromise(cfg, s, input, resumedAt);
    var now := input.entry;
    if IsCancelled(s, input.cancelled) {
      return Wrote(CancelledUpdate(s, now, resumedAt), false);
    }
    if s.stop.Some? {
      return Wrote(AccountedFor(s, now, resumedAt, None), false);
    }
    var used := Used(s, now, resumedAt, None);
    var reason := LimitReached(cfg.budget, used, true);
    if reason.None? && !MayPlanAgain(cfg.budget, used) {
      reason := Some(Iterations);
    }
    if reason.Some? {
      return Wrote(AccountedFor(s, now, resumedAt, None).(stop := StopFor(s, reason.value, used, s.critique)), false);
    }
    var iteration := s.iteration + 1;
    match input.reply {
      case Violated => return Threw(NodeContractViolated);
      case Refused =>
        now := input.exit;
        return Wrote(StoppedUpdate(s, Planner, iteration, Cost, now, resumedAt), true);
      case Raised =>
        if iteration == 1 {
          return Threw(PlanningFailed);
        }
        now := input.exit;
        return Wrote(StoppedUpdate(s, Planner, iteration, DiscoveryFailed, now, resumedAt), true);
      case Returned(value, usage) =>
        if !value.PlanValued? || value.plan.iteration != iteration {
          return Threw(NodeContractViolated);
        }
        now := input.exit;
        var update := AccountedFor(s, now, resumedAt, Some(usage)).(
          iteration := Some(iteration),
          plan := Some(value.plan),
          found := NO_MATERIAL.(subtasks := value.plan.subtasks));
        used := Used(s, now, resumedAt, Some(usage));
        reason := LimitReached(cfg.budget, used, false);
        if reason.Some? {
          update := update.(stop := StopFor(s, reason.value, used, None));
        }
        return Wrote(update, true);
    }
  }

  method RunResearcher(work: SubtaskAssignment, input: ResearcherInput) returns (result: NodeResult)
    ensures ReportsWithin(work, input, result)
    ensures result == ResearcherNode(work, input)
  {
    if input.cancelled {
      return Wrote(NOTHING.(stop := Some(Stop(Cancelled, None))), false);
    }
    match input.reply {
      case Violated => return Threw(NodeContractViolated);
      case Returned(value, usage) =>
        if !value.OutcomeValued? {
          return Threw(NodeContractViolated);
        }
        var outcome := value.outcome;
        if outcome.taskKey != work.subtask.key || outcome.iteration != work.subtask.iteration {
          return Threw(NodeContractViolated);
        }
        var errors: seq<NodeError> := [];
        if |outcome.sources| > work.sourceAllowance {
          errors := errors + [NodeError(Researcher, work.subtask.iteration,
                                        SourcesExceeded(|outcome.sources|, work.sourceAllowance), Some(work.subtask.key))];
          outcome := outcome.(sources := outcome.sources[..work.sourceAllowance]);
        }
        if usage.searchQueries > work.queryAllowance {
          errors := errors + [NodeError(Researcher, work.subtask.iteration,
                                        QueriesExceeded(usage.searchQueries, work.queryAllowance), Some(work.subtask.key))];
        }
        var update := NOTHING.(found := NO_MATERIAL.(completed := [outcome], sources := outcome.sources), usage := Some(usage));
        if errors != [] {
          update := update.(errors := errors);
        }
        return Wrote(update, true);
      case _ =>
        var failure := NodeError(Researcher, work.subtask.iteration, StepFailed, Some(work.subtask.key));
        return Wrote(NOTHING.(found := NO_MATERIAL.(failed := [failure])), true);
    }
  }

  method RunCritic(cfg: Config, s: State, input: Input, resumedAt: Time) returns (result: NodeResult)
    ensures CriticisesInBounds(cfg, s, input, resumedAt, result)
    ensures result.Wrote? ==> WritesStop(cfg, Critic, s, input, resumedAt, result.update.stop, result.called)
    ensures result == CriticNode(cfg, s, input, resumedAt)
  {
    CriticKeepsPromise(cfg, s, input, resumedAt);
    var now := input.entry;
    if IsCancelled(s, input.cancelled) {
      return Wrote(CancelledUpdate(s, now, resumedAt), false);
    }
    if s.stop.Some? {
      return Wrote(AccountedFor(s, now, resumedAt, None), false);
    }
    now := input.exit;
    match input.reply {
      case Violated => return Threw(NodeContractViolated);
      case Refused => return Wrote(StoppedUpdate(s, Critic, s.iteration, Cost, now, resumedAt), true);
      case Raised => return Wrote(StoppedUpdate(s, Critic, s.iteration, DiscoveryFailed, now, resumedAt), true);
      case Returned(value, usage) =>
        if !value.CritiqueValued? || value.critique.iteration != s.iteration {
          return Threw(NodeContractViolated);
        }
        var update := AccountedFor(s, now, resumedAt, Some(usage)).(critique := Some(value.critique));
        if !value.critique.sufficient {
          var used := Used(s, now, resumedAt, Some(usage));
          var reason := LimitReached(cfg.budget, used, true);
          if reason.None? && !MayPlanAgain(cfg.budget, used) {
            reason := Some(Iterations);
          }
          if reason.Some? {
            update := update.(stop := StopFor(s, reason.value, used, Some(value.critique)));
          }
        }
        return Wrote(update, true);
    }
  }

  method RunValidator(s: State, input: Input, resumedAt: Time) returns (result: NodeResult)
    ensures GrantsOneRepair(s, result)
    ensures result == ValidatorNode(s, input, resumedAt)
  {
    if IsCancelled(s, input.cancelled) {
      return Wrote(CancelledUpdate(s, input.entry, resumedAt), false);
    }
    if s.report.None? {
      return Threw(NodeContractViolated);
    }
    match input.reply {
      case Violated => return Threw(NodeContractViolated);
      case Returned(value, usage) =>
        if !value.CheckValued? || value.check.revision != s.report.value.revision {
          return Threw(NodeContractViolated);
        }
        var update := AccountedFor(s, input.exit, resumedAt, Some(usage)).(check := Some(Some(value.check)));
        if !value.check.Passed() && s.repairs < MAX_CITATION_REPAIRS {
          update := update.(repairs := Some(s.repairs + 1));
        }
        return Wrote(update, true);
      case _ => return Threw(CitationValidationFailed);
    }
  }

  // --- a superstep --------------------------------------------------------------------------------

  method RunNode(cfg: Config, node: GraphNode, s: State, input: Input, resumedAt: Time) returns (result: NodeResult)
    ensures result == NodeStep(cfg, node, s, input, resumedAt)
  {
    match node {
      case Planner => result := RunPlanner(cfg, s, input, resumedAt);
      case Critic => result := RunCritic(cfg, s, input, resumedAt);
      case CitationValidator => result := RunValidator(s, input, resumedAt);
      case _ => result := NodeStep(cfg, node, s, input, resumedAt);
    }
  }

  /** What the researchers up to `n` did. */
  ghost predicate Researched(work: seq<SubtaskAssignment>, inputs: seq<ResearcherInput>, n: nat,
                             results: seq<NodeResult>, calls: seq<GraphNode>) {
    && n <= |work| && |results| == n && AllWrote(work[..n], inputs)
    && (forall i :: 0 <= i < n ==> results[i] == ResearcherResult(work, inputs, i) && results[i].Wrote?)
    && calls == RoundCalls(work[..n], inputs)
  }

  lemma ResearchedOneMore(work: seq<SubtaskAssignment>, inputs: seq<ResearcherInput>, n: nat, results: seq<NodeResult>,
                          calls: seq<GraphNode>, result: NodeResult)
    requires n < |work| && Researched(work, inputs, n, results, calls)
    requires result == ResearcherResult(work, inputs, n) && result.Wrote?
    ensures Researched(work, inputs, n + 1, results + [result], calls + if result.called then [Researcher] else [])
  {
    var more := work[..n + 1];
    assert more[..n] == work[..n];
    forall i | 0 <= i < n + 1 ensures ResearcherResult(more, inputs, i).Wrote? {
      assert ResearcherResult(more, inputs, i) == ResearcherResult(work, inputs, i);
      assert i < n ==> results[i].Wrote?;
    }
    assert RoundCalls(more, inputs) == RoundCalls(work[..n], inputs) + if result.called then [Researcher] else [];
  }

  lemma NotAllWrote(work: seq<SubtaskAssignment>, inputs: seq<ResearcherInput>, n: nat)
    requires n < |work| && ResearcherResult(work, inputs, n).Threw?
    ensures !AllWrote(work, inputs)
  {
  }

  lemma UpdatesInOrder(m: Machine, input: Input, results: seq<NodeResult>, calls: seq<GraphNode>)
    requires m.next.Round? && Researched(m.next.assignments, input.researchers, |m.next.assignments|, results, calls)
    ensures var work := m.next.assignments;
            && AllWrote(work, input.researchers) && calls == RoundCalls(work, input.researchers)
            && var order := FoldOrder(input.order, |work|);
               RoundUpdates(work, input) == seq(|work|, i requires 0 <= i < |work| => results[order[i]].update)
  {
    var work := m.next.assignments;
    assert work[..|work|] == work;
  }

  /** Every researcher of a round, then their writes in the order they fold. */
  method RunRound(cfg: Config, m: Machine, input: Input) returns (step: Step)
    requires m.next.Round?
    ensures step == Superstep(cfg, m, input)
  {
    var work := m.next.assignments;
    var results: seq<NodeResult>, calls: seq<GraphNode> := [], [];
    for n := 0 to |work|
      invariant Researched(work, input.researchers, n, results, calls)
    {
      var result := RunResearcher(work[n], if n < |input.researchers| then input.researchers[n] else ResearcherInput(false, Raised));
      if result.Threw? {
        NotAllWrote(work, input.researchers, n);
        return Raise(result.error);
      }
      ResearchedOneMore(work, input.researchers, n, results, calls, result);
      results := results + [result];
      if result.called {
        calls := calls + [Researcher];
      }
    }
    UpdatesInOrder(m, input, results, calls);
    var order := FoldOrder(input.order, |work|);
    var after := AppliedAll(m.state, seq(|work|, i requires 0 <= i < |work| => results[order[i]].update));
    step := Commit(Machine(after, Routed(cfg, Researcher, after), m.resumedAt), calls);
  }

  /** One superstep, node by node. */
  method TakeSuperstep(cfg: Config, m: Machine, input: Input) returns (step: Step)
    requires m.next != End
    ensures step == Superstep(cfg, m, input)
  {
    if m.next.Round? {
      step := RunRound(cfg, m, input);
    } else {
      var result := RunNode(cfg, m.next.node, m.state, input, m.resumedAt);
      if result.Threw? {
        return Raise(result.error);
      }
      var after := Applied(m.state, result.update);
      step := Commit(Machine(after, Routed(cfg, m.next.node, after), m.resumedAt), if result.called then [m.next.node] else []);
    }
  }
}
