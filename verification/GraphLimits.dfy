/** The ceilings of a run over everything its agents may do: sources never pass
    theirs, searches pass theirs only by over-use that is on record, and spend
    stays within a fixed number of calls of its own. */
module GraphLimits {
  import opened Wrappers
  import opened Schemas
  import opened Reducers
  import opened Budget
  import opened Sums
  import opened Graph
  import opened GraphLedger
  import opened GraphTermination

  // --- rounds are dispatched within what is left -----------------------------------------

  lemma {:induction false} SharesOfDispatches(dispatches: seq<Dispatch>, timeLeft: Positive)
    ensures Sum(QueryShares(Assignments(dispatches, timeLeft))) == QueryAllowances(dispatches)
    ensures Sum(SourceShares(Assignments(dispatches, timeLeft))) == SourceAllowances(dispatches)
  {
    var work := Assignments(dispatches, timeLeft);
    if dispatches != [] {
      SharesOfDispatches(dispatches[1..], timeLeft);
      assert QueryShares(work)[1..] == QueryShares(Assignments(dispatches[1..], timeLeft));
      assert SourceShares(work)[1..] == SourceShares(Assignments(dispatches[1..], timeLeft));
    }
  }

  /** A round that has been routed to may spend no more than the state it was
      routed from has left. */
  predicate WithinRound(cfg: Config, s: State, next: Next) {
    next.Round? ==>
      && |next.assignments| <= cfg.width
      && s.cost.usd < cfg.budget.maxCost
      && s.searches + Sum(QueryShares(next.assignments)) <= cfg.budget.maxSearchQueries
      && |s.found.sources| + Sum(SourceShares(next.assignments)) <= cfg.budget.maxSources
  }

  /** The planner leaves the run under its cost ceiling, or stopped. */
  lemma PlannerChecksCost(cfg: Config, s: State, input: Input, resumedAt: Time)
    requires PlannerNode(cfg, s, input, resumedAt).Wrote?
    ensures var u := PlannerNode(cfg, s, input, resumedAt).update;
            Applied(s, u).stop.Some? || Applied(s, u).cost.usd < cfg.budget.maxCost
  {
  }

  lemma RoutedWithinRound(cfg: Config, s: State)
    requires s.stop.Some? || s.cost.usd < cfg.budget.maxCost
    ensures WithinRound(cfg, s, AfterPlanner(cfg, s))
  {
    if AfterPlanner(cfg, s).Round? {
      var dispatches := Allocate(cfg.budget, Consumed(s), s.plan.value.subtasks, cfg.width);
      AllocationWithinBudget(cfg.budget, Consumed(s), s.plan.value.subtasks, cfg.width);
      SharesOfDispatches(dispatches, cfg.budget.maxRuntime - s.clock.elapsed);
    }
  }

  lemma NodeStaysWithinRound(cfg: Config, m: Machine, input: Input)
    requires m.next.At? && NodeStep(cfg, m.next.node, m.state, input, m.resumedAt).Wrote?
    ensures var m' := Reached(cfg, m, m.next.node, NodeStep(cfg, m.next.node, m.state, input, m.resumedAt).update);
            WithinRound(cfg, m'.state, m'.next)
  {
    if m.next.node == Planner {
      PlannerChecksCost(cfg, m.state, input, m.resumedAt);
      RoutedWithinRound(cfg, Applied(m.state, PlannerNode(cfg, m.state, input, m.resumedAt).update));
    }
  }

  // --- sources and searches --------------------------------------------------------------

  /** The sources a run holds are distinct and within its ceiling; its searches
      are within theirs, but for recorded over-use and what was searched
      outside research rounds. */
  predicate WithinCeilings(cfg: Config, s: State, outside: nat) {
    && UniqueIds(SourceIdOf, s.found.sources)
    && |s.found.sources| <= cfg.budget.maxSources
    && s.searches <= cfg.budget.maxSearchQueries + Overuse(s.errors) + outside
  }

  /** Searches a superstep reported without having been given an allowance. */
  function SearchesOutside(cfg: Config, m: Machine, input: Input): nat {
    if m.next.Round? then 0 else Sum(SearchCountsOf(Reports(cfg, m, input)))
  }

  function SearchedOutside(cfg: Config, m: Machine, events: seq<Event>): nat
    decreases |events|
  {
    if events == [] then 0
    else
      (if Commits(cfg, m, events[0]) then SearchesOutside(cfg, m, events[0].input) else 0)
      + SearchedOutside(cfg, After(cfg, m, events[0]), events[1..])
  }

  lemma NodeKeepsCeilings(cfg: Config, node: GraphNode, s: State, input: Input, resumedAt: Time, outside: nat)
    requires WithinCeilings(cfg, s, outside) && NodeStep(cfg, node, s, input, resumedAt).Wrote?
    ensures var r := NodeStep(cfg, node, s, input, resumedAt);
            WithinCeilings(cfg, Applied(s, r.update), outside + Sum(SearchCountsOf([Answered(r, input.reply)])))
  {
    var r := NodeStep(cfg, node, s, input, resumedAt);
    NodeCharged(cfg, node, s, input, resumedAt);
    PlainKeepsCeilings(cfg, s, r.update, outside);
    UsageBalances(s, r.update, Answered(r, input.reply));
  }

  lemma PlainKeepsCeilings(cfg: Config, s: State, u: Update, outside: nat)
    requires WithinCeilings(cfg, s, outside) && Plain(u)
    ensures WithinCeilings(cfg, Applied(s, u), outside + SearchesIn(u))
  {
    AppliedTotals(s, u);
    PlainRecordsNoOveruse(u.errors);
  }

  lemma RoundKeepsCeilings(cfg: Config, s: State, work: seq<SubtaskAssignment>, input: Input, outside: nat)
    requires WithinCeilings(cfg, s, outside) && WithinRound(cfg, s, Round(work))
    requires AllWrote(work, input.researchers)
    ensures WithinCeilings(cfg, AppliedAll(s, RoundUpdates(work, input)), outside)
  {
    RoundWithinAllowances(work, input);
    AppliedAllTotals(s, RoundUpdates(work, input));
  }

  lemma StepKeepsCeilings(cfg: Config, m: Machine, e: Event, outside: nat)
    requires WithinCeilings(cfg, m.state, outside) && WithinRound(cfg, m.state, m.next)
    ensures var more := if Commits(cfg, m, e) then SearchesOutside(cfg, m, e.input) else 0;
            WithinCeilings(cfg, After(cfg, m, e).state, outside + more)
    ensures WithinRound(cfg, After(cfg, m, e).state, After(cfg, m, e).next)
  {
    if Commits(cfg, m, e) {
      if m.next.At? {
        NodeKeepsCeilings(cfg, m.next.node, m.state, e.input, m.resumedAt, outside);
        NodeStaysWithinRound(cfg, m, e.input);
      } else {
        RoundKeepsCeilings(cfg, m.state, m.next.assignments, e.input, outside);
      }
    }
  }

  lemma {:induction false} CeilingsHold(cfg: Config, m: Machine, events: seq<Event>, outside: nat)
    requires WithinCeilings(cfg, m.state, outside) && WithinRound(cfg, m.state, m.next)
    ensures WithinCeilings(cfg, Run(cfg, m, events).state, outside + SearchedOutside(cfg, m, events))
    ensures WithinRound(cfg, Run(cfg, m, events).state, Run(cfg, m, events).next)
    decreases |events|
  {
    if events != [] {
      StepKeepsCeilings(cfg, m, events[0], outside);
      var more := if Commits(cfg, m, events[0]) then SearchesOutside(cfg, m, events[0].input) else 0;
      CeilingsHold(cfg, After(cfg, m, events[0]), events[1..], outside + more);
    }
  }

  /** In every reachable state, whatever parallel researchers report and in
      whatever order their writes fold: the sources held are distinct and no
      more than allowed, searches pass their ceiling only by the over-use the
      run's errors record, and a round about to start fits in what is left. */
  lemma RunWithinCeilings(cfg: Config, now: Time, events: seq<Event>)
    ensures var m := Run(cfg, Started(now), events);
            && UniqueIds(SourceIdOf, m.state.found.sources)
            && |m.state.found.sources| <= cfg.budget.maxSources
            && m.state.searches <= cfg.budget.maxSearchQueries + Overuse(m.state.errors)
                                   + SearchedOutside(cfg, Started(now), events)
            && WithinRound(cfg, m.state, m.next)
  {
    CeilingsHold(cfg, Started(now), events, 0);
  }

  /** No agent called outside a round of researchers reports a search. */
  predicate OnlyResearchersSearch(events: seq<Event>) {
    forall i :: 0 <= i < |events| ==> SearchesNothing(events[i])
  }

  predicate SearchesNothing(e: Event) {
    e.Stepped? && e.input.reply.Returned? ==> e.input.reply.usage.searchQueries == 0
  }

  lemma NoSearches(report: Option<NodeUsage>)
    requires SearchesOf(report) == 0
    ensures Sum(SearchCountsOf([report])) == 0
  {
    var counts := SearchCountsOf([report]);
    assert counts[0] == 0 && counts[1..] == [];
  }

  lemma StepSearchesNothing(cfg: Config, m: Machine, e: Event)
    requires Commits(cfg, m, e) && SearchesNothing(e)
    ensures SearchesOutside(cfg, m, e.input) == 0
  {
    if m.next.At? {
      var report := Answered(NodeStep(cfg, m.next.node, m.state, e.input, m.resumedAt), e.input.reply);
      NoSearches(report);
      assert Reports(cfg, m, e.input) == [report];
    }
  }

  lemma {:induction false} NothingSearchedOutside(cfg: Config, m: Machine, events: seq<Event>)
    requires OnlyResearchersSearch(events)
    ensures SearchedOutside(cfg, m, events) == 0
    decreases |events|
  {
    if events != [] {
      assert SearchesNothing(events[0]);
      assert forall i :: 0 <= i < |events[1..]| ==> events[1..][i] == events[i + 1];
      NothingSearchedOutside(cfg, After(cfg, m, events[0]), events[1..]);
      if Commits(cfg, m, events[0]) {
        StepSearchesNothing(cfg, m, events[0]);
      }
    }
  }

  /** Where only researchers search, searches pass their ceiling by what is on
      record as over-use and by nothing else; and where none is, they do not. */
  lemma SearchesWithinCeiling(cfg: Config, now: Time, events: seq<Event>)
    requires OnlyResearchersSearch(events)
    ensures var s := Run(cfg, Started(now), events).state;
            && s.searches <= cfg.budget.maxSearchQueries + Overuse(s.errors)
            && (Overuse(s.errors) == 0 ==> s.searches <= cfg.budget.maxSearchQueries)
  {
    RunWithinCeilings(cfg, now, events);
    NothingSearchedOutside(cfg, Started(now), events);
  }

  // --- spend -----------------------------------------------------------------------------

  /** No call a superstep is told of costs more than `c`. */
  predicate Affordable(e: Event, c: nat) {
    e.Stepped? ==>
      && (e.input.reply.Returned? ==> e.input.reply.usage.cost.usd <= c)
      && forall i :: 0 <= i < |e.input.researchers| ==>
           e.input.researchers[i].reply.Returned? ==> e.input.researchers[i].reply.usage.cost.usd <= c
  }

  /** Calls that may have been made since spend was last checked. */
  function CallsSinceCheck(width: Positive, next: Next, repairs: nat): nat {
    match next
    case Round(_) => 0
    case At(EvidenceExtractor) => width
    case At(ClaimNormalizer) => width + 1
    case At(Verifier) => width + 2
    case At(ContradictionChecker) => width + 3
    case At(Critic) => width + 4
    case At(Planner) => width + 5
    case At(Answerer) => width + 5
    case At(Synthesizer) => width + 6 + 2 * repairs
    case At(CitationValidator) => width + 7 + 2 * repairs
    case At(Researcher) => width
    case End => width + 10
  }

  predicate SpendHeld(cfg: Config, m: Machine, c: nat) {
    m.state.cost.usd < cfg.budget.maxCost + CallsSinceCheck(cfg.width, m.next, m.state.repairs) * c
  }

  lemma MoreCalls(a: nat, b: nat, c: nat)
    requires a <= b
    ensures a * c <= b * c
  {
    assert b * c == a * c + (b - a) * c;
    assert (b - a) * c >= 0;
  }

  /** One call on from a checked state, a run is within one more call. */
  lemma OneMoreCall(cfg: Config, m: Machine, node: GraphNode, u: Update, c: nat)
    requires m.next == At(node) && SpendHeld(cfg, m, c) && CostIn(u) <= c
    requires var m' := Reached(cfg, m, node, u);
             CallsSinceCheck(cfg.width, m.next, m.state.repairs) + 1 <= CallsSinceCheck(cfg.width, m'.next, m'.state.repairs)
    ensures SpendHeld(cfg, Reached(cfg, m, node, u), c)
  {
    var m' := Reached(cfg, m, node, u);
    var k := CallsSinceCheck(cfg.width, m.next, m.state.repairs);
    MoreCalls(k + 1, CallsSinceCheck(cfg.width, m'.next, m'.state.repairs), c);
    assert (k + 1) * c == k * c + c;
  }

  /** A planner that is called starts under the ceiling; one that is not spends
      nothing. */
  lemma PlannerSpend(cfg: Config, s: State, input: Input, resumedAt: Time)
    requires PlannerNode(cfg, s, input, resumedAt).Wrote?
    ensures var r := PlannerNode(cfg, s, input, resumedAt);
            (r.called && s.cost.usd < cfg.budget.maxCost) || CostIn(r.update) <= 0
  {
  }

  lemma PlannerHoldsSpend(cfg: Config, m: Machine, input: Input, c: nat)
    requires m.next == At(Planner) && SpendHeld(cfg, m, c)
    requires input.reply.Returned? ==> input.reply.usage.cost.usd <= c
    requires PlannerNode(cfg, m.state, input, m.resumedAt).Wrote?
    ensures SpendHeld(cfg, Reached(cfg, m, Planner, PlannerNode(cfg, m.state, input, m.resumedAt).update), c)
  {
    var u := PlannerNode(cfg, m.state, input, m.resumedAt).update;
    PlannerSpend(cfg, m.state, input, m.resumedAt);
    PlannerChecksCost(cfg, m.state, input, m.resumedAt);
    PlannerCharged(cfg, m.state, input, m.resumedAt);
    AfterPlannerSpend(cfg, m, u, c);
  }

  lemma AfterPlannerSpend(cfg: Config, m: Machine, u: Update, c: nat)
    requires m.next == At(Planner) && SpendHeld(cfg, m, c) && CostIn(u) <= c
    requires m.state.cost.usd < cfg.budget.maxCost || CostIn(u) <= 0
    requires Applied(m.state, u).stop.Some? || Applied(m.state, u).cost.usd < cfg.budget.maxCost
    ensures SpendHeld(cfg, Reached(cfg, m, Planner, u), c)
  {
    var m' := Reached(cfg, m, Planner, u);
    var k := CallsSinceCheck(cfg.width, m'.next, m'.state.repairs);
    assert m'.state.cost.usd == m.state.cost.usd + CostIn(u);
    if m'.next.Round? {
    } else {
      assert k >= cfg.width + 5;
      MoreCalls(1, k, c);
      MoreCalls(cfg.width + 5, k, c);
    }
  }

  /** Where a node that leaves the repair count alone routes to is one call
      further on than where it started. */
  lemma RoutedOneCallOn(cfg: Config, m: Machine, node: GraphNode, u: Update)
    requires m.next == At(node) && node != Planner && node != Researcher && node != CitationValidator && u.repairs.None?
    requires m.state.repairs <= MAX_CITATION_REPAIRS
    ensures var m' := Reached(cfg, m, node, u);
            CallsSinceCheck(cfg.width, m.next, m.state.repairs) + 1 <= CallsSinceCheck(cfg.width, m'.next, m'.state.repairs)
  {
    assert Applied(m.state, u).repairs == m.state.repairs;
  }

  lemma CountsLeftAlone(cfg: Config, node: GraphNode, s: State, input: Input, resumedAt: Time)
    requires node != CitationValidator && NodeStep(cfg, node, s, input, resumedAt).Wrote?
    ensures NodeStep(cfg, node, s, input, resumedAt).update.repairs.None?
  {
    if node == Planner {
      PlannerStartsOrStops(cfg, s, input, resumedAt);
    } else if node == Critic {
      CriticStopsOrContinues(cfg, s, input, resumedAt);
    } else if node == Answerer || node == Synthesizer {
      WritersKeepRepairs(s, input, resumedAt);
    } else {
      ProcessingKeepsCounters(s, node, input, resumedAt);
    }
  }

  /** Every node but the planner is at most one call further on than where it
      started. */
  lemma NextCallCounted(cfg: Config, m: Machine, input: Input)
    requires OnCourse(cfg, m) && m.next.At? && m.next.node != Planner
    requires NodeStep(cfg, m.next.node, m.state, input, m.resumedAt).Wrote?
    ensures var m' := Reached(cfg, m, m.next.node, NodeStep(cfg, m.next.node, m.state, input, m.resumedAt).update);
            CallsSinceCheck(cfg.width, m.next, m.state.repairs) + 1 <= CallsSinceCheck(cfg.width, m'.next, m'.state.repairs)
  {
    if m.next.node == CitationValidator {
      ValidatorCounted(cfg, m, input);
    } else {
      CountsLeftAlone(cfg, m.next.node, m.state, input, m.resumedAt);
      RoutedOneCallOn(cfg, m, m.next.node, NodeStep(cfg, m.next.node, m.state, input, m.resumedAt).update);
    }
  }

  lemma WritersKeepRepairs(s: State, input: Input, resumedAt: Time)
    ensures AnswererNode(s, input, resumedAt).Wrote? ==> AnswererNode(s, input, resumedAt).update.repairs.None?
    ensures SynthesizerNode(s, input, resumedAt).Wrote? ==> SynthesizerNode(s, input, resumedAt).update.repairs.None?
  {
  }

  lemma ValidatorCounted(cfg: Config, m: Machine, input: Input)
    requires OnCourse(cfg, m) && m.next == At(CitationValidator)
    requires ValidatorNode(m.state, input, m.resumedAt).Wrote?
    ensures var m' := Reached(cfg, m, CitationValidator, ValidatorNode(m.state, input, m.resumedAt).update);
            CallsSinceCheck(cfg.width, m.next, m.state.repairs) + 1 <= CallsSinceCheck(cfg.width, m'.next, m'.state.repairs)
  {
    ValidatorAdvances(cfg, m, input);
    var u := ValidatorNode(m.state, input, m.resumedAt).update;
    assert u.repairs.GetOr(m.state.repairs) <= 1;
  }

  lemma NodeHoldsSpend(cfg: Config, m: Machine, input: Input, c: nat)
    requires OnCourse(cfg, m) && m.next.At? && SpendHeld(cfg, m, c)
    requires input.reply.Returned? ==> input.reply.usage.cost.usd <= c
    requires NodeStep(cfg, m.next.node, m.state, input, m.resumedAt).Wrote?
    ensures SpendHeld(cfg, Reached(cfg, m, m.next.node, NodeStep(cfg, m.next.node, m.state, input, m.resumedAt).update), c)
  {
    if m.next.node == Planner {
      PlannerHoldsSpend(cfg, m, input, c);
    } else {
      NodeCharged(cfg, m.next.node, m.state, input, m.resumedAt);
      NextCallCounted(cfg, m, input);
      OneMoreCall(cfg, m, m.next.node, NodeStep(cfg, m.next.node, m.state, input, m.resumedAt).update, c);
    }
  }

  lemma RoundHoldsSpend(cfg: Config, s: State, work: seq<SubtaskAssignment>, input: Input, c: nat)
    requires UniqueIds(SourceIdOf, s.found.sources)
    requires WithinRound(cfg, s, Round(work)) && AllWrote(work, input.researchers) && Affordable(Stepped(input), c)
    ensures AppliedAll(s, RoundUpdates(work, input)).cost.usd < cfg.budget.maxCost + cfg.width * c
  {
    RoundBalances(s, work, input);
    var costs := CostsOf(RoundReports(work, input.researchers));
    SumBounded(costs, c);
    MoreCalls(|work|, cfg.width, c);
  }

  /** What the spend of a run rests on. */
  predicate SpendInvariant(cfg: Config, m: Machine, c: nat) {
    && OnCourse(cfg, m) && StepsLeft(cfg, m) >= 0
    && UniqueIds(SourceIdOf, m.state.found.sources)
    && WithinRound(cfg, m.state, m.next)
    && SpendHeld(cfg, m, c)
  }

  lemma StepHoldsSpend(cfg: Config, m: Machine, e: Event, c: nat)
    requires SpendInvariant(cfg, m, c) && Affordable(e, c)
    ensures SpendHeld(cfg, After(cfg, m, e), c)
  {
    if Commits(cfg, m, e) {
      if m.next.At? {
        NodeHoldsSpend(cfg, m, e.input, c);
      } else {
        RoundHoldsSpend(cfg, m.state, m.next.assignments, e.input, c);
      }
    }
  }

  lemma StepKeepsSpendInvariant(cfg: Config, m: Machine, e: Event, c: nat)
    requires SpendInvariant(cfg, m, c) && Affordable(e, c)
    ensures SpendInvariant(cfg, After(cfg, m, e), c)
  {
    RunAdvances(cfg, m, [e]);
    StepBalances(cfg, m, e);
    StepKeepsRound(cfg, m, e);
    StepHoldsSpend(cfg, m, e, c);
  }

  lemma StepKeepsRound(cfg: Config, m: Machine, e: Event)
    requires WithinRound(cfg, m.state, m.next)
    ensures WithinRound(cfg, After(cfg, m, e).state, After(cfg, m, e).next)
  {
    if Commits(cfg, m, e) && m.next.At? {
      NodeStaysWithinRound(cfg, m, e.input);
    }
  }

  lemma {:induction false} SpendHolds(cfg: Config, m: Machine, events: seq<Event>, c: nat)
    requires SpendInvariant(cfg, m, c) && forall e :: e in events ==> Affordable(e, c)
    ensures SpendInvariant(cfg, Run(cfg, m, events), c)
    decreases |events|
  {
    if events != [] {
      assert events[0] in events;
      StepKeepsSpendInvariant(cfg, m, events[0], c);
      SpendHolds(cfg, After(cfg, m, events[0]), events[1..], c);
    }
  }

  lemma HeldIsBounded(cfg: Config, m: Machine, c: nat)
    requires SpendHeld(cfg, m, c) && m.state.repairs <= MAX_CITATION_REPAIRS
    ensures m.state.cost.usd < cfg.budget.maxCost + (cfg.width + 10) * c
  {
    MoreCalls(CallsSinceCheck(cfg.width, m.next, m.state.repairs), cfg.width + 10, c);
  }

  /** If no call costs more than `c`, a run records less than its cost ceiling
      plus one round of researchers and ten more calls: planning and
      dispatching a round are the only points that must start under it. */
  lemma RunWithinSpend(cfg: Config, now: Time, events: seq<Event>, c: nat)
    requires forall e :: e in events ==> Affordable(e, c)
    ensures Run(cfg, Started(now), events).state.cost.usd < cfg.budget.maxCost + (cfg.width + 10) * c
  {
    SpendHolds(cfg, Started(now), events, c);
    HeldIsBounded(cfg, Run(cfg, Started(now), events), c);
  }
}
