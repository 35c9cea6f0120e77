/** Every run ends, within the supersteps the graph allows it, whatever the
    agents do and however often it is resumed. */
module GraphTermination {
  import opened Wrappers
  import opened Schemas
  import opened Reducers
  import opened Budget
  import opened Graph

  /** Rounds that may still start. A quick run has the one round. */
  function RoundsLeft(cfg: Config, s: State): int {
    if cfg.mode == Quick then (if s.iteration == 0 then 1 else 0) else cfg.budget.maxIterations - s.iteration
  }

  /** The answerer, and two drafts each with its validation. */
  const WRITING_STEPS := 5

  /** An upper bound on the supersteps left in a run. */
  function StepsLeft(cfg: Config, m: Machine): int {
    var later := RoundSteps(cfg.mode) * RoundsLeft(cfg, m.state) + WRITING_STEPS;
    match m.next
    case End => 0
    case Round(_) => later + RoundSteps(cfg.mode) - 1
    case At(Planner) => later
    case At(Researcher) => later
    case At(EvidenceExtractor) => later + RoundSteps(cfg.mode) - 2
    case At(ClaimNormalizer) => later + RoundSteps(cfg.mode) - 3
    case At(Verifier) => later + RoundSteps(cfg.mode) - 4
    case At(ContradictionChecker) => later + RoundSteps(cfg.mode) - 5
    case At(Critic) => later + RoundSteps(cfg.mode) - 6
    case At(Answerer) => WRITING_STEPS
    case At(Synthesizer) => WRITING_STEPS - 1 - 2 * m.state.repairs
    case At(CitationValidator) => WRITING_STEPS - 2 - 2 * m.state.repairs
  }

  /** Discovery: everything before the answer is written. */
  predicate Discovering(next: Next) {
    next.Round? || (next.At? && next.node !in {Answerer, Synthesizer, CitationValidator})
  }

  /** What holds wherever a run is. */
  predicate OnCourse(cfg: Config, m: Machine) {
    var s := m.state;
    && s.iteration <= cfg.budget.maxIterations
    && s.repairs <= MAX_CITATION_REPAIRS
    && (Discovering(m.next) || m.next == At(Answerer) ==> s.repairs == 0)
    && m.next != At(Researcher)
    && (m.next == At(Planner) ==> RoundsLeft(cfg, s) >= 1 && (cfg.mode == Quick ==> s.iteration == 0))
    && (Discovering(m.next) && m.next != At(Planner) ==> s.iteration >= 1)
    && (m.next in {At(Verifier), At(ContradictionChecker), At(Critic)} ==> cfg.mode != Quick)
    && (m.next == At(CitationValidator) && StopReasonOf(s) != Some(Cancelled) ==>
          s.report.Some? && s.report.value.revision == s.repairs)
  }

  /** Parallel researchers leave the loop counters alone. */
  lemma {:induction false} RoundKeepsCounters(s: State, us: seq<Update>)
    requires forall i :: 0 <= i < |us| ==>
      us[i].iteration.None? && us[i].repairs.None? && us[i].plan.None? && us[i].report.None? && us[i].check.None?
      && us[i].answer.None? && us[i].critique.None? && us[i].clock.None?
    ensures var t := AppliedAll(s, us);
            t.iteration == s.iteration && t.repairs == s.repairs && t.plan == s.plan && t.report == s.report && t.check == s.check
            && t.answer == s.answer && t.critique == s.critique && t.clock == s.clock
    decreases |us|
  {
    if us != [] {
      RoundKeepsCounters(Applied(s, us[0]), us[1..]);
    }
  }

  lemma RoundWritesNoCounters(assignments: seq<SubtaskAssignment>, input: Input)
    requires AllWrote(assignments, input.researchers)
    ensures forall i :: 0 <= i < |assignments| ==>
      var u := RoundUpdates(assignments, input)[i];
      u.iteration.None? && u.repairs.None? && u.plan.None? && u.report.None? && u.check.None?
      && u.answer.None? && u.critique.None? && u.clock.None?
  {
  }

  /** `m'` is on course, and one step nearer the end than `m`. */
  predicate Advanced(cfg: Config, m: Machine, m': Machine) {
    OnCourse(cfg, m') && 0 <= StepsLeft(cfg, m') < StepsLeft(cfg, m)
  }

  /** What one node's writes come to. */
  function Reached(cfg: Config, m: Machine, node: GraphNode, u: Update): Machine {
    Machine(Applied(m.state, u), Routed(cfg, node, Applied(m.state, u)), m.resumedAt)
  }

  /** The planner either starts a round or leaves a stop behind. */
  lemma PlannerStartsOrStops(cfg: Config, s: State, input: Input, resumedAt: Time)
    requires PlannerNode(cfg, s, input, resumedAt).Wrote?
    ensures var u := PlannerNode(cfg, s, input, resumedAt).update;
            && u.repairs.None?
            && (u.iteration == Some(s.iteration + 1) ||
                (u.iteration.None? && (s.stop.Some? || u.stop.Some?)))
            && (u.iteration.Some? ==> MayPlanAgain(cfg.budget, Consumed(s)))
  {
  }

  lemma PlannerRouted(cfg: Config, m: Machine, u: Update)
    requires OnCourse(cfg, m) && m.next == At(Planner) && u.repairs.None?
    requires u.iteration == Some(m.state.iteration + 1) || (u.iteration.None? && (m.state.stop.Some? || u.stop.Some?))
    requires u.iteration.Some? ==> m.state.iteration < cfg.budget.maxIterations
    ensures Advanced(cfg, m, Reached(cfg, m, Planner, u))
  {
    var s' := Applied(m.state, u);
    assert s'.repairs == m.state.repairs;
    assert s'.iteration == u.iteration.GetOr(m.state.iteration);
    assert u.iteration.None? ==> s'.stop.Some?;
  }

  lemma RoundAdvances(cfg: Config, m: Machine, s': State)
    requires OnCourse(cfg, m) && m.next.Round?
    requires s'.iteration == m.state.iteration && s'.repairs == m.state.repairs
    ensures Advanced(cfg, m, Machine(s', At(EvidenceExtractor), m.resumedAt))
  {
  }

  /** A processing step touches no counter. */
  lemma ProcessingKeepsCounters(s: State, node: GraphNode, input: Input, resumedAt: Time)
    requires ProcessNode(s, node, Written(node, input.reply), input, resumedAt).Wrote?
    ensures var u := ProcessNode(s, node, Written(node, input.reply), input, resumedAt).update;
            u.iteration.None? && u.repairs.None?
  {
  }

  lemma ProcessingAdvances(cfg: Config, m: Machine, u: Update)
    requires OnCourse(cfg, m) && m.next.At? && m.next.node in {EvidenceExtractor, ClaimNormalizer, Verifier, ContradictionChecker}
    requires u.iteration.None? && u.repairs.None?
    ensures Advanced(cfg, m, Reached(cfg, m, m.next.node, u))
  {
    var s' := Applied(m.state, u);
    assert s'.repairs == m.state.repairs && s'.iteration == m.state.iteration;
  }

  /** An unsatisfied critic leaves a stop behind unless a round is left. */
  lemma CriticStopsOrContinues(cfg: Config, s: State, input: Input, resumedAt: Time)
    requires CriticNode(cfg, s, input, resumedAt).Wrote?
    ensures var u := CriticNode(cfg, s, input, resumedAt).update;
            && u.iteration.None? && u.repairs.None?
            && (s.stop.Some? || u.stop.Some? || (u.critique.Some? &&
                 (u.critique.value.sufficient || s.iteration < cfg.budget.maxIterations)))
  {
  }

  lemma CriticRouted(cfg: Config, m: Machine, u: Update)
    requires OnCourse(cfg, m) && m.next == At(Critic)
    requires u.iteration.None? && u.repairs.None?
    requires m.state.stop.Some? || u.stop.Some? || (u.critique.Some? &&
               (u.critique.value.sufficient || m.state.iteration < cfg.budget.maxIterations))
    ensures Advanced(cfg, m, Reached(cfg, m, Critic, u))
  {
    var s' := Applied(m.state, u);
    assert s'.repairs == m.state.repairs && s'.iteration == m.state.iteration;
    assert s'.stop.Some? || (s'.critique == u.critique && u.critique.Some?);
  }

  lemma AnswererAdvances(cfg: Config, m: Machine, input: Input)
    requires OnCourse(cfg, m) && m.next == At(Answerer) && AnswererNode(m.state, input, m.resumedAt).Wrote?
    ensures Advanced(cfg, m, Reached(cfg, m, Answerer, AnswererNode(m.state, input, m.resumedAt).update))
  {
    var s' := Applied(m.state, AnswererNode(m.state, input, m.resumedAt).update);
    assert s'.repairs == m.state.repairs && s'.iteration == m.state.iteration;
  }

  lemma SynthesizerAdvances(cfg: Config, m: Machine, input: Input)
    requires OnCourse(cfg, m) && m.next == At(Synthesizer) && SynthesizerNode(m.state, input, m.resumedAt).Wrote?
    ensures Advanced(cfg, m, Reached(cfg, m, Synthesizer, SynthesizerNode(m.state, input, m.resumedAt).update))
  {
    var u := SynthesizerNode(m.state, input, m.resumedAt).update;
    var s' := Applied(m.state, u);
    assert s'.repairs == m.state.repairs && s'.iteration == m.state.iteration;
    assert StopReasonOf(s') != Some(Cancelled) ==> u.report.Some? && u.report.value.revision == m.state.repairs;
  }

  lemma ValidatorAdvances(cfg: Config, m: Machine, input: Input)
    requires OnCourse(cfg, m) && m.next == At(CitationValidator) && ValidatorNode(m.state, input, m.resumedAt).Wrote?
    ensures Advanced(cfg, m, Reached(cfg, m, CitationValidator, ValidatorNode(m.state, input, m.resumedAt).update))
  {
    var u := ValidatorNode(m.state, input, m.resumedAt).update;
    var s' := Applied(m.state, u);
    assert s'.iteration == m.state.iteration && s'.repairs == u.repairs.GetOr(m.state.repairs);
  }

  lemma RoundStepAdvances(cfg: Config, m: Machine, input: Input)
    requires OnCourse(cfg, m) && m.next.Round? && AllWrote(m.next.assignments, input.researchers)
    ensures Advanced(cfg, m, Machine(AppliedAll(m.state, RoundUpdates(m.next.assignments, input)), At(EvidenceExtractor), m.resumedAt))
  {
    RoundWritesNoCounters(m.next.assignments, input);
    RoundKeepsCounters(m.state, RoundUpdates(m.next.assignments, input));
    RoundAdvances(cfg, m, AppliedAll(m.state, RoundUpdates(m.next.assignments, input)));
  }

  lemma NodeAdvances(cfg: Config, m: Machine, input: Input)
    requires OnCourse(cfg, m) && m.next.At? && NodeStep(cfg, m.next.node, m.state, input, m.resumedAt).Wrote?
    ensures Advanced(cfg, m, Reached(cfg, m, m.next.node, NodeStep(cfg, m.next.node, m.state, input, m.resumedAt).update))
  {
    var u := NodeStep(cfg, m.next.node, m.state, input, m.resumedAt).update;
    if m.next.node == Planner {
      PlannerStartsOrStops(cfg, m.state, input, m.resumedAt);
      PlannerRouted(cfg, m, u);
    } else if m.next.node == Critic {
      CriticStopsOrContinues(cfg, m.state, input, m.resumedAt);
      CriticRouted(cfg, m, u);
    } else if m.next.node == CitationValidator {
      ValidatorAdvances(cfg, m, input);
    } else if m.next.node == Answerer {
      AnswererAdvances(cfg, m, input);
    } else if m.next.node == Synthesizer {
      SynthesizerAdvances(cfg, m, input);
    } else {
      ProcessingKeepsCounters(m.state, m.next.node, input, m.resumedAt);
      ProcessingAdvances(cfg, m, u);
    }
  }

  /** A committed superstep stays on course and is one step nearer the end. */
  lemma StepAdvances(cfg: Config, m: Machine, input: Input)
    requires OnCourse(cfg, m) && m.next != End && Superstep(cfg, m, input).Commit?
    ensures Advanced(cfg, m, Superstep(cfg, m, input).machine)
  {
    if m.next.Round? {
      RoundStepAdvances(cfg, m, input);
    } else {
      NodeAdvances(cfg, m, input);
    }
  }

  /** A run's supersteps, counted: what has been committed and what may still be
      never come to more than what there was to begin with. */
  lemma {:induction false} RunAdvances(cfg: Config, m: Machine, events: seq<Event>)
    requires OnCourse(cfg, m) && StepsLeft(cfg, m) >= 0
    ensures OnCourse(cfg, Run(cfg, m, events)) && StepsLeft(cfg, Run(cfg, m, events)) >= 0
    ensures CommittedSteps(cfg, m, events) + StepsLeft(cfg, Run(cfg, m, events)) <= StepsLeft(cfg, m)
    decreases |events|
  {
    if events != [] {
      var m' := After(cfg, m, events[0]);
      if Commits(cfg, m, events[0]) {
        StepAdvances(cfg, m, events[0].input);
      } else {
        assert m' == m || (events[0].Resumed? && m' == m.(resumedAt := events[0].at));
        assert StepsLeft(cfg, m') == StepsLeft(cfg, m);
      }
      RunAdvances(cfg, m', events[1..]);
    }
  }

  /** The most supersteps a run can take. */
  function MostSteps(cfg: Config): nat {
    RoundSteps(cfg.mode) * (if cfg.mode == Quick then 1 else cfg.budget.maxIterations) + WRITING_STEPS
  }

  /** No sequence of agent results, failures, refusals, cancellations, crashes
      and resumes takes a run past `MostSteps` committed supersteps, and a run
      that has taken that many has ended. The recursion limit is never reached,
      although its tail does not count the answerer: of a run in rounds it leaves
      three supersteps over. */
  lemma RunEnds(cfg: Config, now: Time, events: seq<Event>)
    ensures CommittedSteps(cfg, Started(now), events) <= MostSteps(cfg)
    ensures CommittedSteps(cfg, Started(now), events) == MostSteps(cfg) ==> Run(cfg, Started(now), events).next == End
    ensures MostSteps(cfg) < RecursionLimit(cfg.mode, cfg.budget.maxIterations)
    ensures cfg.mode != Quick ==> RecursionLimit(cfg.mode, cfg.budget.maxIterations) == MostSteps(cfg) + 3
  {
    assert OnCourse(cfg, Started(now));
    assert StepsLeft(cfg, Started(now)) == MostSteps(cfg);
    RunAdvances(cfg, Started(now), events);
    var m := Run(cfg, Started(now), events);
    assert StepsLeft(cfg, m) == 0 ==> m.next == End;
    if cfg.mode == Quick {
      assert QUICK_ROUND_STEPS * 1 <= QUICK_ROUND_STEPS * cfg.budget.maxIterations;
    }
  }
}
