/** A round of research is planned only with something left of every ceiling,
    spend known and a round to go, in every state a run can reach. */
module GraphRounds {
  import opened Wrappers
  import opened Schemas
  import opened Reducers
  import opened Budget
  import opened Graph
  import opened GraphTermination
  import opened GraphRecords

  /** Wherever a planner is next, a round is allowed: spend is known and below
      its ceiling, time, sources and searches are left, and so is a round. */
  predicate ReadyToPlan(cfg: Config, m: Machine) {
    m.next == At(Planner) && m.state.stop.None? ==> RoundAllowed(cfg.budget, m.state, m.state.clock.elapsed)
  }

  lemma SourcesKept(s: State, u: Update)
    requires u.found.sources == []
    ensures |Applied(s, u).found.sources| <= |s.found.sources|
  {
    SetDefaultsGrow([], s.found.sources + []);
  }

  /** A critic that sends the run round again was called, wants more, and left
      something of every ceiling. */
  lemma CriticLeavesRound(cfg: Config, s: State, input: Input, resumedAt: Time)
    requires CriticNode(cfg, s, input, resumedAt).Wrote?
    requires AfterCritic(Applied(s, CriticNode(cfg, s, input, resumedAt).update)) == At(Planner)
    ensures var r := CriticNode(cfg, s, input, resumedAt);
            && r.called && r.update.critique.Some? && !r.update.critique.value.sufficient
            && RoundAllowed(cfg.budget, Applied(s, r.update), Applied(s, r.update).clock.elapsed)
  {
    LimitIsFirstReached(cfg.budget, Used(s, input.exit, resumedAt, UsageOf(input.reply)), true);
    SourcesKept(s, CriticNode(cfg, s, input, resumedAt).update);
  }

  lemma OnlyCriticSendsBack(cfg: Config, node: GraphNode, s: State)
    requires Routed(cfg, node, s) == At(Planner)
    ensures node == Critic && AfterCritic(s) == At(Planner)
  {
  }

  lemma StepStaysReady(cfg: Config, m: Machine, e: Event)
    requires ReadyToPlan(cfg, m)
    ensures ReadyToPlan(cfg, After(cfg, m, e))
  {
    if Commits(cfg, m, e) && m.next.At? && After(cfg, m, e).next == At(Planner) {
      OnlyCriticSendsBack(cfg, m.next.node, After(cfg, m, e).state);
      CriticLeavesRound(cfg, m.state, e.input, m.resumedAt);
    }
  }

  lemma {:induction false} RunStaysReady(cfg: Config, m: Machine, events: seq<Event>)
    requires ReadyToPlan(cfg, m)
    ensures ReadyToPlan(cfg, Run(cfg, m, events))
    decreases |events|
  {
    if events != [] {
      StepStaysReady(cfg, m, events[0]);
      RunStaysReady(cfg, After(cfg, m, events[0]), events[1..]);
    }
  }

  /** In every reachable state that another round would start from, a round is
      allowed; and whenever a planner is called, one still is by the clock it
      was called at. */
  lemma RoundsAreAllowed(cfg: Config, now: Time, events: seq<Event>, e: Event)
    ensures var m := Run(cfg, Started(now), events);
            && ReadyToPlan(cfg, m)
            && (Planner in CallsIn(cfg, m, e) ==>
                  RoundAllowed(cfg.budget, m.state, m.state.clock.ElapsedAt(e.input.entry, m.resumedAt)))
  {
    RunStaysReady(cfg, Started(now), events);
    var m := Run(cfg, Started(now), events);
    if Planner in CallsIn(cfg, m, e) {
      PlannerCalledAt(cfg, m, e);
      NodeRecords(cfg, Planner, m.state, e.input, m.resumedAt);
    }
  }

  lemma PlannerCalledAt(cfg: Config, m: Machine, e: Event)
    requires Planner in CallsIn(cfg, m, e)
    ensures Commits(cfg, m, e) && m.next == At(Planner) && NodeStep(cfg, Planner, m.state, e.input, m.resumedAt).called
  {
    if m.next.Round? {
      OnlyResearchersCalled(m.next.assignments, e.input.researchers);
    }
  }

  lemma {:induction false} OnlyResearchersCalled(work: seq<SubtaskAssignment>, inputs: seq<ResearcherInput>)
    requires AllWrote(work, inputs)
    ensures forall node :: node in RoundCalls(work, inputs) ==> node == Researcher
    decreases |work|
  {
    if work != [] {
      var init := work[..|work| - 1];
      assert forall i :: 0 <= i < |init| ==> ResearcherResult(init, inputs, i) == ResearcherResult(work, inputs, i);
      OnlyResearchersCalled(init, inputs);
    }
  }

  // --- what a round is sent out with ------------------------------------------------------------

  /** Each subtask sent out goes with its share of the searches and sources
      left, and with all the time there is. */
  predicate SentOut(cfg: Config, s: State, dispatches: seq<Dispatch>, work: seq<SubtaskAssignment>) {
    && |work| == |dispatches|
    && forall i :: 0 <= i < |work| ==>
         && work[i].subtask == dispatches[i].subtask
         && work[i].queryAllowance == dispatches[i].queryAllowance && work[i].sourceAllowance == dispatches[i].sourceAllowance
         && work[i].timeAllowance == cfg.budget.maxRuntime - s.clock.elapsed
  }

  /** After the planner a round starts exactly if nothing has stopped the run
      and there is a plan with subtasks, time, and a search and a source to give
      out; otherwise the run goes on to the answer, or, cancelled, ends. */
  lemma RoundIsSentOut(cfg: Config, s: State)
    ensures var next := AfterPlanner(cfg, s);
            && (next.Round? <==> s.stop.None? && s.plan.Some? && s.plan.value.subtasks != []
                                 && s.clock.elapsed < cfg.budget.maxRuntime
                                 && s.searches < cfg.budget.maxSearchQueries && |s.found.sources| < cfg.budget.maxSources)
            && (next == End <==> s.stop.Some? && s.stop.value.reason == Cancelled)
            && (!next.Round? && next != End ==> next == At(Answerer))
            && (next.Round? ==> SentOut(cfg, s, Allocate(cfg.budget, Consumed(s), s.plan.value.subtasks, cfg.width), next.assignments))
  {
    if s.plan.Some? {
      AllocationByPriority(cfg.budget, Consumed(s), s.plan.value.subtasks, cfg.width);
    }
  }

  /** Whoever a round goes out to may use what time is left, and no more. */
  predicate TimedWithin(cfg: Config, m: Machine) {
    m.next.Round? ==> forall i :: 0 <= i < |m.next.assignments| ==>
      m.next.assignments[i].timeAllowance == cfg.budget.maxRuntime - m.state.clock.elapsed
  }

  lemma StepStaysTimed(cfg: Config, m: Machine, e: Event)
    requires TimedWithin(cfg, m)
    ensures TimedWithin(cfg, After(cfg, m, e))
  {
    if Commits(cfg, m, e) && m.next.At? && m.next.node == Planner {
      RoundIsSentOut(cfg, After(cfg, m, e).state);
    }
  }

  /** In every reachable state, a round about to start is given exactly the
      active time the run has left. */
  lemma {:induction false} RunStaysTimed(cfg: Config, m: Machine, events: seq<Event>)
    requires TimedWithin(cfg, m)
    ensures TimedWithin(cfg, Run(cfg, m, events))
    decreases |events|
  {
    if events != [] {
      StepStaysTimed(cfg, m, events[0]);
      RunStaysTimed(cfg, After(cfg, m, events[0]), events[1..]);
    }
  }
}
