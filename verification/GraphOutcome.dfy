/** What a run's stop means, and what a finished run has to show. */
module GraphOutcome {
  import opened Wrappers
  import opened Schemas
  import opened Reducers
  import opened Budget
  import opened Graph
  import opened GraphTermination

  // --- stops and answers, across one superstep -------------------------------------------

  predicate CancelledPlainly(stop: Stop) {
    stop.reason == Cancelled && stop.caveat.None?
  }

  /** A stop has a caveat, explaining its own reason, unless it is a
      cancellation. */
  predicate Explained(stop: Stop) {
    if stop.reason == Cancelled then stop.caveat.None?
    else stop.caveat.Some? && stop.caveat.value.explains == stop.reason
  }

  predicate StopExplained(s: State) {
    s.stop.Some? ==> Explained(s.stop.value)
  }

  /** A stop, once there, is never replaced but by a cancellation, and an answer
      is never replaced at all. */
  predicate Kept(s: State, s': State) {
    && (s.stop.Some? ==> s'.stop.Some? && (s'.stop == s.stop || CancelledPlainly(s'.stop.value)))
    && (s.answer.Some? ==> s'.answer == s.answer)
  }

  /** What a node may write of these. */
  predicate Tactful(s: State, u: Update) {
    && (u.stop.Some? && u.stop.value.reason == Cancelled ==> u.stop.value.caveat.None?)
    && (u.stop.Some? && s.stop.None? ==> Explained(u.stop.value))
    && (s.answer.Some? ==> u.answer.None?)
  }

  lemma TactfulKeeps(s: State, u: Update)
    requires StopExplained(s) && Tactful(s, u)
    ensures StopExplained(Applied(s, u)) && Kept(s, Applied(s, u))
  {
  }

  lemma PlannerTactful(cfg: Config, s: State, input: Input, resumedAt: Time)
    requires PlannerNode(cfg, s, input, resumedAt).Wrote?
    ensures Tactful(s, PlannerNode(cfg, s, input, resumedAt).update)
  {
  }

  lemma ProcessTactful(s: State, node: GraphNode, input: Input, resumedAt: Time)
    requires ProcessNode(s, node, Written(node, input.reply), input, resumedAt).Wrote?
    ensures Tactful(s, ProcessNode(s, node, Written(node, input.reply), input, resumedAt).update)
  {
  }

  lemma CriticTactful(cfg: Config, s: State, input: Input, resumedAt: Time)
    requires CriticNode(cfg, s, input, resumedAt).Wrote?
    ensures Tactful(s, CriticNode(cfg, s, input, resumedAt).update)
  {
  }

  lemma WritersTactful(s: State, input: Input, resumedAt: Time)
    ensures AnswererNode(s, input, resumedAt).Wrote? ==> Tactful(s, AnswererNode(s, input, resumedAt).update)
    ensures SynthesizerNode(s, input, resumedAt).Wrote? ==> Tactful(s, SynthesizerNode(s, input, resumedAt).update)
    ensures ValidatorNode(s, input, resumedAt).Wrote? ==> Tactful(s, ValidatorNode(s, input, resumedAt).update)
  {
  }

  lemma NodeTactful(cfg: Config, node: GraphNode, s: State, input: Input, resumedAt: Time)
    requires NodeStep(cfg, node, s, input, resumedAt).Wrote?
    ensures Tactful(s, NodeStep(cfg, node, s, input, resumedAt).update)
  {
    if node == Planner {
      PlannerTactful(cfg, s, input, resumedAt);
    } else if node == Critic {
      CriticTactful(cfg, s, input, resumedAt);
    } else if node in {Answerer, Synthesizer, CitationValidator} {
      WritersTactful(s, input, resumedAt);
    } else {
      ProcessTactful(s, node, input, resumedAt);
    }
  }

  /** Researchers only ever cancel. */
  predicate OnlyCancels(u: Update) {
    u.answer.None? && (u.stop.Some? ==> CancelledPlainly(u.stop.value))
  }

  lemma {:induction false} RoundKeeps(s: State, us: seq<Update>)
    requires StopExplained(s) && forall i :: 0 <= i < |us| ==> OnlyCancels(us[i])
    ensures StopExplained(AppliedAll(s, us)) && Kept(s, AppliedAll(s, us))
    decreases |us|
  {
    if us != [] {
      assert OnlyCancels(us[0]);
      TactfulKeeps(s, us[0]);
      RoundKeeps(Applied(s, us[0]), us[1..]);
    }
  }

  lemma ResearcherOnlyCancels(work: SubtaskAssignment, input: ResearcherInput)
    requires ResearcherNode(work, input).Wrote?
    ensures OnlyCancels(ResearcherNode(work, input).update)
  {
  }

  lemma RoundOnlyCancels(work: seq<SubtaskAssignment>, input: Input)
    requires AllWrote(work, input.researchers)
    ensures forall i :: 0 <= i < |work| ==> OnlyCancels(RoundUpdates(work, input)[i])
  {
    var order := FoldOrder(input.order, |work|);
    forall i | 0 <= i < |work| ensures OnlyCancels(RoundUpdates(work, input)[i]) {
      var k := order[i];
      assert ResearcherResult(work, input.researchers, k).Wrote?;
      ResearcherOnlyCancels(work[k], if k < |input.researchers| then input.researchers[k] else ResearcherInput(false, Raised));
    }
  }

  lemma StepKeeps(cfg: Config, m: Machine, e: Event)
    requires StopExplained(m.state)
    ensures StopExplained(After(cfg, m, e).state) && Kept(m.state, After(cfg, m, e).state)
  {
    if Commits(cfg, m, e) {
      if m.next.At? {
        NodeTactful(cfg, m.next.node, m.state, e.input, m.resumedAt);
        TactfulKeeps(m.state, NodeStep(cfg, m.next.node, m.state, e.input, m.resumedAt).update);
      } else {
        RoundOnlyCancels(m.next.assignments, e.input);
        RoundKeeps(m.state, RoundUpdates(m.next.assignments, e.input));
      }
    }
  }

  /** Over any events, crashes and resumes among them: the first stop stays,
      with its caveat, unless the run is cancelled; every stop but a
      cancellation has a caveat that explains it; and an answer that has been
      written is never written again. */
  lemma {:induction false} RunKeeps(cfg: Config, m: Machine, events: seq<Event>)
    requires StopExplained(m.state)
    ensures StopExplained(Run(cfg, m, events).state) && Kept(m.state, Run(cfg, m, events).state)
    decreases |events|
  {
    if events != [] {
      StepKeeps(cfg, m, events[0]);
      RunKeeps(cfg, After(cfg, m, events[0]), events[1..]);
    }
  }

  // --- a stopped run looks for nothing more ------------------------------------------------

  predicate StartsUnstopped(m: Machine) {
    m.next.Round? ==> m.state.stop.None?
  }

  lemma NodeRoutesUnstopped(cfg: Config, m: Machine, input: Input)
    requires m.next.At? && NodeStep(cfg, m.next.node, m.state, input, m.resumedAt).Wrote?
    ensures StartsUnstopped(Reached(cfg, m, m.next.node, NodeStep(cfg, m.next.node, m.state, input, m.resumedAt).update))
  {
  }

  lemma StepStartsUnstopped(cfg: Config, m: Machine, e: Event)
    requires StartsUnstopped(m)
    ensures StartsUnstopped(After(cfg, m, e))
  {
    if Commits(cfg, m, e) && m.next.At? {
      NodeRoutesUnstopped(cfg, m, e.input);
    }
  }

  /** The agents that look for more material, or judge whether to. */
  predicate Seeks(node: GraphNode) {
    node in {Planner, Researcher, Critic}
  }

  lemma StoppedNodeSeeksNothing(cfg: Config, node: GraphNode, s: State, input: Input, resumedAt: Time)
    requires s.stop.Some? && NodeStep(cfg, node, s, input, resumedAt).Wrote? && node != Researcher
    ensures NodeStep(cfg, node, s, input, resumedAt).called ==> !Seeks(node) && s.stop.value.reason != Cancelled
  {
  }

  lemma StoppedStepSeeksNothing(cfg: Config, m: Machine, e: Event)
    requires OnCourse(cfg, m) && StartsUnstopped(m) && m.state.stop.Some?
    ensures forall node :: node in CallsIn(cfg, m, e) ==> !Seeks(node) && m.state.stop.value.reason != Cancelled
  {
    if Commits(cfg, m, e) {
      StoppedNodeSeeksNothing(cfg, m.next.node, m.state, e.input, m.resumedAt);
    }
  }

  /** Every agent called over a run, by the supersteps that were committed. */
  function Calls(cfg: Config, m: Machine, events: seq<Event>): seq<GraphNode>
    decreases |events|
  {
    if events == [] then [] else CallsIn(cfg, m, events[0]) + Calls(cfg, After(cfg, m, events[0]), events[1..])
  }

  predicate Sound(cfg: Config, m: Machine) {
    OnCourse(cfg, m) && StepsLeft(cfg, m) >= 0 && StartsUnstopped(m) && StopExplained(m.state)
  }

  lemma StepSound(cfg: Config, m: Machine, e: Event)
    requires Sound(cfg, m)
    ensures Sound(cfg, After(cfg, m, e))
  {
    RunAdvances(cfg, m, [e]);
    StepStartsUnstopped(cfg, m, e);
    StepKeeps(cfg, m, e);
  }

  lemma {:induction false} RunSound(cfg: Config, m: Machine, events: seq<Event>)
    requires Sound(cfg, m)
    ensures Sound(cfg, Run(cfg, m, events))
    decreases |events|
  {
    if events != [] {
      StepSound(cfg, m, events[0]);
      RunSound(cfg, After(cfg, m, events[0]), events[1..]);
    }
  }

  /** Once a stop is in the state, no planner, researcher or critic is called
      again; once the run is cancelled, no agent is. */
  lemma {:induction false} StoppedRunSeeksNothing(cfg: Config, m: Machine, events: seq<Event>)
    requires Sound(cfg, m) && m.state.stop.Some?
    ensures forall node :: node in Calls(cfg, m, events) ==> !Seeks(node) && m.state.stop.value.reason != Cancelled
    decreases |events|
  {
    if events != [] {
      var m' := After(cfg, m, events[0]);
      StoppedStepSeeksNothing(cfg, m, events[0]);
      StepSound(cfg, m, events[0]);
      StepKeeps(cfg, m, events[0]);
      StoppedRunSeeksNothing(cfg, m', events[1..]);
    }
  }

  // --- a cancelled run ends ------------------------------------------------------------------

  /** The nodes a cancelled run still passes through, doing nothing in each. */
  function CancelledStepsLeft(cfg: Config, next: Next): nat {
    match next
    case End => 0
    case Round(_) => 0
    case At(Planner) => 1
    case At(Researcher) => 0
    case At(EvidenceExtractor) => 5
    case At(ClaimNormalizer) => 4
    case At(Verifier) => 3
    case At(ContradictionChecker) => 2
    case At(Critic) => 1
    case At(Answerer) => 3
    case At(Synthesizer) => 2
    case At(CitationValidator) => 1
  }

  lemma CancelledNodeOnlyCancels(cfg: Config, node: GraphNode, s: State, input: Input, resumedAt: Time)
    requires StopReasonOf(s) == Some(Cancelled)
    ensures NodeStep(cfg, node, s, input, resumedAt) == Wrote(CancelledUpdate(s, input.entry, resumedAt), false)
  {
  }

  lemma CancelledStepPasses(cfg: Config, m: Machine, input: Input)
    requires Sound(cfg, m) && StopReasonOf(m.state) == Some(Cancelled) && m.next != End
    ensures Commits(cfg, m, Stepped(input)) && CallsIn(cfg, m, Stepped(input)) == []
    ensures var m' := After(cfg, m, Stepped(input));
            StopReasonOf(m'.state) == Some(Cancelled)
            && CancelledStepsLeft(cfg, m'.next) == CancelledStepsLeft(cfg, m.next) - 1
  {
    CancelledNodeOnlyCancels(cfg, m.next.node, m.state, input, m.resumedAt);
    var s' := Applied(m.state, CancelledUpdate(m.state, input.entry, m.resumedAt));
    assert s'.stop == Some(Stop(Cancelled, None));
  }

  function StepEvents(events: seq<Event>): nat {
    if events == [] then 0 else (if events[0].Stepped? then 1 else 0) + StepEvents(events[1..])
  }

  /** A cancelled run passes through what is left of its route without calling
      anything, and is over within five supersteps. */
  lemma {:induction false} CancelledRunEnds(cfg: Config, m: Machine, events: seq<Event>)
    requires Sound(cfg, m) && StopReasonOf(m.state) == Some(Cancelled)
    ensures Calls(cfg, m, events) == []
    ensures StepEvents(events) >= CancelledStepsLeft(cfg, m.next) ==> Run(cfg, m, events).next == End
    ensures CancelledStepsLeft(cfg, m.next) <= 5
    decreases |events|
  {
    if events != [] {
      var m' := After(cfg, m, events[0]);
      if events[0].Stepped? && m.next != End {
        CancelledStepPasses(cfg, m, events[0].input);
      }
      StepSound(cfg, m, events[0]);
      CancelledRunEnds(cfg, m', events[1..]);
    }
  }

  // --- a finished run has a report ---------------------------------------------------------

  function CaveatOf(stop: Option<Stop>): Option<Caveat> {
    if stop.Some? then stop.value.caveat else None
  }

  /** There is a draft, of the current revision, carrying the stop's caveat. */
  predicate Drafted(s: State) {
    && s.report.Some?
    && s.report.value.revision == s.repairs
    && s.report.value.coverageCaveat == CaveatOf(s.stop)
  }

  /** There is a draft that has been checked, and it passed or no repair was
      left. */
  predicate Settled(s: State) {
    && s.report.Some? && s.check.Some?
    && s.report.value.coverageCaveat == CaveatOf(s.stop)
    && s.check.value.revision == s.report.value.revision
    && s.report.value.revision <= MAX_CITATION_REPAIRS
    && (s.check.value.Passed() || s.report.value.revision == MAX_CITATION_REPAIRS)
  }

  predicate Reported(m: Machine) {
    StopReasonOf(m.state) != Some(Cancelled) ==>
      && (m.next == At(CitationValidator) ==> Drafted(m.state))
      && (m.next == End ==> Settled(m.state))
  }

  lemma SynthesizerDrafts(s: State, input: Input, resumedAt: Time)
    requires SynthesizerNode(s, input, resumedAt).Wrote?
    ensures var s' := Applied(s, SynthesizerNode(s, input, resumedAt).update);
            StopReasonOf(s') != Some(Cancelled) ==> Drafted(s')
  {
  }

  lemma ValidatorSettles(cfg: Config, s: State, input: Input, resumedAt: Time)
    requires s.repairs <= MAX_CITATION_REPAIRS && ValidatorNode(s, input, resumedAt).Wrote?
    requires StopReasonOf(s) != Some(Cancelled) ==> Drafted(s)
    ensures var s' := Applied(s, ValidatorNode(s, input, resumedAt).update);
            StopReasonOf(s') != Some(Cancelled) && AfterValidation(s') == End ==> Settled(s')
  {
  }

  lemma OthersDoNotFinish(cfg: Config, node: GraphNode, s: State)
    requires node != Synthesizer && node != CitationValidator && StopReasonOf(s) != Some(Cancelled)
    ensures Routed(cfg, node, s) != End && Routed(cfg, node, s) != At(CitationValidator)
  {
  }

  lemma NodeReports(cfg: Config, m: Machine, input: Input)
    requires OnCourse(cfg, m) && Reported(m) && m.next.At?
    requires NodeStep(cfg, m.next.node, m.state, input, m.resumedAt).Wrote?
    ensures Reported(Reached(cfg, m, m.next.node, NodeStep(cfg, m.next.node, m.state, input, m.resumedAt).update))
  {
    var s' := Applied(m.state, NodeStep(cfg, m.next.node, m.state, input, m.resumedAt).update);
    if m.next.node == Synthesizer {
      SynthesizerDrafts(m.state, input, m.resumedAt);
    } else if m.next.node == CitationValidator {
      ValidatorSettles(cfg, m.state, input, m.resumedAt);
    } else if StopReasonOf(s') != Some(Cancelled) {
      OthersDoNotFinish(cfg, m.next.node, s');
    }
  }

  lemma StepReports(cfg: Config, m: Machine, e: Event)
    requires OnCourse(cfg, m) && Reported(m)
    ensures Reported(After(cfg, m, e))
  {
    if Commits(cfg, m, e) && m.next.At? {
      NodeReports(cfg, m, e.input);
    }
  }

  lemma {:induction false} RunReports(cfg: Config, m: Machine, events: seq<Event>)
    requires Sound(cfg, m) && Reported(m)
    ensures Reported(Run(cfg, m, events))
    decreases |events|
  {
    if events != [] {
      StepSound(cfg, m, events[0]);
      StepReports(cfg, m, events[0]);
      RunReports(cfg, After(cfg, m, events[0]), events[1..]);
    }
  }

  /** A run that reaches the end uncancelled has a report and a check of that
      revision of it, which passed or was of the one repair there is, and the
      report carries exactly the caveat of the stop in the final state. */
  lemma FinishedRunIsReported(cfg: Config, now: Time, events: seq<Event>)
    requires Run(cfg, Started(now), events).next == End
    requires StopReasonOf(Run(cfg, Started(now), events).state) != Some(Cancelled)
    ensures Settled(Run(cfg, Started(now), events).state)
  {
    assert Sound(cfg, Started(now)) && Reported(Started(now));
    RunReports(cfg, Started(now), events);
  }

  // --- at most two drafts --------------------------------------------------------------------

  function Drafts(calls: seq<GraphNode>): nat {
    if calls == [] then 0 else (if calls[0] == Synthesizer then 1 else 0) + Drafts(calls[1..])
  }

  lemma DraftsConcat(a: seq<GraphNode>, b: seq<GraphNode>)
    ensures Drafts(a + b) == Drafts(a) + Drafts(b)
  {
    if a == [] {
      assert a + b == b;
    } else {
      assert (a + b)[1..] == a[1..] + b;
      DraftsConcat(a[1..], b);
    }
  }

  function DraftsLeft(m: Machine): int {
    match m.next
    case End => 0
    case At(Synthesizer) => 1 + MAX_CITATION_REPAIRS - m.state.repairs
    case At(CitationValidator) => MAX_CITATION_REPAIRS - m.state.repairs
    case _ => 1 + MAX_CITATION_REPAIRS
  }

  lemma RoundDraftsNothing(work: seq<SubtaskAssignment>, inputs: seq<ResearcherInput>)
    requires AllWrote(work, inputs)
    ensures Drafts(RoundCalls(work, inputs)) == 0
    decreases |work|
  {
    if work != [] {
      var init := work[..|work| - 1];
      assert forall i :: 0 <= i < |init| ==> ResearcherResult(init, inputs, i) == ResearcherResult(work, inputs, i);
      RoundDraftsNothing(init, inputs);
      DraftsConcat(RoundCalls(init, inputs), if ResearcherResult(work, inputs, |work| - 1).called then [Researcher] else []);
    }
  }

  lemma StepDrafts(cfg: Config, m: Machine, e: Event)
    requires Sound(cfg, m)
    ensures Drafts(CallsIn(cfg, m, e)) + DraftsLeft(After(cfg, m, e)) <= DraftsLeft(m)
    ensures DraftsLeft(m) >= 0
  {
    StepSound(cfg, m, e);
    if Commits(cfg, m, e) {
      if m.next.At? {
        NodeDrafts(cfg, m, e.input);
      } else {
        RoundDraftsNothing(m.next.assignments, e.input.researchers);
      }
    }
  }

  lemma NodeDrafts(cfg: Config, m: Machine, input: Input)
    requires Sound(cfg, m) && m.next.At? && NodeStep(cfg, m.next.node, m.state, input, m.resumedAt).Wrote?
    ensures var r := NodeStep(cfg, m.next.node, m.state, input, m.resumedAt);
            (if r.called && m.next.node == Synthesizer then 1 else 0) + DraftsLeft(Reached(cfg, m, m.next.node, r.update)) <= DraftsLeft(m)
  {
    if m.next.node == CitationValidator {
      ValidatorAdvances(cfg, m, input);
    } else if m.next.node == Synthesizer {
      SynthesizerAdvances(cfg, m, input);
    } else {
      OtherNodesDraftNothing(cfg, m.next.node, Reached(cfg, m, m.next.node, NodeStep(cfg, m.next.node, m.state, input, m.resumedAt).update));
    }
  }

  lemma OtherNodesDraftNothing(cfg: Config, node: GraphNode, m': Machine)
    requires node != Synthesizer && node != CitationValidator && m'.next == Routed(cfg, node, m'.state)
    ensures DraftsLeft(m') <= 1 + MAX_CITATION_REPAIRS
  {
  }

  lemma {:induction false} RunDrafts(cfg: Config, m: Machine, events: seq<Event>)
    requires Sound(cfg, m)
    ensures Drafts(Calls(cfg, m, events)) <= DraftsLeft(m)
    decreases |events|
  {
    StepDrafts(cfg, m, Resumed(0));
    if events != [] {
      StepDrafts(cfg, m, events[0]);
      StepSound(cfg, m, events[0]);
      RunDrafts(cfg, After(cfg, m, events[0]), events[1..]);
      DraftsConcat(CallsIn(cfg, m, events[0]), Calls(cfg, After(cfg, m, events[0]), events[1..]));
    }
  }

  /** No run commits more than two drafts. */
  lemma AtMostTwoDrafts(cfg: Config, now: Time, events: seq<Event>)
    ensures Drafts(Calls(cfg, Started(now), events)) <= 1 + MAX_CITATION_REPAIRS
  {
    assert Sound(cfg, Started(now));
    RunDrafts(cfg, Started(now), events);
  }
}
