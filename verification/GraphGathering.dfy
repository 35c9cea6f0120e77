/** Over whole runs: what a run has gathered and what went wrong in it are
    exactly what its agents gave, in order, and its answer is the first one
    that was drafted. */
module GraphGathering {
  import opened Wrappers
  import opened Schemas
  import opened Reducers
  import opened Budget
  import opened Sums
  import opened Graph
  import opened GraphTermination
  import opened GraphRecords

  // --- what one superstep gives -----------------------------------------------------------

  /** What agents gave, and what is to be said of those that failed or went
      beyond what they were allowed. */
  datatype Given = Given(found: Material, errors: seq<NodeError>)

  const NOTHING_GIVEN := Given(NO_MATERIAL, [])

  function Joined(a: Material, b: Material): Material {
    Material(a.subtasks + b.subtasks, a.sources + b.sources, a.completed + b.completed, a.failed + b.failed,
             a.evidence + b.evidence, a.claims + b.claims, a.contradictions + b.contradictions)
  }

  function And(a: Given, b: Given): Given {
    Given(Joined(a.found, b.found), a.errors + b.errors)
  }

  /** A node other than the researchers. */
  function GivenBy(node: GraphNode, s: State, called: bool, reply: Reply): Given {
    var round := if node == Planner then s.iteration + 1 else s.iteration;
    Given(
      Material(SubtasksFrom(node, called, reply), [], [], [], EvidenceFrom(node, called, reply),
               ClaimsFrom(node, called, reply), ContradictionsFrom(node, called, reply)),
      if called && (reply.Raised? || reply.Refused?) then [NodeError(node, round, StepFailed, None)] else [])
  }

  /** One researcher: the front of its sources that it was allowed, with a note
      of whatever it did beyond that; or that it failed. */
  function GivenByOne(work: SubtaskAssignment, input: ResearcherInput): Given {
    var task := work.subtask;
    if input.cancelled then NOTHING_GIVEN
    else if input.reply.Raised? || input.reply.Refused? then
      Given(NO_MATERIAL.(failed := [NodeError(Researcher, task.iteration, StepFailed, Some(task.key))]), [])
    else if input.reply.Returned? && input.reply.value.OutcomeValued? then
      var outcome, searches := input.reply.value.outcome, input.reply.usage.searchQueries;
      var many := |outcome.sources| > work.sourceAllowance;
      var kept := if many then outcome.sources[..work.sourceAllowance] else outcome.sources;
      Given(
        NO_MATERIAL.(sources := kept, completed := [outcome.(sources := kept)]),
        (if many
         then [NodeError(Researcher, task.iteration, SourcesExceeded(|outcome.sources|, work.sourceAllowance), Some(task.key))]
         else [])
        + if searches > work.queryAllowance
          then [NodeError(Researcher, task.iteration, QueriesExceeded(searches, work.queryAllowance), Some(task.key))]
          else [])
    else NOTHING_GIVEN
  }

  function InputOf(inputs: seq<ResearcherInput>, i: nat): ResearcherInput {
    if i < |inputs| then inputs[i] else ResearcherInput(false, Raised)
  }

  /** The first `n` researchers to be folded in. */
  function GivenByFirst(work: seq<SubtaskAssignment>, inputs: seq<ResearcherInput>, order: seq<nat>, n: nat): Given
    requires n <= |order| && forall k :: 0 <= k < |order| ==> order[k] < |work|
  {
    if n == 0 then NOTHING_GIVEN
    else And(GivenByFirst(work, inputs, order, n - 1), GivenByOne(work[order[n - 1]], InputOf(inputs, order[n - 1])))
  }

  /** What a superstep gave, if it was committed. */
  function GivenIn(cfg: Config, m: Machine, e: Event): Given {
    if !Commits(cfg, m, e) then NOTHING_GIVEN
    else
      match m.next
      case At(node) => GivenBy(node, m.state, CallsIn(cfg, m, e) != [], e.input.reply)
      case Round(work) => GivenByFirst(work, e.input.researchers, FoldOrder(e.input.order, |work|), |work|)
  }

  function AllGiven(cfg: Config, m: Machine, events: seq<Event>): Given
    decreases |events|
  {
    if events == [] then NOTHING_GIVEN
    else And(GivenIn(cfg, m, events[0]), AllGiven(cfg, After(cfg, m, events[0]), events[1..]))
  }

  // --- what a state has on record -----------------------------------------------------------

  predicate Unique(m: Material) {
    && UniqueIds(SourceIdOf, m.sources) && UniqueIds(EvidenceId, m.evidence)
    && UniqueIds(ClaimId, m.claims) && UniqueIds(ContradictionId, m.contradictions)
  }

  /** What was given has been added to what there was: lists go on, a source
      stays as first reported, and a row under an id is the last one written. */
  predicate Added(m: Material, given: Material, m': Material) {
    && m'.subtasks == m.subtasks + given.subtasks
    && m'.sources == SetDefaults(m.sources, given.sources)
    && m'.completed == m.completed + given.completed
    && m'.failed == m.failed + given.failed
    && m'.evidence == PutAll(EvidenceId, m.evidence, given.evidence)
    && m'.claims == PutAll(ClaimId, m.claims, given.claims)
    && m'.contradictions == PutAll(ContradictionId, m.contradictions, given.contradictions)
  }

  predicate Recorded(s: State, given: Given, s': State) {
    Added(s.found, given.found, s'.found) && s'.errors == s.errors + given.errors
  }

  lemma {:induction false} PutAllConcat<T>(idOf: T -> Id, items: seq<T>, a: seq<T>, b: seq<T>)
    ensures PutAll(idOf, items, a + b) == PutAll(idOf, PutAll(idOf, items, a), b)
  {
    if b == [] {
      assert a + b == a;
    } else {
      PutAllConcat(idOf, items, a, b[..|b| - 1]);
      LastOfJoined(a, b);
      assert (a + b)[..|a + b| - 1] == a + b[..|b| - 1];
    }
  }

  lemma AddedTwice(a: Material, x: Material, b: Material, y: Material, c: Material)
    requires Added(a, x, b) && Added(b, y, c)
    ensures Added(a, Joined(x, y), c)
  {
    SetDefaultsConcat(a.sources, x.sources, y.sources);
    PutAllConcat(EvidenceId, a.evidence, x.evidence, y.evidence);
    PutAllConcat(ClaimId, a.claims, x.claims, y.claims);
    PutAllConcat(ContradictionId, a.contradictions, x.contradictions, y.contradictions);
  }

  lemma RecordedTwice(a: State, x: Given, b: State, y: Given, c: State)
    requires Recorded(a, x, b) && Recorded(b, y, c)
    ensures Recorded(a, And(x, y), c)
  {
    AddedTwice(a.found, x.found, b.found, y.found, c.found);
  }

  lemma NothingAdded(m: Material)
    ensures Added(m, NO_MATERIAL, m)
  {
  }

  lemma GatheredIsAdded(m: Material, more: Material)
    requires Unique(m)
    ensures Added(m, more, Gathered(m, more)) && Unique(Gathered(m, more))
  {
    SetDefaultsConcat([], m.sources, more.sources);
    SetDefaultsUnique(m.sources);
    MergedSourcesGrow(m.sources, more.sources);
    PutAllUnique(EvidenceId, m.evidence);
    PutAllUnique(ClaimId, m.claims);
    PutAllUnique(ContradictionId, m.contradictions);
    PutAllKeeps(EvidenceId, m.evidence, more.evidence);
    PutAllKeeps(ClaimId, m.claims, more.claims);
    PutAllKeeps(ContradictionId, m.contradictions, more.contradictions);
  }

  lemma AppliedIsRecorded(s: State, u: Update)
    requires Unique(s.found)
    ensures Recorded(s, Given(u.found, u.errors), Applied(s, u)) && Unique(Applied(s, u).found)
  {
    GatheredIsAdded(s.found, u.found);
  }

  // --- supersteps ------------------------------------------------------------------------------

  lemma ResearcherGives(work: SubtaskAssignment, input: ResearcherInput)
    requires ResearcherNode(work, input).Wrote?
    ensures var u := ResearcherNode(work, input).update; Given(u.found, u.errors) == GivenByOne(work, input)
  {
  }

  lemma RoundGives(work: seq<SubtaskAssignment>, input: Input, i: nat)
    requires AllWrote(work, input.researchers) && i < |work|
    ensures var u, k := RoundUpdates(work, input)[i], FoldOrder(input.order, |work|)[i];
            Given(u.found, u.errors) == GivenByOne(work[k], InputOf(input.researchers, k))
  {
    var k := FoldOrder(input.order, |work|)[i];
    assert ResearcherResult(work, input.researchers, k).Wrote?;
    ResearcherGives(work[k], InputOf(input.researchers, k));
  }

  lemma AppliedOneMore(s: State, us: seq<Update>, n: nat)
    requires n < |us|
    ensures AppliedAll(s, us[..n + 1]) == Applied(AppliedAll(s, us[..n]), us[n])
    decreases n
  {
    if n == 0 {
      assert us[..1][1..] == [] && us[..1][0] == us[0];
      assert us[..0] == [];
    } else {
      AppliedOneMore(Applied(s, us[0]), us[1..], n - 1);
      assert us[..n + 1][1..] == us[1..][..n] && us[..n][1..] == us[1..][..n - 1];
    }
  }

  lemma OneMoreRecorded(s: State, given: Given, before: State, u: Update)
    requires Unique(before.found) && Recorded(s, given, before)
    ensures Unique(Applied(before, u).found) && Recorded(s, And(given, Given(u.found, u.errors)), Applied(before, u))
  {
    AppliedIsRecorded(before, u);
    RecordedTwice(s, given, before, Given(u.found, u.errors), Applied(before, u));
  }

  lemma {:induction false} RoundIsRecorded(s: State, work: seq<SubtaskAssignment>, input: Input, n: nat)
    requires Unique(s.found) && AllWrote(work, input.researchers) && n <= |work|
    ensures var s' := AppliedAll(s, RoundUpdates(work, input)[..n]);
            && Unique(s'.found)
            && Recorded(s, GivenByFirst(work, input.researchers, FoldOrder(input.order, |work|), n), s')
  {
    var us := RoundUpdates(work, input);
    if n == 0 {
      NothingAdded(s.found);
    } else {
      RoundIsRecorded(s, work, input, n - 1);
      AppliedOneMore(s, us, n - 1);
      RoundGives(work, input, n - 1);
      OneMoreRecorded(s, GivenByFirst(work, input.researchers, FoldOrder(input.order, |work|), n - 1),
                      AppliedAll(s, us[..n - 1]), us[n - 1]);
    }
  }

  lemma NodeGives(cfg: Config, node: GraphNode, s: State, input: Input, resumedAt: Time)
    requires NodeStep(cfg, node, s, input, resumedAt).Wrote?
    ensures var r := NodeStep(cfg, node, s, input, resumedAt);
            Given(r.update.found, r.update.errors) == GivenBy(node, s, r.called, input.reply)
  {
    NodeRecords(cfg, node, s, input, resumedAt);
  }

  lemma StepIsRecorded(cfg: Config, m: Machine, e: Event)
    requires Unique(m.state.found)
    ensures Recorded(m.state, GivenIn(cfg, m, e), After(cfg, m, e).state) && Unique(After(cfg, m, e).state.found)
  {
    if !Commits(cfg, m, e) {
      NothingAdded(m.state.found);
    } else if m.next.At? {
      NodeGives(cfg, m.next.node, m.state, e.input, m.resumedAt);
      AppliedIsRecorded(m.state, NodeStep(cfg, m.next.node, m.state, e.input, m.resumedAt).update);
    } else {
      var us := RoundUpdates(m.next.assignments, e.input);
      RoundIsRecorded(m.state, m.next.assignments, e.input, |us|);
      assert us[..|us|] == us;
    }
  }

  /** Nothing that was given is lost, and nothing is on record that was not
      given: over any events, crashes and resumes among them, what has been
      gathered and what went wrong are what committed supersteps gave, in the
      order they gave it. */
  lemma {:induction false} RunIsRecorded(cfg: Config, m: Machine, events: seq<Event>)
    requires Unique(m.state.found)
    ensures Recorded(m.state, AllGiven(cfg, m, events), Run(cfg, m, events).state)
    ensures Unique(Run(cfg, m, events).state.found)
    decreases |events|
  {
    if events == [] {
      NothingAdded(m.state.found);
    } else {
      var m' := After(cfg, m, events[0]);
      StepIsRecorded(cfg, m, events[0]);
      RunIsRecorded(cfg, m', events[1..]);
      RecordedTwice(m.state, GivenIn(cfg, m, events[0]), m'.state,
                    AllGiven(cfg, m', events[1..]), Run(cfg, m', events[1..]).state);
    }
  }

  /** Written, and not written over. */
  predicate WrittenLast<T(==)>(idOf: T -> Id, written: seq<T>, i: int, x: T) {
    0 <= i < |written| && written[i] == x && forall j :: i < j < |written| ==> idOf(written[j]) != idOf(x)
  }

  lemma GivenIsWritten<T>(idOf: T -> Id, written: seq<T>, given: seq<Option<T>>, i: int, x: T)
    requires |given| == |written| && forall k :: 0 <= k < |written| ==> given[k] == Some(written[k])
    ensures GivenLast(idOf, given, i, x) <==> WrittenLast(idOf, written, i, x)
  {
    if 0 <= i < |written| {
      assert given[i] == Some(x) <==> written[i] == x;
      assert forall j :: i < j < |written| ==> given[j].Some? && given[j].value == written[j];
    }
  }

  lemma {:induction false} LastWrittenIsHeld<T>(idOf: T -> Id, written: seq<T>)
    ensures forall x :: x in PutAll(idOf, [], written) <==> exists i :: WrittenLast(idOf, written, i, x)
    ensures forall x :: x in written ==> IndexOf(idOf, PutAll(idOf, [], written), idOf(x)).Some?
  {
    var given := seq(|written|, i requires 0 <= i < |written| => Some(written[i]));
    PutAllIsPutGiven(idOf, written);
    LastGivenIsHeld(idOf, given);
    forall x ensures x in PutAll(idOf, [], written) <==> exists i :: WrittenLast(idOf, written, i, x) {
      forall i ensures GivenLast(idOf, given, i, x) <==> WrittenLast(idOf, written, i, x) {
        GivenIsWritten(idOf, written, given, i, x);
      }
    }
    forall x | x in written ensures IndexOf(idOf, PutAll(idOf, [], written), idOf(x)).Some? {
      var i :| 0 <= i < |written| && written[i] == x;
      assert given[i] == Some(x);
    }
  }

  lemma {:induction false} PutAllIsPutGiven<T>(idOf: T -> Id, written: seq<T>)
    ensures PutAll(idOf, [], written)
            == PutGiven(idOf, seq(|written|, i requires 0 <= i < |written| => Some(written[i])))
  {
    if written != [] {
      var init := written[..|written| - 1];
      PutAllIsPutGiven(idOf, init);
      var given := seq(|written|, i requires 0 <= i < |written| => Some(written[i]));
      assert given[..|written| - 1] == seq(|init|, i requires 0 <= i < |init| => Some(init[i]));
    }
  }

  ghost predicate AreLastWritten<T(!new)>(idOf: T -> Id, written: seq<T>, held: seq<T>) {
    forall x :: x in held <==> exists i :: WrittenLast(idOf, written, i, x)
  }

  lemma HeldAreLastWritten<T(!new)>(idOf: T -> Id, written: seq<T>)
    ensures AreLastWritten(idOf, written, PutAll(idOf, [], written))
  {
    LastWrittenIsHeld(idOf, written);
  }

  /** So a run's evidence is, under each id, exactly what an extractor last
      returned under it; and so with claims and contradictions. */
  lemma GatheredIsLastGiven(cfg: Config, now: Time, events: seq<Event>)
    ensures var found, given := Run(cfg, Started(now), events).state.found, AllGiven(cfg, Started(now), events).found;
            && AreLastWritten(EvidenceId, given.evidence, found.evidence)
            && AreLastWritten(ClaimId, given.claims, found.claims)
            && AreLastWritten(ContradictionId, given.contradictions, found.contradictions)
            && found.subtasks == given.subtasks && found.completed == given.completed && found.failed == given.failed
            && Run(cfg, Started(now), events).state.errors == AllGiven(cfg, Started(now), events).errors
  {
    var given := AllGiven(cfg, Started(now), events).found;
    RunIsRecorded(cfg, Started(now), events);
    HeldAreLastWritten(EvidenceId, given.evidence);
    HeldAreLastWritten(ClaimId, given.claims);
    HeldAreLastWritten(ContradictionId, given.contradictions);
  }

  /** Of each source the first report stands. */
  predicate FirstReport(reports: seq<SourceRef>, i: int, ref: SourceRef) {
    0 <= i < |reports| && reports[i] == ref && forall j :: 0 <= j < i ==> reports[j].sourceId != ref.sourceId
  }

  lemma {:induction false} FirstReportsStand(reports: seq<SourceRef>)
    ensures forall ref :: ref in SetDefaults([], reports) <==> exists i :: FirstReport(reports, i, ref)
    ensures forall i :: 0 <= i < |reports| ==> Retrieved(SetDefaults([], reports), reports[i].sourceId)
  {
    if reports != [] {
      var n := |reports| - 1;
      var init, last := reports[..n], reports[n];
      var before := SetDefaults([], init);
      FirstReportsStand(init);
      assert reports == init + [last];
      var after := SetDefaults([], reports);
      forall ref ensures ref in after <==> exists i :: FirstReport(reports, i, ref) {
        assert forall i :: 0 <= i < n ==> (FirstReport(init, i, ref) <==> FirstReport(reports, i, ref));
        assert Retrieved(before, last.sourceId) <==> exists i :: 0 <= i < n && reports[i].sourceId == last.sourceId by {
          if Retrieved(before, last.sourceId) {
            var k := IndexOf(SourceIdOf, before, last.sourceId).value;
            assert before[k] in before;
            var i :| FirstReport(init, i, before[k]);
            assert reports[i].sourceId == last.sourceId;
          }
        }
        assert FirstReport(reports, n, last) <==> !Retrieved(before, last.sourceId);
      }
      forall i | 0 <= i < |reports| ensures Retrieved(after, reports[i].sourceId) {
        if i < n {
          var k := IndexOf(SourceIdOf, before, reports[i].sourceId).value;
          assert SourceIdOf(after[k]) == reports[i].sourceId;
        } else if !Retrieved(before, last.sourceId) {
          assert SourceIdOf(after[|before|]) == last.sourceId;
        }
      }
    }
  }

  ghost predicate AreFirstReports(reports: seq<SourceRef>, sources: seq<SourceRef>) {
    && (forall ref :: ref in sources ==> exists i :: FirstReport(reports, i, ref))
    && (forall i :: 0 <= i < |reports| && FirstReport(reports, i, reports[i]) ==> reports[i] in sources)
    && (forall i :: 0 <= i < |reports| ==> Retrieved(sources, reports[i].sourceId))
  }

  /** A run's sources are those its researchers reported within what they were
      allowed, each as first reported. */
  lemma SourcesAreFirstReports(cfg: Config, now: Time, events: seq<Event>)
    ensures var found, given := Run(cfg, Started(now), events).state.found, AllGiven(cfg, Started(now), events).found;
            AreFirstReports(given.sources, found.sources)
  {
    RunIsRecorded(cfg, Started(now), events);
    StandingReports(AllGiven(cfg, Started(now), events).found.sources);
  }

  lemma StandingReports(reports: seq<SourceRef>)
    ensures AreFirstReports(reports, SetDefaults([], reports))
  {
    FirstReportsStand(reports);
  }

  // --- what a run concludes ---------------------------------------------------------------------

  /** A conclusion stands until its agent gives another; a new draft leaves no
      check standing, and a plan starts the next round. */
  predicate Concluded(node: GraphNode, s: State, called: bool, reply: Reply, s': State) {
    var plan, critique := PlanFrom(node, called, reply), CritiqueFrom(node, called, reply);
    var report, check := ReportFrom(node, called, reply), CheckFrom(node, called, reply);
    && s'.plan == (if plan.Some? then plan else s.plan)
    && s'.iteration == (if plan.Some? then s.iteration + 1 else s.iteration)
    && s'.critique == (if critique.Some? then critique else s.critique)
    && (if report.Some? then s'.report.Some? && Stamped(s, report.value, s'.report.value) else s'.report == s.report)
    && s'.check == (if report.Some? then None else if check.Some? then check else s.check)
  }

  lemma StepConcludes(cfg: Config, m: Machine, e: Event)
    requires Commits(cfg, m, e) && m.next.At?
    ensures Concluded(m.next.node, m.state, CallsIn(cfg, m, e) != [], e.input.reply, After(cfg, m, e).state)
  {
    NodeRecords(cfg, m.next.node, m.state, e.input, m.resumedAt);
  }

  /** The answer a committed call of the answerer drafted, if it drafted one. */
  function AnswerIn(cfg: Config, m: Machine, e: Event): Option<AnswerDraft> {
    if Commits(cfg, m, e) && m.next.At? then AnswerFrom(m.next.node, CallsIn(cfg, m, e) != [], e.input.reply) else None
  }

  function FirstAnswer(cfg: Config, m: Machine, events: seq<Event>): Option<AnswerDraft>
    decreases |events|
  {
    if events == [] then None
    else
      var answer := AnswerIn(cfg, m, events[0]);
      if answer.Some? then answer else FirstAnswer(cfg, After(cfg, m, events[0]), events[1..])
  }

  lemma StepAnswers(cfg: Config, m: Machine, e: Event)
    ensures After(cfg, m, e).state.answer == if m.state.answer.Some? then m.state.answer else AnswerIn(cfg, m, e)
  {
    if Commits(cfg, m, e) {
      if m.next.At? {
        NodeRecords(cfg, m.next.node, m.state, e.input, m.resumedAt);
      } else {
        RoundWritesNoCounters(m.next.assignments, e.input);
        RoundKeepsCounters(m.state, RoundUpdates(m.next.assignments, e.input));
      }
    }
  }

  /** A state has the answer it had, or else the first that a committed call
      drafted since, and has one only if some call did. */
  lemma {:induction false} RunAnswers(cfg: Config, m: Machine, events: seq<Event>)
    ensures Run(cfg, m, events).state.answer == if m.state.answer.Some? then m.state.answer else FirstAnswer(cfg, m, events)
    decreases |events|
  {
    if events != [] {
      StepAnswers(cfg, m, events[0]);
      RunAnswers(cfg, After(cfg, m, events[0]), events[1..]);
    }
  }

  /** A draft the answerer returns is in the state, unless one was there. */
  lemma DraftIsKept(cfg: Config, m: Machine, e: Event, more: seq<Event>, draft: AnswerDraft)
    requires m.next == At(Answerer) && m.state.answer.None? && e.Stepped? && Uncancelled(m.state, e.input.cancelled)
    requires e.input.reply.Returned? && e.input.reply.value == AnswerValued(Some(draft))
    ensures Commits(cfg, m, e) && CallsIn(cfg, m, e) == [Answerer]
    ensures After(cfg, m, e).state.answer == Some(draft)
    ensures Run(cfg, After(cfg, m, e), more).state.answer == Some(draft)
  {
    StepAnswers(cfg, m, e);
    RunAnswers(cfg, After(cfg, m, e), more);
  }
}
