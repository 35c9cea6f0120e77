/** What a run has spent is exactly what its agents reported, and what one
    superstep adds to the run's totals. */
module GraphLedger {
  import opened Wrappers
  import opened Schemas
  import opened Reducers
  import opened Budget
  import opened Sums
  import opened Graph

  /** Searches made beyond what was allowed, as the run's errors record them. */
  function OveruseIn(e: NodeError): nat {
    match e.fault
    case QueriesExceeded(used, allowed) => if used > allowed then used - allowed else 0
    case _ => 0
  }

  function Overuse(errors: seq<NodeError>): nat {
    if errors == [] then 0 else OveruseIn(errors[0]) + Overuse(errors[1..])
  }

  lemma OveruseConcat(a: seq<NodeError>, b: seq<NodeError>)
    ensures Overuse(a + b) == Overuse(a) + Overuse(b)
  {
    if a == [] {
      assert a + b == b;
    } else {
      assert (a + b)[1..] == a[1..] + b;
      OveruseConcat(a[1..], b);
    }
  }

  function CostIn(u: Update): nat {
    if u.usage.Some? then u.usage.value.cost.usd else 0
  }

  function SearchesIn(u: Update): nat {
    if u.usage.Some? then u.usage.value.searchQueries else 0
  }

  /** One update's effect on the totals. */
  lemma AppliedTotals(s: State, u: Update)
    requires UniqueIds(SourceIdOf, s.found.sources)
    ensures var t := Applied(s, u);
            && UniqueIds(SourceIdOf, t.found.sources)
            && |t.found.sources| <= |s.found.sources| + |u.found.sources|
            && t.cost.usd == s.cost.usd + CostIn(u)
            && t.searches == s.searches + SearchesIn(u)
            && Overuse(t.errors) == Overuse(s.errors) + Overuse(u.errors)
  {
    MergedSourcesGrow(s.found.sources, u.found.sources);
    OveruseConcat(s.errors, u.errors);
  }

  function Costs(us: seq<Update>): seq<nat> {
    seq(|us|, i requires 0 <= i < |us| => CostIn(us[i]))
  }

  function SearchCounts(us: seq<Update>): seq<nat> {
    seq(|us|, i requires 0 <= i < |us| => SearchesIn(us[i]))
  }

  function SourceCounts(us: seq<Update>): seq<nat> {
    seq(|us|, i requires 0 <= i < |us| => |us[i].found.sources|)
  }

  function Overuses(us: seq<Update>): seq<nat> {
    seq(|us|, i requires 0 <= i < |us| => Overuse(us[i].errors))
  }

  /** Folding a round's updates adds up their effects. */
  lemma {:induction false} AppliedAllTotals(s: State, us: seq<Update>)
    requires UniqueIds(SourceIdOf, s.found.sources)
    ensures var t := AppliedAll(s, us);
            && UniqueIds(SourceIdOf, t.found.sources)
            && |t.found.sources| <= |s.found.sources| + Sum(SourceCounts(us))
            && t.cost.usd == s.cost.usd + Sum(Costs(us))
            && t.searches == s.searches + Sum(SearchCounts(us))
            && Overuse(t.errors) == Overuse(s.errors) + Sum(Overuses(us))
    decreases |us|
  {
    if us != [] {
      AppliedTotals(s, us[0]);
      AppliedAllTotals(Applied(s, us[0]), us[1..]);
      FirstOfCounts(us);
    }
  }

  lemma FirstOfCounts(us: seq<Update>)
    requires us != []
    ensures Sum(SourceCounts(us)) == |us[0].found.sources| + Sum(SourceCounts(us[1..]))
    ensures Sum(Costs(us)) == CostIn(us[0]) + Sum(Costs(us[1..]))
    ensures Sum(SearchCounts(us)) == SearchesIn(us[0]) + Sum(SearchCounts(us[1..]))
    ensures Sum(Overuses(us)) == Overuse(us[0].errors) + Sum(Overuses(us[1..]))
  {
    assert SourceCounts(us)[1..] == SourceCounts(us[1..]);
    assert Costs(us)[1..] == Costs(us[1..]);
    assert SearchCounts(us)[1..] == SearchCounts(us[1..]);
    assert Overuses(us)[1..] == Overuses(us[1..]);
  }

  // --- one researcher ----------------------------------------------------------------

  /** A researcher's sources stay within its allowance, and its searches within
      its allowance and what is recorded against it. */
  lemma ResearcherWithinAllowance(work: SubtaskAssignment, input: ResearcherInput)
    requires ResearcherNode(work, input).Wrote?
    ensures var u := ResearcherNode(work, input).update;
            && |u.found.sources| <= work.sourceAllowance
            && SearchesIn(u) <= work.queryAllowance + Overuse(u.errors)
  {
    match input.reply
    case Returned(OutcomeValued(outcome), usage) =>
      OveruseConcat(ExceededSources(work, outcome), ExceededQueries(work, usage));
    case _ =>
  }

  /** What a researcher reported, if it was called and answered. */
  lemma ResearcherUsage(work: SubtaskAssignment, input: ResearcherInput)
    requires ResearcherNode(work, input).Wrote?
    ensures var r := ResearcherNode(work, input);
            r.update.usage == if r.called && input.reply.Returned? then Some(input.reply.usage) else None
  {
  }

  function QueryShares(work: seq<SubtaskAssignment>): seq<nat> {
    seq(|work|, i requires 0 <= i < |work| => work[i].queryAllowance)
  }

  function SourceShares(work: seq<SubtaskAssignment>): seq<nat> {
    seq(|work|, i requires 0 <= i < |work| => work[i].sourceAllowance)
  }

  /** Whatever order a round's writes fold in, its sources stay within the
      allowances handed out, and its searches within those and the over-use it
      records. */
  lemma RoundWithinAllowances(work: seq<SubtaskAssignment>, input: Input)
    requires AllWrote(work, input.researchers)
    ensures var us := RoundUpdates(work, input);
            && Sum(SourceCounts(us)) <= Sum(SourceShares(work))
            && Sum(SearchCounts(us)) <= Sum(QueryShares(work)) + Sum(Overuses(us))
  {
    var us := RoundUpdates(work, input);
    var order := FoldOrder(input.order, |work|);
    var sources, queries := Picked(SourceShares(work), order), Picked(QueryShares(work), order);
    var bounds := Added(queries, Overuses(us));
    forall i | 0 <= i < |us|
      ensures SourceCounts(us)[i] <= sources[i] && SearchCounts(us)[i] <= bounds[i]
    {
      var k := order[i];
      assert us[i] == ResearcherResult(work, input.researchers, k).update;
      assert ResearcherResult(work, input.researchers, k).Wrote?;
      ResearcherWithinAllowance(work[k], if k < |input.researchers| then input.researchers[k] else ResearcherInput(false, Raised));
    }
    SumMonotone(SourceCounts(us), sources);
    SumMonotone(SearchCounts(us), bounds);
    SumAdded(queries, Overuses(us));
    SumPermuted(SourceShares(work), order);
    SumPermuted(QueryShares(work), order);
  }

  // --- one node ----------------------------------------------------------------------

  /** No node but the researcher reports sources, or records over-use. */
  predicate Plain(u: Update) {
    |u.found.sources| <= 0 && forall e :: e in u.errors ==> e.fault == StepFailed
  }

  lemma PlainRecordsNoOveruse(errors: seq<NodeError>)
    requires forall e :: e in errors ==> e.fault == StepFailed
    ensures Overuse(errors) == 0
  {
    if errors != [] {
      assert errors[0] in errors;
      PlainRecordsNoOveruse(errors[1..]);
    }
  }

  /** A node's writes charge exactly what its agent reported, if it was called
      and answered. */
  predicate Charged(r: NodeResult, reply: Reply) {
    r.Wrote? ==>
      && r.update.usage == (if r.called && reply.Returned? then Some(reply.usage) else None)
      && Plain(r.update)
  }

  lemma PlannerCharged(cfg: Config, s: State, input: Input, resumedAt: Time)
    ensures Charged(PlannerNode(cfg, s, input, resumedAt), input.reply)
  {
  }

  lemma ProcessCharged(s: State, node: GraphNode, input: Input, resumedAt: Time)
    ensures Charged(ProcessNode(s, node, Written(node, input.reply), input, resumedAt), input.reply)
  {
  }

  lemma CriticCharged(cfg: Config, s: State, input: Input, resumedAt: Time)
    ensures Charged(CriticNode(cfg, s, input, resumedAt), input.reply)
  {
  }

  lemma WritersCharged(s: State, input: Input, resumedAt: Time)
    ensures Charged(AnswererNode(s, input, resumedAt), input.reply)
    ensures Charged(SynthesizerNode(s, input, resumedAt), input.reply)
    ensures Charged(ValidatorNode(s, input, resumedAt), input.reply)
  {
  }

  lemma NodeCharged(cfg: Config, node: GraphNode, s: State, input: Input, resumedAt: Time)
    ensures Charged(NodeStep(cfg, node, s, input, resumedAt), input.reply)
  {
    PlannerCharged(cfg, s, input, resumedAt);
    CriticCharged(cfg, s, input, resumedAt);
    WritersCharged(s, input, resumedAt);
    ProcessCharged(s, node, input, resumedAt);
  }

  // --- whole runs ----------------------------------------------------------------------

  /** What an agent reported, if it was called and answered. */
  function Answered(r: NodeResult, reply: Reply): Option<NodeUsage> {
    if r.Wrote? && r.called && reply.Returned? then Some(reply.usage) else None
  }

  function CostOf(usage: Option<NodeUsage>): nat {
    if usage.Some? then usage.value.cost.usd else 0
  }

  function SearchesOf(usage: Option<NodeUsage>): nat {
    if usage.Some? then usage.value.searchQueries else 0
  }

  function ReplyTo(inputs: seq<ResearcherInput>, i: nat): Reply {
    if i < |inputs| then inputs[i].reply else Raised
  }

  /** What each researcher of a round reported, in the order of its subtask. */
  function RoundReports(work: seq<SubtaskAssignment>, inputs: seq<ResearcherInput>): (r: seq<Option<NodeUsage>>)
    ensures |r| == |work|
  {
    seq(|work|, i requires 0 <= i < |work| => Answered(ResearcherResult(work, inputs, i), ReplyTo(inputs, i)))
  }

  /** What the agents called in one superstep reported. */
  function Reports(cfg: Config, m: Machine, input: Input): seq<Option<NodeUsage>> {
    match m.next
    case End => []
    case At(node) => [Answered(NodeStep(cfg, node, m.state, input, m.resumedAt), input.reply)]
    case Round(work) => RoundReports(work, input.researchers)
  }

  function CostsOf(reports: seq<Option<NodeUsage>>): (r: seq<nat>)
    ensures |r| == |reports|
  {
    seq(|reports|, i requires 0 <= i < |reports| => CostOf(reports[i]))
  }

  function SearchCountsOf(reports: seq<Option<NodeUsage>>): (r: seq<nat>)
    ensures |r| == |reports|
  {
    seq(|reports|, i requires 0 <= i < |reports| => SearchesOf(reports[i]))
  }

  lemma RoundCostsReported(work: seq<SubtaskAssignment>, input: Input)
    requires AllWrote(work, input.researchers)
    ensures Sum(Costs(RoundUpdates(work, input))) == Sum(CostsOf(RoundReports(work, input.researchers)))
    ensures Sum(SearchCounts(RoundUpdates(work, input))) == Sum(SearchCountsOf(RoundReports(work, input.researchers)))
  {
    var us, reports := RoundUpdates(work, input), RoundReports(work, input.researchers);
    var order := FoldOrder(input.order, |work|);
    SumPermuted(CostsOf(reports), order);
    SumPermuted(SearchCountsOf(reports), order);
    forall i | 0 <= i < |us| ensures us[i].usage == reports[order[i]] {
      assert ResearcherResult(work, input.researchers, order[i]).Wrote?;
      ResearcherReports(work, input.researchers, order[i]);
    }
    assert Costs(us) == Picked(CostsOf(reports), order);
    assert SearchCounts(us) == Picked(SearchCountsOf(reports), order);
  }

  lemma ResearcherReports(work: seq<SubtaskAssignment>, inputs: seq<ResearcherInput>, i: nat)
    requires i < |work| && ResearcherResult(work, inputs, i).Wrote?
    ensures ResearcherResult(work, inputs, i).update.usage == RoundReports(work, inputs)[i]
  {
    ResearcherUsage(work[i], if i < |inputs| then inputs[i] else ResearcherInput(false, Raised));
  }

  /** One superstep adds to the ledger exactly what its agents reported. */
  predicate Balanced(s: State, reports: seq<Option<NodeUsage>>, s': State) {
    && s'.cost.usd == s.cost.usd + Sum(CostsOf(reports))
    && s'.searches == s.searches + Sum(SearchCountsOf(reports))
  }

  lemma NodeBalances(cfg: Config, node: GraphNode, s: State, input: Input, resumedAt: Time)
    requires NodeStep(cfg, node, s, input, resumedAt).Wrote?
    ensures var r := NodeStep(cfg, node, s, input, resumedAt);
            Balanced(s, [Answered(r, input.reply)], Applied(s, r.update))
  {
    NodeCharged(cfg, node, s, input, resumedAt);
    var r := NodeStep(cfg, node, s, input, resumedAt);
    UsageBalances(s, r.update, Answered(r, input.reply));
  }

  lemma UsageBalances(s: State, u: Update, usage: Option<NodeUsage>)
    requires u.usage == usage
    ensures Balanced(s, [usage], Applied(s, u))
  {
    assert CostsOf([usage]) == [CostOf(usage)];
    assert SearchCountsOf([usage]) == [SearchesOf(usage)];
  }

  lemma RoundBalances(s: State, work: seq<SubtaskAssignment>, input: Input)
    requires UniqueIds(SourceIdOf, s.found.sources) && AllWrote(work, input.researchers)
    ensures Balanced(s, RoundReports(work, input.researchers), AppliedAll(s, RoundUpdates(work, input)))
  {
    AppliedAllTotals(s, RoundUpdates(work, input));
    RoundCostsReported(work, input);
  }

  /** What was reported over a run, by the supersteps that were committed. */
  function CostReported(cfg: Config, m: Machine, events: seq<Event>): nat
    decreases |events|
  {
    if events == [] then 0
    else
      (if Commits(cfg, m, events[0]) then Sum(CostsOf(Reports(cfg, m, events[0].input))) else 0)
      + CostReported(cfg, After(cfg, m, events[0]), events[1..])
  }

  function SearchesReported(cfg: Config, m: Machine, events: seq<Event>): nat
    decreases |events|
  {
    if events == [] then 0
    else
      (if Commits(cfg, m, events[0]) then Sum(SearchCountsOf(Reports(cfg, m, events[0].input))) else 0)
      + SearchesReported(cfg, After(cfg, m, events[0]), events[1..])
  }

  /** Every committed call is charged once, and nothing else is. */
  lemma StepBalances(cfg: Config, m: Machine, e: Event)
    requires UniqueIds(SourceIdOf, m.state.found.sources)
    ensures UniqueIds(SourceIdOf, After(cfg, m, e).state.found.sources)
    ensures Balanced(m.state, if Commits(cfg, m, e) then Reports(cfg, m, e.input) else [], After(cfg, m, e).state)
  {
    if Commits(cfg, m, e) {
      if m.next.At? {
        NodeBalances(cfg, m.next.node, m.state, e.input, m.resumedAt);
        MergedSourcesGrow(m.state.found.sources, NodeStep(cfg, m.next.node, m.state, e.input, m.resumedAt).update.found.sources);
      } else {
        RoundBalances(m.state, m.next.assignments, e.input);
        AppliedAllTotals(m.state, RoundUpdates(m.next.assignments, e.input));
      }
    }
  }

  // --- calls without a price ------------------------------------------------------------

  function UncostedIn(u: Update): nat {
    if u.usage.Some? then u.usage.value.cost.uncostedCalls else 0
  }

  function Uncosted(us: seq<Update>): seq<nat> {
    seq(|us|, i requires 0 <= i < |us| => UncostedIn(us[i]))
  }

  function UncostedOf(usage: Option<NodeUsage>): nat {
    if usage.Some? then usage.value.cost.uncostedCalls else 0
  }

  function UncostedCountsOf(reports: seq<Option<NodeUsage>>): (r: seq<nat>)
    ensures |r| == |reports|
  {
    seq(|reports|, i requires 0 <= i < |reports| => UncostedOf(reports[i]))
  }

  function UncostedReported(cfg: Config, m: Machine, events: seq<Event>): nat
    decreases |events|
  {
    if events == [] then 0
    else
      (if Commits(cfg, m, events[0]) then Sum(UncostedCountsOf(Reports(cfg, m, events[0].input))) else 0)
      + UncostedReported(cfg, After(cfg, m, events[0]), events[1..])
  }

  lemma {:induction false} AppliedAllUncosted(s: State, us: seq<Update>)
    ensures AppliedAll(s, us).cost.uncostedCalls == s.cost.uncostedCalls + Sum(Uncosted(us))
    decreases |us|
  {
    if us != [] {
      AppliedAllUncosted(Applied(s, us[0]), us[1..]);
      assert Uncosted(us)[1..] == Uncosted(us[1..]);
    }
  }

  lemma RoundUncostedReported(work: seq<SubtaskAssignment>, input: Input)
    requires AllWrote(work, input.researchers)
    ensures Sum(Uncosted(RoundUpdates(work, input))) == Sum(UncostedCountsOf(RoundReports(work, input.researchers)))
  {
    var us, reports := RoundUpdates(work, input), RoundReports(work, input.researchers);
    var order := FoldOrder(input.order, |work|);
    SumPermuted(UncostedCountsOf(reports), order);
    forall i | 0 <= i < |us| ensures us[i].usage == reports[order[i]] {
      assert ResearcherResult(work, input.researchers, order[i]).Wrote?;
      ResearcherReports(work, input.researchers, order[i]);
    }
    assert Uncosted(us) == Picked(UncostedCountsOf(reports), order);
  }

  lemma StepCountsUncosted(cfg: Config, m: Machine, e: Event)
    ensures var reports := if Commits(cfg, m, e) then Reports(cfg, m, e.input) else [];
            After(cfg, m, e).state.cost.uncostedCalls == m.state.cost.uncostedCalls + Sum(UncostedCountsOf(reports))
  {
    if Commits(cfg, m, e) {
      if m.next.At? {
        var report := Answered(NodeStep(cfg, m.next.node, m.state, e.input, m.resumedAt), e.input.reply);
        NodeCharged(cfg, m.next.node, m.state, e.input, m.resumedAt);
        assert UncostedCountsOf([report]) == [UncostedOf(report)];
        assert Reports(cfg, m, e.input) == [report];
      } else {
        AppliedAllUncosted(m.state, RoundUpdates(m.next.assignments, e.input));
        RoundUncostedReported(m.next.assignments, e.input);
      }
    }
  }

  /** The ledger of a run is the sum of what its agents reported, whatever
      order researchers finish in and however often it is resumed. */
  lemma {:induction false} LedgerBalances(cfg: Config, m: Machine, events: seq<Event>)
    requires UniqueIds(SourceIdOf, m.state.found.sources)
    ensures Run(cfg, m, events).state.cost.usd == m.state.cost.usd + CostReported(cfg, m, events)
    ensures Run(cfg, m, events).state.searches == m.state.searches + SearchesReported(cfg, m, events)
    ensures Run(cfg, m, events).state.cost.uncostedCalls == m.state.cost.uncostedCalls + UncostedReported(cfg, m, events)
    decreases |events|
  {
    if events != [] {
      StepBalances(cfg, m, events[0]);
      StepCountsUncosted(cfg, m, events[0]);
      LedgerBalances(cfg, After(cfg, m, events[0]), events[1..]);
    }
  }

  /** So from its start a run has spent what its agents reported, and nothing
      else. */
  lemma RunSpendsWhatIsReported(cfg: Config, now: Time, events: seq<Event>)
    ensures var s := Run(cfg, Started(now), events).state;
            && s.cost.usd == CostReported(cfg, Started(now), events)
            && s.cost.uncostedCalls == UncostedReported(cfg, Started(now), events)
            && s.searches == SearchesReported(cfg, Started(now), events)
  {
    LedgerBalances(cfg, Started(now), events);
  }
}
