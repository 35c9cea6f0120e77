/** Loop control: the ceilings of a run, and how what is left of them is shared
    out (`agents/budget.py`). */
module Budget {
  import opened Wrappers
  import opened Ordering
  import opened Schemas

  const MAX_CITATION_REPAIRS := 1
  const ROUND_STEPS := 7
  const QUICK_ROUND_STEPS := 4
  const TAIL_STEPS := 1 + 2 * (1 + MAX_CITATION_REPAIRS)
  const RECURSION_MARGIN := 3

  /** Which ceiling has been reached, taking them in a fixed order; unpriced
      calls count as one only between rounds. */
  function LimitReached(budget: RunBudget, used: Consumption, atRoundBoundary: bool): Option<StopReason> {
    if used.cost.usd >= budget.maxCost then Some(Cost)
    else if atRoundBoundary && !used.cost.Measured() then Some(CostUnmeasured)
    else if used.runtime >= budget.maxRuntime then Some(Runtime)
    else if used.sources >= budget.maxSources then Some(Sources)
    else if used.searchQueries >= budget.maxSearchQueries then Some(SearchQueries)
    else None
  }

  // --- what a ceiling is ---------------------------------------------------------------

  /** Use has come up to a ceiling, or, between rounds, is not known. */
  predicate IsReached(budget: RunBudget, used: Consumption, atRoundBoundary: bool, reason: StopReason) {
    match reason
    case Cost => used.cost.usd >= budget.maxCost
    case CostUnmeasured => atRoundBoundary && used.cost.uncostedCalls > 0
    case Runtime => used.runtime >= budget.maxRuntime
    case Sources => used.sources >= budget.maxSources
    case SearchQueries => used.searchQueries >= budget.maxSearchQueries
    case _ => false
  }

  predicate UnderEveryCeiling(budget: RunBudget, used: Consumption, atRoundBoundary: bool) {
    && used.cost.usd < budget.maxCost && (atRoundBoundary ==> used.cost.uncostedCalls == 0)
    && used.runtime < budget.maxRuntime && used.sources < budget.maxSources
    && used.searchQueries < budget.maxSearchQueries
  }

  /** The order ceilings are named in. */
  const CEILINGS := [Cost, CostUnmeasured, Runtime, Sources, SearchQueries]

  predicate FirstReached(budget: RunBudget, used: Consumption, atRoundBoundary: bool, n: int) {
    && 0 <= n < |CEILINGS| && IsReached(budget, used, atRoundBoundary, CEILINGS[n])
    && forall k :: 0 <= k < n ==> !IsReached(budget, used, atRoundBoundary, CEILINGS[k])
  }

  /** Nothing is reported exactly under every ceiling, and of the ceilings that
      have been reached the first in order is named. */
  lemma LimitIsFirstReached(budget: RunBudget, used: Consumption, atRoundBoundary: bool)
    ensures LimitReached(budget, used, atRoundBoundary).None? <==> UnderEveryCeiling(budget, used, atRoundBoundary)
    ensures forall n :: FirstReached(budget, used, atRoundBoundary, n) ==>
              LimitReached(budget, used, atRoundBoundary) == Some(CEILINGS[n])
    ensures LimitReached(budget, used, atRoundBoundary).Some? ==> exists n :: FirstReached(budget, used, atRoundBoundary, n)
  {
    var n := NamedAt(LimitReached(budget, used, atRoundBoundary));
    assert LimitReached(budget, used, atRoundBoundary).Some? ==> FirstReached(budget, used, atRoundBoundary, n);
  }

  function NamedAt(reason: Option<StopReason>): nat {
    if reason == Some(Cost) then 0 else if reason == Some(CostUnmeasured) then 1
    else if reason == Some(Runtime) then 2 else if reason == Some(Sources) then 3 else 4
  }

  predicate MayPlanAgain(budget: RunBudget, used: Consumption) {
    used.iterations < budget.maxIterations
  }

  function CoverageCaveat(reason: StopReason, used: Consumption, critique: Option<Critique>): Option<Caveat> {
    if reason == Cancelled then None
    else
      var missing := if reason == Iterations && critique.Some? then critique.value.missing else [];
      Some(Caveat(reason, used, missing))
  }

  function RoundSteps(mode: Mode): nat {
    if mode == Quick then QUICK_ROUND_STEPS else ROUND_STEPS
  }

  function RecursionLimit(mode: Mode, maxIterations: Positive): nat {
    RoundSteps(mode) * maxIterations + TAIL_STEPS + RECURSION_MARGIN
  }

  // --- sharing out a round -----------------------------------------------------------

  datatype Dispatch = Dispatch(subtask: Subtask, queryAllowance: Positive, sourceAllowance: Positive)

  datatype Placed = Placed(index: nat, subtask: Subtask)

  function PriorityRank(p: TaskPriority): nat {
    match p
    case High => 0
    case Medium => 1
    case Low => 2
  }

  predicate DispatchedBefore(a: Placed, b: Placed) {
    PriorityRank(a.subtask.priority) < PriorityRank(b.subtask.priority) ||
    (PriorityRank(a.subtask.priority) == PriorityRank(b.subtask.priority) && a.index <= b.index)
  }

  function Enumerated(subtasks: seq<Subtask>): seq<Placed> {
    seq(|subtasks|, i requires 0 <= i < |subtasks| => Placed(i, subtasks[i]))
  }

  function Min(a: int, b: int): int {
    if a <= b then a else b
  }

  /** As wide as the plan, the bound and what is left allow. */
  function RoundWidth(budget: RunBudget, used: Consumption, subtasks: seq<Subtask>, width: Positive): int {
    Min(Min(|subtasks|, width), Min(budget.maxSearchQueries - used.searchQueries, budget.maxSources - used.sources))
  }

  /** The front of the plan, urgent subtasks first and otherwise as planned, each
      with an equal share of the searches and sources that remain. */
  function Allocate(budget: RunBudget, used: Consumption, subtasks: seq<Subtask>,
                    width: Positive): (dispatches: seq<Dispatch>)
    ensures |dispatches| <= width && |dispatches| <= |subtasks|
  {
    var queriesLeft := budget.maxSearchQueries - used.searchQueries;
    var sourcesLeft := budget.maxSources - used.sources;
    if subtasks == [] || queriesLeft < 1 || sourcesLeft < 1 then []
    else
      var ordered := Sort(DispatchedBefore, Enumerated(subtasks));
      var count := Min(Min(|ordered|, width), Min(queriesLeft, sourcesLeft));
      ShareIsPositive(queriesLeft, count);
      ShareIsPositive(sourcesLeft, count);
      seq(count, i requires 0 <= i < count => Dispatch(ordered[i].subtask, queriesLeft / count, sourcesLeft / count))
  }

  lemma ShareIsPositive(left: int, count: int)
    requires 1 <= count <= left
    ensures left / count >= 1
    ensures count * (left / count) <= left
  {
  }

  function QueryAllowances(dispatches: seq<Dispatch>): nat {
    if dispatches == [] then 0 else dispatches[0].queryAllowance + QueryAllowances(dispatches[1..])
  }

  function SourceAllowances(dispatches: seq<Dispatch>): nat {
    if dispatches == [] then 0 else dispatches[0].sourceAllowance + SourceAllowances(dispatches[1..])
  }

  lemma {:induction false} EqualShares(dispatches: seq<Dispatch>, queries: Positive, sources: Positive)
    requires forall i :: 0 <= i < |dispatches| ==>
      dispatches[i].queryAllowance == queries && dispatches[i].sourceAllowance == sources
    ensures QueryAllowances(dispatches) == |dispatches| * queries
    ensures SourceAllowances(dispatches) == |dispatches| * sources
  {
    if dispatches != [] {
      EqualShares(dispatches[1..], queries, sources);
      assert |dispatches| * queries == queries + (|dispatches| - 1) * queries;
      assert |dispatches| * sources == sources + (|dispatches| - 1) * sources;
    }
  }

  /** A round's allowances, together, never exceed what is left, and every
      researcher has at least one search and one source. */
  lemma AllocationWithinBudget(budget: RunBudget, used: Consumption, subtasks: seq<Subtask>, width: Positive)
    ensures var dispatches := Allocate(budget, used, subtasks, width);
            dispatches != [] ==>
              && used.searchQueries + QueryAllowances(dispatches) <= budget.maxSearchQueries
              && used.sources + SourceAllowances(dispatches) <= budget.maxSources
  {
    var dispatches := Allocate(budget, used, subtasks, width);
    if dispatches != [] {
      var queriesLeft := budget.maxSearchQueries - used.searchQueries;
      var sourcesLeft := budget.maxSources - used.sources;
      ShareIsPositive(queriesLeft, |dispatches|);
      ShareIsPositive(sourcesLeft, |dispatches|);
      EqualShares(dispatches, queriesLeft / |dispatches|, sourcesLeft / |dispatches|);
    }
  }

  /** A share is the largest that all can have. */
  predicate EvenShare(left: int, shares: nat, share: nat) {
    shares * share <= left < shares * (share + 1)
  }

  lemma ShareIsEven(left: int, shares: int)
    requires 1 <= shares <= left
    ensures EvenShare(left, shares, left / shares)
  {
    assert left == shares * (left / shares) + left % shares;
  }

  lemma AllocatedShares(budget: RunBudget, used: Consumption, subtasks: seq<Subtask>, width: Positive, i: nat)
    requires i < |Allocate(budget, used, subtasks, width)|
    ensures var dispatches := Allocate(budget, used, subtasks, width);
            && 1 <= |dispatches| <= budget.maxSearchQueries - used.searchQueries
            && |dispatches| <= budget.maxSources - used.sources
            && dispatches[i].queryAllowance == (budget.maxSearchQueries - used.searchQueries) / |dispatches|
            && dispatches[i].sourceAllowance == (budget.maxSources - used.sources) / |dispatches|
  {
  }

  /** Everyone sent out has an equal share of the searches and sources left. */
  lemma SharesAreEven(budget: RunBudget, used: Consumption, subtasks: seq<Subtask>, width: Positive, i: nat)
    requires i < |Allocate(budget, used, subtasks, width)|
    ensures var dispatches := Allocate(budget, used, subtasks, width);
            && EvenShare(budget.maxSearchQueries - used.searchQueries, |dispatches|, dispatches[i].queryAllowance)
            && EvenShare(budget.maxSources - used.sources, |dispatches|, dispatches[i].sourceAllowance)
  {
    var count := |Allocate(budget, used, subtasks, width)|;
    AllocatedShares(budget, used, subtasks, width, i);
    ShareIsEven(budget.maxSearchQueries - used.searchQueries, count);
    ShareIsEven(budget.maxSources - used.sources, count);
  }

  predicate MoreUrgent(a: TaskPriority, b: TaskPriority) {
    (a == High && b != High) || (a == Medium && b == Low)
  }

  /** The more urgent first, and those of one priority as planned. */
  predicate SentBefore(a: Placed, b: Placed) {
    MoreUrgent(a.subtask.priority, b.subtask.priority) || (a.subtask.priority == b.subtask.priority && a.index <= b.index)
  }

  /** The subtasks of a plan in another order, each with its place in the plan. */
  predicate Reordered(subtasks: seq<Subtask>, order: seq<Placed>) {
    && |order| == |subtasks|
    && (forall k :: 0 <= k < |order| ==> order[k].index < |subtasks| && order[k].subtask == subtasks[order[k].index])
    && (forall k, l :: 0 <= k < l < |order| ==> order[k].index != order[l].index)
  }

  lemma SortedIsReordered(subtasks: seq<Subtask>)
    ensures Reordered(subtasks, Sort(DispatchedBefore, Enumerated(subtasks)))
  {
    var placed := Enumerated(subtasks);
    var order := Sort(DispatchedBefore, placed);
    SameMembers(placed, order);
    DistinctSameMultiset(placed, order);
    forall k | 0 <= k < |order| ensures order[k].index < |subtasks| && order[k].subtask == subtasks[order[k].index] {
      assert order[k] in placed;
    }
  }

  lemma SortedIsSentBefore(subtasks: seq<Subtask>)
    ensures SortedBy(SentBefore, Sort(DispatchedBefore, Enumerated(subtasks)))
  {
    DispatchOrderTotal();
    SortSorts(DispatchedBefore, Enumerated(subtasks));
    var order := Sort(DispatchedBefore, Enumerated(subtasks));
    forall i, j | 0 <= i < j < |order| ensures SentBefore(order[i], order[j]) {
      assert DispatchedBefore(order[i], order[j]);
    }
  }

  /** What a round sends out: as wide as it may be, and nothing sent out is
      outranked by a subtask left behind. */
  lemma AllocationByPriority(budget: RunBudget, used: Consumption, subtasks: seq<Subtask>, width: Positive)
    ensures var dispatches := Allocate(budget, used, subtasks, width);
            && (dispatches == [] <==>
                  subtasks == [] || used.searchQueries >= budget.maxSearchQueries || used.sources >= budget.maxSources)
            && (dispatches == [] || |dispatches| == RoundWidth(budget, used, subtasks, width))
            && exists order: seq<Placed> ::
                 && Reordered(subtasks, order) && SortedBy(SentBefore, order)
                 && |dispatches| <= |order|
                 && forall i :: 0 <= i < |dispatches| ==> dispatches[i].subtask == order[i].subtask
  {
    SortedIsReordered(subtasks);
    SortedIsSentBefore(subtasks);
    var order := Sort(DispatchedBefore, Enumerated(subtasks));
    assert |order| == |subtasks|;
  }

  lemma DispatchOrderTotal()
    ensures TotalPreorder(DispatchedBefore)
  {
  }
}
