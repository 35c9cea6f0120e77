/** The keys a plan gives its subtasks (`agents/planner.py`), and which round
    reads a source (`_sources_by_task` in `agents/extraction.py`). */
module Planning {
  import opened Wrappers
  import opened Ordering
  import opened Schemas
  import opened Reducers
  import opened Distinct
  import opened Names

  const MAX_PLANNED_SUBTASKS := 20

  datatype ProposedSubtask = ProposedSubtask(question: string, priority: TaskPriority)

  /** A subtask's key: its round and its position in it. */
  function TaskKey(iteration: nat, position: nat): string {
    ['i'] + Decimal(iteration) + ['-'] + Decimal(position)
  }

  /** Keys of different rounds, or of different positions, are different. */
  lemma TaskKeyTellsApart(i: nat, p: nat, j: nat, q: nat)
    requires TaskKey(i, p) == TaskKey(j, q)
    ensures i == j && p == q
  {
    assert TaskKey(i, p)[1..] == Decimal(i) + ['-'] + Decimal(p);
    assert TaskKey(j, q)[1..] == Decimal(j) + ['-'] + Decimal(q);
    SplitIsUnique('-', Decimal(i), Decimal(p), Decimal(j), Decimal(q));
    DecimalIsInjective(i, j);
    DecimalIsInjective(p, q);
  }

  function Subtasks(iteration: nat, proposals: seq<ProposedSubtask>): (subtasks: seq<Subtask>)
    ensures |subtasks| == |proposals|
  {
    seq(|proposals|, i requires 0 <= i < |proposals| =>
      Subtask(TaskKey(iteration, i + 1), proposals[i].question, proposals[i].priority, iteration))
  }

  lemma SubtasksAreDistinct(iteration: nat, proposals: seq<ProposedSubtask>)
    ensures forall i, j :: 0 <= i < j < |proposals| ==> Subtasks(iteration, proposals)[i].key != Subtasks(iteration, proposals)[j].key
  {
    forall i, j | 0 <= i < j < |proposals| ensures Subtasks(iteration, proposals)[i].key != Subtasks(iteration, proposals)[j].key {
      if TaskKey(iteration, i + 1) == TaskKey(iteration, j + 1) {
        TaskKeyTellsApart(iteration, i + 1, iteration, j + 1);
      }
    }
  }

  /** As many subtasks as the planner was set up for, and never more than a plan
      holds. */
  function PlanLimit(limit: nat): nat {
    if limit <= MAX_PLANNED_SUBTASKS then limit else MAX_PLANNED_SUBTASKS
  }

  /** The plan a model's proposals come to: as many as fit, under keys of their
      own. */
  function Planned(iteration: nat, goal: string, proposals: seq<ProposedSubtask>, limit: nat): (plan: Plan)
    ensures plan.iteration == iteration && plan.researchGoal == goal
    ensures |plan.subtasks| <= limit && |plan.subtasks| <= MAX_PLANNED_SUBTASKS && |plan.subtasks| <= |proposals|
    ensures |plan.subtasks| in {limit, MAX_PLANNED_SUBTASKS, |proposals|}
    ensures forall i :: 0 <= i < |plan.subtasks| ==>
              plan.subtasks[i].question == proposals[i].question && plan.subtasks[i].priority == proposals[i].priority
    ensures forall i :: 0 <= i < |plan.subtasks| ==> plan.subtasks[i].key == TaskKey(iteration, i + 1)
  {
    var kept := Capped(proposals, PlanLimit(limit));
    SubtasksAreDistinct(iteration, kept);
    PlanValue(goal, iteration, Subtasks(iteration, kept))
  }

  // --- which round reads a source ----------------------------------------------------------------

  /** A key of the round it says it is of. */
  ghost predicate OfRound(key: string, iteration: nat) {
    exists position: nat :: TaskKey(iteration, position) == key
  }

  predicate DoneIn(completed: seq<TaskOutcome>, iteration: nat, key: string) {
    exists i :: 0 <= i < |completed| && completed[i].iteration == iteration && completed[i].taskKey == key
  }

  /** The sources first reported for one subtask. */
  function SourcesOf(sources: seq<SourceRef>, key: string): seq<SourceRef> {
    if sources == [] then []
    else
      var last := sources[|sources| - 1];
      SourcesOf(sources[..|sources| - 1], key) + if last.taskKey == key then [last] else []
  }

  /** The subtasks of a round that have sources, in the order they were first
      reported. */
  function TasksRead(completed: seq<TaskOutcome>, sources: seq<SourceRef>, iteration: nat): seq<string> {
    if sources == [] then []
    else
      var before := TasksRead(completed, sources[..|sources| - 1], iteration);
      var key := sources[|sources| - 1].taskKey;
      if DoneIn(completed, iteration, key) && key !in before then before + [key] else before
  }

  lemma {:induction false} TasksReadAreDone(completed: seq<TaskOutcome>, sources: seq<SourceRef>, iteration: nat)
    ensures forall key :: key in TasksRead(completed, sources, iteration)
              <==> DoneIn(completed, iteration, key) && SourcesOf(sources, key) != []
    ensures NoDuplicates(TasksRead(completed, sources, iteration))
  {
    if sources != [] {
      TasksReadAreDone(completed, sources[..|sources| - 1], iteration);
    }
  }

  /** What is grouped under a key so far. */
  ghost predicate GroupedSources(grouped: map<string, seq<SourceRef>>, order: seq<string>, completed: seq<TaskOutcome>,
                                 sources: seq<SourceRef>, iteration: nat) {
    && order == TasksRead(completed, sources, iteration)
    && forall key :: GroupHolds(grouped, order, sources, key)
  }

  ghost predicate GroupHolds(grouped: map<string, seq<SourceRef>>, order: seq<string>, sources: seq<SourceRef>,
                             key: string) {
    && (key in grouped <==> key in order)
    && (key in grouped ==> grouped[key] == SourcesOf(sources, key))
  }

  lemma GroupOneSource(grouped: map<string, seq<SourceRef>>, order: seq<string>, completed: seq<TaskOutcome>,
                       sources: seq<SourceRef>, iteration: nat, ref: SourceRef)
    requires GroupedSources(grouped, order, completed, sources, iteration)
    ensures !DoneIn(completed, iteration, ref.taskKey) ==>
              GroupedSources(grouped, order, completed, sources + [ref], iteration)
    ensures DoneIn(completed, iteration, ref.taskKey) ==>
              GroupedSources(
                grouped[ref.taskKey := (if ref.taskKey in grouped then grouped[ref.taskKey] else []) + [ref]],
                if ref.taskKey in grouped then order else order + [ref.taskKey],
                completed, sources + [ref], iteration)
  {
    var all := sources + [ref];
    assert all[..|sources|] == sources;
    TasksReadAreDone(completed, sources, iteration);
    assert GroupHolds(grouped, order, sources, ref.taskKey);
    if DoneIn(completed, iteration, ref.taskKey) {
      var grouped' := grouped[ref.taskKey := (if ref.taskKey in grouped then grouped[ref.taskKey] else []) + [ref]];
      var order' := if ref.taskKey in grouped then order else order + [ref.taskKey];
      forall key ensures GroupHolds(grouped', order', all, key) {
        assert GroupHolds(grouped, order, sources, key);
        assert SourcesOf(sources, key) + [] == SourcesOf(sources, key);
      }
    } else {
      forall key ensures GroupHolds(grouped, order, all, key) {
        assert GroupHolds(grouped, order, sources, key);
        assert SourcesOf(sources, key) + [] == SourcesOf(sources, key);
      }
    }
  }

  method SourcesByTask(completed: seq<TaskOutcome>, sources: seq<SourceRef>, iteration: nat)
    returns (order: seq<string>, grouped: map<string, seq<SourceRef>>)
    ensures order == TasksRead(completed, sources, iteration)
    ensures forall key :: key in order <==> key in grouped
    ensures forall key :: key in grouped ==> grouped[key] == SourcesOf(sources, key)
  {
    order, grouped := [], map[];
    for i := 0 to |sources|
      invariant GroupedSources(grouped, order, completed, sources[..i], iteration)
    {
      var ref := sources[i];
      assert sources[..i + 1] == sources[..i] + [ref];
      GroupOneSource(grouped, order, completed, sources[..i], iteration, ref);
      if DoneIn(completed, iteration, ref.taskKey) {
        if ref.taskKey !in grouped {
          order := order + [ref.taskKey];
          grouped := grouped[ref.taskKey := [] + [ref]];
        } else {
          grouped := grouped[ref.taskKey := grouped[ref.taskKey] + [ref]];
        }
      }
    }
    assert sources[..|sources|] == sources;
    forall key ensures key in order <==> key in grouped {
      assert GroupHolds(grouped, order, sources, key);
    }
    forall key | key in grouped ensures grouped[key] == SourcesOf(sources, key) {
      assert GroupHolds(grouped, order, sources, key);
    }
  }

  /** Whether evidence is drawn from a source in a round. */
  predicate ReadIn(completed: seq<TaskOutcome>, sources: seq<SourceRef>, iteration: nat, id: Id) {
    exists i :: 0 <= i < |sources| && sources[i].sourceId == id && DoneIn(completed, iteration, sources[i].taskKey)
  }

  /** Every outcome is of a subtask of its own round. */
  ghost predicate OwnRounds(completed: seq<TaskOutcome>) {
    forall i :: 0 <= i < |completed| ==> OfRound(completed[i].taskKey, completed[i].iteration)
  }

  lemma DoneInOneRound(completed: seq<TaskOutcome>, i: nat, j: nat, key: string)
    requires OwnRounds(completed) && DoneIn(completed, i, key) && DoneIn(completed, j, key)
    ensures i == j
  {
    var a :| 0 <= a < |completed| && completed[a].iteration == i && completed[a].taskKey == key;
    var b :| 0 <= b < |completed| && completed[b].iteration == j && completed[b].taskKey == key;
    assert OfRound(completed[a].taskKey, i) && OfRound(completed[b].taskKey, j);
    var p: nat :| TaskKey(i, p) == key;
    var q: nat :| TaskKey(j, q) == key;
    TaskKeyTellsApart(i, p, j, q);
  }

  lemma DoneLater(completed: seq<TaskOutcome>, later: seq<TaskOutcome>, i: nat, key: string)
    requires completed <= later && DoneIn(completed, i, key)
    ensures DoneIn(later, i, key)
  {
    var a :| 0 <= a < |completed| && completed[a].iteration == i && completed[a].taskKey == key;
    assert later[a] == completed[a];
  }

  /** Evidence is drawn from a source in one round at most, however much later
      the source is reported again: the one its first reporter belongs to. */
  lemma ReadInOneRound(completed: seq<TaskOutcome>, sources: seq<SourceRef>, i: nat,
                       later: seq<TaskOutcome>, laterSources: seq<SourceRef>, j: nat, id: Id)
    requires completed <= later && OwnRounds(later)
    requires sources <= laterSources && UniqueIds(SourceIdOf, laterSources)
    requires ReadIn(completed, sources, i, id) && ReadIn(later, laterSources, j, id)
    ensures i == j
  {
    var a :| 0 <= a < |sources| && sources[a].sourceId == id && DoneIn(completed, i, sources[a].taskKey);
    var b :| 0 <= b < |laterSources| && laterSources[b].sourceId == id && DoneIn(later, j, laterSources[b].taskKey);
    assert SourceIdOf(laterSources[a]) == SourceIdOf(laterSources[b]);
    assert a == b;
    DoneLater(completed, later, i, sources[a].taskKey);
    DoneInOneRound(later, i, j, sources[a].taskKey);
  }
}
