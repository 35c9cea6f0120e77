/** Starting and resuming research graphs (`agents/runtime.py`). */
module Runtime {
  import opened Wrappers
  import opened Schemas
  import opened Budget
  import opened Graph
  import opened GraphNodes
  import opened GraphTermination

  /** How an invocation ends: the run is over, a step raised, the process is
      gone, or the graph ran into its recursion limit. */
  datatype Ending = Finished | Failed(error: GraphError) | Interrupted | RecursionExceeded

  /** What a listener is told after a superstep: what ran, and the state since. */
  datatype Notice = Notice(nodes: seq<GraphNode>, state: State)

  function NodesOf(next: Next): seq<GraphNode> {
    match next
    case At(node) => [node]
    case Round(_) => [Researcher]
    case End => []
  }

  /** Where an invocation begins: at the checkpoint there is, or afresh. */
  function StartOrResume(saved: Option<Machine>, started: Time): Machine {
    match saved
    case None => Started(started)
    case Some(m) => m.(resumedAt := started)
  }

  function Steps(inputs: seq<Input>): seq<Event> {
    seq(|inputs|, i requires 0 <= i < |inputs| => Stepped(inputs[i]))
  }

  lemma RunOneMore(cfg: Config, m: Machine, inputs: seq<Input>, n: nat)
    requires n < |inputs|
    ensures Run(cfg, m, Steps(inputs[..n + 1])) == After(cfg, Run(cfg, m, Steps(inputs[..n])), Stepped(inputs[n]))
  {
    var last := [Stepped(inputs[n])];
    assert Steps(inputs[..n + 1]) == Steps(inputs[..n]) + last;
    RunConcat(cfg, m, Steps(inputs[..n]), last);
    OneEvent(cfg, Run(cfg, m, Steps(inputs[..n])), last);
  }

  lemma OneEvent(cfg: Config, m: Machine, events: seq<Event>)
    requires |events| == 1
    ensures Run(cfg, m, events) == After(cfg, m, events[0])
  {
    assert events[1..] == [];
  }

  /** Resuming from a checkpoint is an event of the run. */
  lemma ResumedRun(cfg: Config, saved: Option<Machine>, started: Time, events: seq<Event>)
    ensures saved.None? ==> Run(cfg, StartOrResume(saved, started), events) == Run(cfg, Started(started), events)
    ensures saved.Some? ==> Run(cfg, StartOrResume(saved, started), events) == Run(cfg, saved.value, [Resumed(started)] + events)
  {
    if saved.Some? {
      assert ([Resumed(started)] + events)[1..] == events;
    }
  }

  /** The `i`th notice says what ran in the `i`th superstep, and the state since. */
  ghost predicate Told(cfg: Config, first: Machine, inputs: seq<Input>, notices: seq<Notice>, i: nat)
    requires i < |notices| <= |inputs|
  {
    var next := Run(cfg, first, Steps(inputs[..i])).next;
    && next != End && notices[i].nodes == [if next.At? then next.node else Researcher]
    && notices[i].state == Run(cfg, first, Steps(inputs[..i + 1])).state
  }

  /** Where an invocation from `first` is after `n` supersteps. */
  ghost predicate Driven(cfg: Config, first: Machine, inputs: seq<Input>, n: nat, m: Machine, notices: seq<Notice>) {
    && n <= |inputs| && |notices| == n
    && OnCourse(cfg, m) && 0 <= StepsLeft(cfg, m) && n + StepsLeft(cfg, m) <= StepsLeft(cfg, first)
    && m == Run(cfg, first, Steps(inputs[..n]))
    && (forall i :: 0 <= i < n ==> Told(cfg, first, inputs, notices, i))
  }

  lemma StartDriving(cfg: Config, first: Machine, inputs: seq<Input>)
    requires OnCourse(cfg, first) && 0 <= StepsLeft(cfg, first)
    ensures Driven(cfg, first, inputs, 0, first, [])
  {
    assert Steps(inputs[..0]) == [];
  }

  lemma TakeStep(cfg: Config, first: Machine, inputs: seq<Input>, n: nat, m: Machine, notices: seq<Notice>,
                 machine: Machine)
    requires Driven(cfg, first, inputs, n, m, notices) && n < |inputs| && m.next != End
    requires Superstep(cfg, m, inputs[n]).Commit? && Superstep(cfg, m, inputs[n]).machine == machine
    ensures Driven(cfg, first, inputs, n + 1, machine, notices + [Notice(NodesOf(m.next), machine.state)])
  {
    StepAdvances(cfg, m, inputs[n]);
    RunOneMore(cfg, first, inputs, n);
    var more := notices + [Notice(NodesOf(m.next), machine.state)];
    forall i | 0 <= i < n + 1 ensures Told(cfg, first, inputs, more, i) {
      assert i < n ==> Told(cfg, first, inputs, notices, i) && more[i] == notices[i];
    }
  }

  /** A run on course has at most `MostSteps` to go, wherever it is picked up. */
  lemma AtMostMostSteps(cfg: Config, m: Machine)
    requires OnCourse(cfg, m)
    ensures StepsLeft(cfg, m) <= MostSteps(cfg) < RecursionLimit(cfg.mode, cfg.budget.maxIterations)
  {
    if cfg.mode == Quick {
      assert QUICK_ROUND_STEPS * 1 <= QUICK_ROUND_STEPS * cfg.budget.maxIterations;
    } else {
      assert ROUND_STEPS * RoundsLeft(cfg, m.state) == ROUND_STEPS * cfg.budget.maxIterations - ROUND_STEPS * m.state.iteration;
    }
  }

  class Runner {
    const cfg: Config
    /** The run's last checkpoint, which outlives the process. */
    var checkpoint: Option<Machine>

    ghost predicate Valid()
      reads this
    {
      checkpoint.Some? ==> OnCourse(cfg, checkpoint.value) && StepsLeft(cfg, checkpoint.value) >= 0
    }

    constructor (cfg: Config)
      ensures Valid() && this.cfg == cfg && checkpoint == None
    {
      this.cfg := cfg;
      checkpoint := None;
    }

    /** One invocation: superstep after superstep, each checkpointed and
        reported, until the run is over, a step raises, or the process stops
        being told anything. It never ends by the recursion limit, and what it
        leaves is exactly what the supersteps taken come to. */
    method Stream(started: Time, inputs: seq<Input>) returns (ending: Ending, taken: nat, notices: seq<Notice>)
      requires Valid()
      modifies this
      ensures Valid() && taken <= |inputs|
      ensures old(checkpoint).None? ==> checkpoint == Some(Run(cfg, Started(started), Steps(inputs[..taken])))
      ensures old(checkpoint).Some? ==>
                checkpoint == Some(Run(cfg, old(checkpoint).value, [Resumed(started)] + Steps(inputs[..taken])))
      ensures ending != RecursionExceeded
      ensures ending == Finished <==> checkpoint.value.next == End
      ensures ending.Failed? ==> taken < |inputs| && RaisedBy(cfg, checkpoint.value, inputs[taken], ending.error)
      ensures |notices| == taken
      ensures forall i :: 0 <= i < taken ==> Told(cfg, StartOrResume(old(checkpoint), started), inputs, notices, i)
    {
      var m := StartOrResume(checkpoint, started);
      ghost var first := m;
      ResumedOnCourse(cfg, checkpoint, started);
      AtMostMostSteps(cfg, m);
      StartDriving(cfg, m, inputs);
      checkpoint := Some(m);
      taken, notices := 0, [];
      while m.next != End && taken < |inputs|
        invariant Driven(cfg, first, inputs, taken, m, notices)
        invariant checkpoint == Some(m)
        decreases |inputs| - taken
      {
        if taken >= RecursionLimit(cfg.mode, cfg.budget.maxIterations) {
          return RecursionExceeded, taken, notices;
        }
        var step := TakeSuperstep(cfg, m, inputs[taken]);
        if step.Raise? {
          ResumedRun(cfg, old(checkpoint), started, Steps(inputs[..taken]));
          return Failed(step.error), taken, notices;
        }
        TakeStep(cfg, first, inputs, taken, m, notices, step.machine);
        notices := notices + [Notice(NodesOf(m.next), step.machine.state)];
        m := step.machine;
        taken := taken + 1;
        checkpoint := Some(m);
      }
      ResumedRun(cfg, old(checkpoint), started, Steps(inputs[..taken]));
      ending := if m.next == End then Finished else Interrupted;
    }
  }

  /** The superstep from here, on this input, raises the error. */
  predicate RaisedBy(cfg: Config, m: Machine, input: Input, error: GraphError) {
    m.next != End && Superstep(cfg, m, input) == Raise(error)
  }

  lemma ResumedOnCourse(cfg: Config, saved: Option<Machine>, started: Time)
    requires saved.Some? ==> OnCourse(cfg, saved.value) && StepsLeft(cfg, saved.value) >= 0
    ensures OnCourse(cfg, StartOrResume(saved, started)) && StepsLeft(cfg, StartOrResume(saved, started)) >= 0
  {
  }
}
