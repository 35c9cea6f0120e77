/** Active time over a run: exactly what passed while a process held it. */
module GraphClock {
  import opened Wrappers
  import opened Schemas
  import opened Reducers
  import opened Budget
  import opened Graph
  import opened GraphTermination

  function Later(a: Time, b: Time): Time {
    if a >= b then a else b
  }

  /** The latest of `from` and the readings. */
  function Latest(from: Time, readings: seq<Time>): Time
    decreases |readings|
  {
    if readings == [] then from else Latest(Later(from, readings[0]), readings[1..])
  }

  /** Where this process counts from. */
  function Anchor(m: Machine): Time {
    Later(m.state.clock.asOf, m.resumedAt)
  }

  /** Reading the clock moves the anchor to the reading, if that is later, and
      adds exactly how far it moved. */
  lemma ReadingMovesAnchor(clock: RunClock, now: Time, resumedAt: Time)
    ensures var clock' := LatestClock(clock, clock.AdvancedTo(now, resumedAt));
            && Later(clock'.asOf, resumedAt) == Later(Later(clock.asOf, resumedAt), now)
            && clock'.elapsed - Later(clock'.asOf, resumedAt) == clock.elapsed - Later(clock.asOf, resumedAt)
            && clock'.elapsed >= clock.elapsed
  {
  }

  /** The reading a committed node writes: on entry if it did not call its
      agent, else on exit. */
  predicate Reads(r: NodeResult, s: State, input: Input, resumedAt: Time) {
    r.Wrote? ==>
      r.update.clock == Some(s.clock.AdvancedTo(if r.called then input.exit else input.entry, resumedAt))
  }

  lemma PlannerReads(cfg: Config, s: State, input: Input, resumedAt: Time)
    ensures Reads(PlannerNode(cfg, s, input, resumedAt), s, input, resumedAt)
  {
  }

  lemma CriticReads(cfg: Config, s: State, input: Input, resumedAt: Time)
    ensures Reads(CriticNode(cfg, s, input, resumedAt), s, input, resumedAt)
  {
  }

  lemma ProcessReads(s: State, node: GraphNode, input: Input, resumedAt: Time)
    ensures Reads(ProcessNode(s, node, Written(node, input.reply), input, resumedAt), s, input, resumedAt)
  {
  }

  lemma WritersRead(s: State, input: Input, resumedAt: Time)
    ensures Reads(AnswererNode(s, input, resumedAt), s, input, resumedAt)
    ensures Reads(SynthesizerNode(s, input, resumedAt), s, input, resumedAt)
    ensures Reads(ValidatorNode(s, input, resumedAt), s, input, resumedAt)
  {
  }

  lemma NodeReads(cfg: Config, node: GraphNode, s: State, input: Input, resumedAt: Time)
    ensures Reads(NodeStep(cfg, node, s, input, resumedAt), s, input, resumedAt)
  {
    PlannerReads(cfg, s, input, resumedAt);
    CriticReads(cfg, s, input, resumedAt);
    ProcessReads(s, node, input, resumedAt);
    WritersRead(s, input, resumedAt);
  }

  /** The clock readings a superstep commits. A round of researchers reads none. */
  function ReadingsIn(cfg: Config, m: Machine, e: Event): seq<Time> {
    if Commits(cfg, m, e) && m.next.At?
    then [if NodeStep(cfg, m.next.node, m.state, e.input, m.resumedAt).called then e.input.exit else e.input.entry]
    else []
  }

  function Readings(cfg: Config, m: Machine, events: seq<Event>): seq<Time>
    decreases |events|
  {
    if events == [] then [] else ReadingsIn(cfg, m, events[0]) + Readings(cfg, After(cfg, m, events[0]), events[1..])
  }

  lemma LatestConcat(from: Time, a: seq<Time>, b: seq<Time>)
    ensures Latest(from, a + b) == Latest(Latest(from, a), b)
    ensures Latest(from, a) >= from
    decreases |a|
  {
    if a == [] {
      assert a + b == b;
    } else {
      assert (a + b)[1..] == a[1..] + b;
      LatestConcat(Later(from, a[0]), a[1..], b);
    }
  }

  /** What an invocation keeps: elapsed time and its anchor move together. */
  predicate Telescoped(m: Machine, readings: seq<Time>, m': Machine) {
    && m'.resumedAt == m.resumedAt
    && Anchor(m') == Latest(Anchor(m), readings)
    && m'.state.clock.elapsed - Anchor(m') == m.state.clock.elapsed - Anchor(m)
  }

  lemma RoundReadsNothing(cfg: Config, m: Machine, input: Input)
    requires m.next.Round? && AllWrote(m.next.assignments, input.researchers)
    ensures AppliedAll(m.state, RoundUpdates(m.next.assignments, input)).clock == m.state.clock
  {
    RoundWritesNoCounters(m.next.assignments, input);
    RoundKeepsCounters(m.state, RoundUpdates(m.next.assignments, input));
  }

  lemma StepTelescopes(cfg: Config, m: Machine, e: Event)
    requires e.Stepped?
    ensures Telescoped(m, ReadingsIn(cfg, m, e), After(cfg, m, e))
  {
    if Commits(cfg, m, e) {
      if m.next.At? {
        NodeReads(cfg, m.next.node, m.state, e.input, m.resumedAt);
        var now := ReadingsIn(cfg, m, e)[0];
        ReadingMovesAnchor(m.state.clock, now, m.resumedAt);
        assert Latest(Anchor(m), [now]) == Later(Anchor(m), now);
      } else {
        RoundReadsNothing(cfg, m, e.input);
      }
    }
  }

  /** Over one invocation the run's active time grows by exactly the distance
      from its anchor to the latest reading, in whatever order, and however far
      backwards, the clock was read. */
  lemma {:induction false} InvocationTelescopes(cfg: Config, m: Machine, events: seq<Event>)
    requires forall e :: e in events ==> e.Stepped?
    ensures Run(cfg, m, events).state.clock.elapsed
            == m.state.clock.elapsed + Latest(Anchor(m), Readings(cfg, m, events)) - Anchor(m)
    ensures Anchor(Run(cfg, m, events)) == Latest(Anchor(m), Readings(cfg, m, events))
    decreases |events|
  {
    if events != [] {
      assert events[0] in events;
      var m' := After(cfg, m, events[0]);
      StepTelescopes(cfg, m, events[0]);
      InvocationTelescopes(cfg, m', events[1..]);
      LatestConcat(Anchor(m), ReadingsIn(cfg, m, events[0]), Readings(cfg, m', events[1..]));
    }
  }

  /** Uninterrupted, a run's active time is the distance from its start to its
      latest reading. */
  lemma UninterruptedTime(cfg: Config, now: Time, events: seq<Event>)
    requires forall e :: e in events ==> e.Stepped?
    ensures Run(cfg, Started(now), events).state.clock.elapsed == Latest(now, Readings(cfg, Started(now), events)) - now
  {
    InvocationTelescopes(cfg, Started(now), events);
  }

  lemma LatestGainShrinks(low: Time, high: Time, readings: seq<Time>)
    requires low <= high
    ensures Latest(high, readings) - high <= Latest(low, readings) - low
    decreases |readings|
  {
    if readings != [] {
      LatestGainShrinks(Later(low, readings[0]), Later(high, readings[0]), readings[1..]);
    }
  }

  /** The time a run waits to be picked up is not counted: whenever the last
      process stopped, what the next one adds is at most the time from its own
      start to its latest reading. */
  lemma DowntimeIsNotCounted(cfg: Config, m: Machine, at: Time, events: seq<Event>)
    requires forall e :: e in events ==> e.Stepped?
    ensures var resumed := After(cfg, m, Resumed(at));
            && resumed.state == m.state
            && Run(cfg, resumed, events).state.clock.elapsed
               <= m.state.clock.elapsed + Latest(at, Readings(cfg, resumed, events)) - at
  {
    var resumed := After(cfg, m, Resumed(at));
    InvocationTelescopes(cfg, resumed, events);
    LatestGainShrinks(at, Anchor(resumed), Readings(cfg, resumed, events));
  }

  /** Over any events, resumes among them, active time never decreases. */
  lemma {:induction false} ElapsedNeverDecreases(cfg: Config, m: Machine, events: seq<Event>)
    ensures Run(cfg, m, events).state.clock.elapsed >= m.state.clock.elapsed
    decreases |events|
  {
    if events != [] {
      if events[0].Stepped? {
        StepTelescopes(cfg, m, events[0]);
        LatestConcat(Anchor(m), ReadingsIn(cfg, m, events[0]), []);
      }
      ElapsedNeverDecreases(cfg, After(cfg, m, events[0]), events[1..]);
    }
  }
}
