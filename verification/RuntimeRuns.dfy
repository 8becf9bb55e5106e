/** Runs of the simulation runtime: any sequence of its operations, and the events
    that one scenario execution emits however it is paused, ticked and polled. */
module RuntimeRuns {
  import opened Prelude
  import opened SimulationModel
  import opened Scenario
  import opened SimulationRuntime
  import Ex = ScenarioExecutor
  import ScenarioRun

  datatype Command =
    | Initialize(config: Config) | Shutdown | Start | Stop | Pause | Resume | Reset | RequestTick | Tick
    | RunExecution(spec: Spec) | TakeEvents

  function Apply(r: RuntimeState, c: Command): (s: RuntimeState)
    requires Consistent(r)
  {
    match c
    case Initialize(config) => AfterInitialize(r, config).0
    case Shutdown => AfterShutdown(r)
    case Start => AfterStart(r)
    case Stop => AfterStop(r)
    case Pause => AfterPause(r)
    case Resume => AfterResume(r)
    case Reset => AfterReset(r).0
    case RequestTick => AfterRequestTick(r)
    case Tick => AfterTick(r).0
    case RunExecution(spec) => AfterRun(r, spec).0
    case TakeEvents => AfterTakeEvents(r)
  }

  lemma ApplyKeepsConsistent(r: RuntimeState, c: Command)
    requires Consistent(r)
    ensures Consistent(Apply(r, c))
  {
    hide AfterTick, AfterRun, AfterInitialize, AfterFinish, Ex.WellFormed, InstancesReset;
    match c
    case Initialize(config) => InitializeKeepsConsistent(r, config);
    case Tick => TickKeepsConsistent(r);
    case RunExecution(spec) => RunKeepsConsistent(r, spec);
    case Shutdown => if r.exec.Some? { FinishKeepsConsistent(r); }
    case Stop => if r.exec.Some? { FinishKeepsConsistent(r); }
    case Reset => ResetKeepsConsistent(r);
    case _ =>
  }

  lemma ResetKeepsConsistent(r: RuntimeState)
    requires Consistent(r)
    ensures Consistent(AfterReset(r).0)
  {
    hide Ex.WellFormed;
  }

  function ApplyAll(r: RuntimeState, commands: seq<Command>): (s: RuntimeState)
    requires Consistent(r)
    ensures Consistent(s)
    decreases |commands|
  {
    if commands == [] then r
    else
      ApplyKeepsConsistent(r, commands[0]);
      ApplyAll(Apply(r, commands[0]), commands[1..])
  }

  // The order of the two simulations

  ghost predicate SameMachine(s: Option<Sim>, t: Option<Sim>) {
    && s.Some? == t.Some?
    && (s.Some? ==>
          && t.value.id == s.value.id && t.value.variant == s.value.variant
          && t.value.supportsRollHold == s.value.supportsRollHold && t.value.answers == s.value.answers
          && s.value.asked <= t.value.asked)
  }

  ghost predicate KeepsOrder(r: RuntimeState, s: RuntimeState) {
    SameMachine(OriginalOrder(r).0, OriginalOrder(s).0) && SameMachine(OriginalOrder(r).1, OriginalOrder(s).1)
  }

  lemma StoppingKeepsMachine(e: Ex.Exec, s: Sim)
    requires Ex.WellFormed(e)
    ensures SameMachine(Some(s), Some(Ex.ExecStopped(e, s).1))
  {
  }

  lemma SteppingKeepsMachine(e: Ex.Exec, s: Sim)
    requires Ex.WellFormed(e)
    ensures SameMachine(Some(s), Some(Ex.ExecStepped(e, s).1))
  {
    hide Ex.ActivateDue, Ex.WellFormed;
  }

  lemma StartingKeepsMachine(e: Ex.Exec, s: Sim, scenario: SimulationScenario, dtSec: real)
    requires Ex.WellFormed(e)
    ensures SameMachine(Some(s), Some(Ex.Started(e, s, scenario, dtSec).1))
  {
    hide Ex.ActivateDue, Ex.Prepared, Ex.StartRefusal;
  }

  lemma FinishKeepsOrder(r: RuntimeState)
    requires r.exec.Some? && r.primary.Some? && Ex.WellFormed(r.exec.value)
    ensures KeepsOrder(r, AfterFinish(r))
  {
    StoppingKeepsMachine(r.exec.value, r.primary.value);
    hide Ex.ExecStopped, Ex.WellFormed;
  }

  lemma TickKeepsOrder(r: RuntimeState)
    requires Consistent(r)
    ensures KeepsOrder(r, AfterTick(r).0)
  {
    hide Ex.ExecStepped, Ex.ExecStopped;
    if r.exec.Some? && r.primary.Some? {
      SteppingKeepsMachine(r.exec.value, r.primary.value);
      var (e, s, result) := Ex.ExecStepped(r.exec.value, r.primary.value);
      FinishKeepsOrder(CommandsRecorded(r.(exec := Some(e), primary := Some(s))));
    }
    hide CommandEvents;
  }

  lemma InitializeKeepsOrder(r: RuntimeState, config: Config)
    ensures KeepsOrder(r, AfterInitialize(r, config).0)
  {
    if r.primary.Some? {
      InstancesKeepMachines(r.primary.value, r.baseline, config.dtSec);
    }
    hide InstancesInitialized;
  }

  lemma InstancesKeepMachines(p: Sim, b: Option<Sim>, dtSec: real)
    ensures var (q, c, _) := InstancesInitialized(p, b, dtSec);
            SameMachine(Some(p), Some(q)) && SameMachine(b, c)
  {
  }

  lemma RunKeepsOrder(r: RuntimeState, spec: Spec)
    requires Consistent(r)
    ensures KeepsOrder(r, AfterRun(r, spec).0)
  {
    hide Ex.Started, Ex.WellFormed;
    if MayRun(r) && Valid(spec.scenario) {
      var (t, ok) := RunChoice(r, spec);
      ChoiceKeepsOrder(r, spec);
      if ok {
        StartKeepsOrder(t, spec);
      }
    }
  }

  lemma ChoiceKeepsOrder(r: RuntimeState, spec: Spec)
    requires Consistent(r) && MayRun(r)
    ensures KeepsOrder(r, RunChoice(r, spec).0) && RunChoice(r, spec).0.primary.Some?
  {
    hide Ex.WellFormed;
  }

  lemma StartKeepsOrder(r: RuntimeState, spec: Spec)
    requires r.primary.Some? && r.exec.None?
    ensures KeepsOrder(r, ScenarioStarted(r, spec).0)
  {
    StartingKeepsMachine(Ex.IDLE, r.primary.value, spec.scenario, r.primary.value.tickSizeSec);
    hide Ex.Started, Ex.WellFormed, CommandEvents;
  }

  lemma ApplyKeepsOrder(r: RuntimeState, c: Command)
    requires Consistent(r)
    ensures KeepsOrder(r, Apply(r, c))
  {
    hide AfterTick, AfterRun, AfterInitialize, AfterFinish, Ex.WellFormed;
    match c
    case Initialize(config) => InitializeKeepsOrder(r, config);
    case Tick => TickKeepsOrder(r);
    case RunExecution(spec) => RunKeepsOrder(r, spec);
    case Shutdown => if r.exec.Some? { FinishKeepsOrder(r); }
    case Stop => if r.exec.Some? { FinishKeepsOrder(r); }
    case _ =>
  }

  /** In every reachable state the runtime still holds the two simulations it was
      given, and while no scenario runs they are in their original places. */
  lemma {:induction false} OrderIsRestored(r: RuntimeState, commands: seq<Command>)
    requires Consistent(r)
    ensures var s := ApplyAll(r, commands);
            && KeepsOrder(r, s)
            && (r.exec.None? && s.exec.None? ==>
                  SameMachine(r.primary, s.primary) && SameMachine(r.baseline, s.baseline))
    decreases |commands|
  {
    hide Apply;
    if commands != [] {
      ApplyKeepsConsistent(r, commands[0]);
      ApplyKeepsOrder(r, commands[0]);
      OrderIsRestored(Apply(r, commands[0]), commands[1..]);
    }
  }

  // Pending ticks of a stopped runtime

  /** The next step completes the run: it is the last one that is missing, roll hold is
      supported, and the simulation will answer the step with success. */
  predicate LastStepSucceeds(e: Ex.Exec, s: Sim) {
    && e.state.Running? && e.stepCount + 1 >= e.targetStepCount
    && s.supportsRollHold && s.initialized && e.dtSec > 0.0 && s.answers(s.asked).Succeeds?
  }

  lemma CompletesIff(e: Ex.Exec, s: Sim)
    requires Ex.WellFormed(e)
    ensures Ex.ExecStepped(e, s).2.completed <==> LastStepSucceeds(e, s)
  {
    hide Ex.ActivateDue;
    var f := Ex.ActivateDue(e, s.timeSec);
    ActivationKeepsRun(e, s.timeSec);
  }

  lemma {:induction false} ActivationKeepsRun(e: Ex.Exec, timeSec: real)
    requires Ex.WellFormed(e)
    ensures var f := Ex.ActivateDue(e, timeSec);
            f.dtSec == e.dtSec && f.stepCount == e.stepCount && f.targetStepCount == e.targetStepCount
                && f.state == e.state
    decreases |e.scenario.events| - e.nextEventIndex
  {
    if e.nextEventIndex < |e.scenario.events| && e.stepCount >= e.eventStepIndices[e.nextEventIndex] {
      var target := e.scenario.events[e.nextEventIndex].rollRad;
      ActivationKeepsRun(e.(targetRollRad := target, commandActive := true,
                            pending := e.pending + [Ex.Activation(timeSec, target)],
                            nextEventIndex := e.nextEventIndex + 1), timeSec);
    }
  }

  // A paused tick is about to make the last step of a scenario.
  predicate CompletesWhilePaused(r: RuntimeState, c: Command) {
    && c.Tick? && r.executionState.Paused? && r.pendingTicks > 0
    && r.exec.Some? && r.primary.Some? && LastStepSucceeds(r.exec.value, r.primary.value)
  }

  /** Starting without pending ticks, a stopped runtime has some after an operation
      exactly when that operation was a paused tick that made the last step of a
      scenario; the counter then stands at its maximum. */
  lemma ResidueIff(r: RuntimeState, c: Command)
    requires Consistent(r) && (r.executionState.Stopped? ==> r.pendingTicks == 0)
    ensures var s := Apply(r, c);
            && (s.executionState.Stopped? && s.pendingTicks != 0 <==> CompletesWhilePaused(r, c))
            && (CompletesWhilePaused(r, c) ==> s.pendingTicks == TICK_MODULUS - 1)
  {
    if c.Tick? && r.exec.Some? {
      AdvancedKeepsConsistent(r);
      CompletesIff(r.exec.value, r.primary.value);
      AdvancedCompletes(r);
    }
    hide AdvancedScenario, InstancesInitialized, InstancesReset, InstancesStepped, RunChoice, ScenarioStarted;
    hide Ex.WellFormed, LastStepSucceeds;
    if c.RunExecution? && MayRun(r) {
      RunKeepsCount(r, c.spec);
    }
  }

  lemma AdvancedCompletes(r: RuntimeState)
    requires Consistent(r) && r.exec.Some?
    ensures AdvancedScenario(r).1 == Ex.ExecStepped(r.exec.value, r.primary.value).2
  {
    hide Ex.ExecStepped, Ex.WellFormed;
  }

  const ONE_STEP := SimulationScenario("c172x", 1.0, 1.0, [ScenarioEvent(0.0, 0.1)], true)
  const WILLING := Sim(0, Some(PrimaryVariant), true, (k: nat) => Succeeds, 0, 0.0, false, 0.0, Control(false, 0.0), [])
  const ONE_RUN := Spec(ONE_STEP, PrimaryVariant, true)
  const TICKED_WHILE_PAUSED := [Initialize(Config("c172x", 1.0)), RunExecution(ONE_RUN), Pause, RequestTick, Tick]

  lemma OneStepIsValid()
    ensures Valid(ONE_STEP) && CalculateStepCount(1.0, 1.0) == Some(1)
  {
    assert 1.0 / 1.0 == 1.0 && 0.0 / 1.0 == 0.0;
    ExactStepCount(1, 1.0);
  }

  lemma OneRunStarts(r: RuntimeState)
    requires r == Apply(Assembled(Some(WILLING), None), Initialize(Config("c172x", 1.0)))
    ensures Consistent(r) && r.executionState.Stopped? && r.pendingTicks == 0
    ensures var s := Apply(r, RunExecution(ONE_RUN));
            && s.executionState.Running? && s.pendingTicks == 0
            && s.exec.Some? && s.primary.Some? && LastStepSucceeds(s.exec.value, s.primary.value)
  {
    OneStepIsValid();
    hide Valid, CalculateStepCount, Ex.EventSteps, Ex.ActivateDue, Ex.WellFormed;
    var s := WasReset(r.primary.value).0;
    var prepared := Ex.Prepared(Ex.IDLE.(pending := []), ONE_STEP, 1.0).(state := Ex.Running);
    ActivationKeepsRun(prepared, s.timeSec);
  }

  lemma TickedPause(running: RuntimeState)
    requires Consistent(running) && running.executionState.Running?
    requires running.exec.Some? && running.primary.Some? && LastStepSucceeds(running.exec.value, running.primary.value)
    ensures Consistent(Apply(running, Pause)) && Consistent(Apply(Apply(running, Pause), RequestTick))
    ensures var r := Apply(Apply(Apply(running, Pause), RequestTick), Tick);
            r.executionState.Stopped? && r.pendingTicks == TICK_MODULUS - 1
  {
    hide LastStepSucceeds, Ex.WellFormed, AfterTick;
    var ticking := Apply(Apply(running, Pause), RequestTick);
    assert ticking == running.(executionState := Paused, pendingTicks := 1);
    ResidueIff(ticking, Tick);
  }

  lemma FirstOf(r: RuntimeState, c: Command, rest: seq<Command>)
    requires Consistent(r)
    ensures Consistent(Apply(r, c)) && ApplyAll(r, [c] + rest) == ApplyAll(Apply(r, c), rest)
  {
    ApplyKeepsConsistent(r, c);
    assert ([c] + rest)[1..] == rest;
    hide Apply, Consistent;
  }

  /** A run that ends so: a scenario of one step, paused as soon as it has started. */
  lemma PausedLastTickLeavesResidue()
    ensures var r := ApplyAll(Assembled(Some(WILLING), None), TICKED_WHILE_PAUSED);
            r.executionState.Stopped? && r.pendingTicks == TICK_MODULUS - 1
  {
    var r := Apply(Assembled(Some(WILLING), None), Initialize(Config("c172x", 1.0)));
    OneRunStarts(r);
    var running := Apply(r, RunExecution(ONE_RUN));
    ApplyKeepsConsistent(r, RunExecution(ONE_RUN));
    hide LastStepSucceeds, Apply, Consistent, Assembled;
    TickedPause(running);
    FirstOf(Assembled(Some(WILLING), None), Initialize(Config("c172x", 1.0)), TICKED_WHILE_PAUSED[1..]);
    FirstOf(r, RunExecution(ONE_RUN), TICKED_WHILE_PAUSED[2..]);
    FirstOf(running, Pause, TICKED_WHILE_PAUSED[3..]);
    FirstOf(Apply(running, Pause), RequestTick, TICKED_WHILE_PAUSED[4..]);
    FirstOf(Apply(Apply(running, Pause), RequestTick), Tick, []);
  }

  lemma RunKeepsCount(r: RuntimeState, spec: Spec)
    requires Consistent(r) && MayRun(r) && r.pendingTicks == 0
    ensures AfterRun(r, spec).0.pendingTicks == 0
  {
    hide Ex.Started, Ex.WellFormed, CommandEvents, InstancesInitialized;
  }

  /** The left-over count is never acted on: apart from the counter itself, every
      operation does the same as with a count of zero. */
  lemma ResidueIsHarmless(r: RuntimeState, c: Command)
    requires Consistent(r) && r.executionState.Stopped?
    ensures var z := r.(pendingTicks := 0);
            && Apply(r, c).(pendingTicks := 0) == Apply(z, c).(pendingTicks := 0)
            && (!Apply(r, c).executionState.Stopped? ==> Apply(r, c) == Apply(z, c))
  {
    hide InstancesInitialized, InstancesReset, InstancesStepped, Ex.WellFormed, AfterRun, AdvancedScenario;
    if c.RunExecution? {
      RunIgnoresCount(r, c.spec);
    }
  }

  lemma RunIgnoresCount(r: RuntimeState, spec: Spec)
    requires Consistent(r) && r.executionState.Stopped?
    ensures var z, s := r.(pendingTicks := 0), AfterRun(r, spec).0;
            && s.(pendingTicks := 0) == AfterRun(z, spec).0.(pendingTicks := 0)
            && (!s.executionState.Stopped? ==> s == AfterRun(z, spec).0)
  {
    hide InstancesInitialized, Ex.WellFormed, ScenarioStarted, Restored;
    var z := r.(pendingTicks := 0);
    if MayRun(r) && Valid(spec.scenario) {
      var (t, ok) := RunChoice(r, spec);
      var (u, alsoOk) := RunChoice(z, spec);
      assert t.(pendingTicks := 0) == u.(pendingTicks := 0) && ok == alsoOk;
      assert t.executionState.Stopped?;
      if t.primary.Some? {
        StartIgnoresCount(t, u, spec);
      }
    }
  }

  lemma StartIgnoresCount(t: RuntimeState, u: RuntimeState, spec: Spec)
    requires t.primary.Some? && t.(pendingTicks := 0) == u.(pendingTicks := 0) && t.executionState.Stopped?
    ensures var v, w := ScenarioStarted(t, spec).0, ScenarioStarted(u, spec).0;
            && v.(pendingTicks := 0) == w.(pendingTicks := 0)
            && (!v.executionState.Stopped? ==> v == w)
  {
    hide Ex.Started, Ex.WellFormed, CommandEvents;
  }

  // The events of one execution

  // What may be done to the runtime while a scenario runs without ending it early.
  predicate Routine(c: Command) {
    c.Pause? || c.Resume? || c.RequestTick? || c.Tick? || c.TakeEvents?
  }

  // A runtime with the events that have been taken from it so far.
  datatype Observed = Observed(runtime: RuntimeState, taken: seq<RecordedEvent>)

  function Observe(o: Observed, c: Command): Observed
    requires Consistent(o.runtime)
  {
    Observed(Apply(o.runtime, c), if c.TakeEvents? then o.taken + o.runtime.pendingEvents else o.taken)
  }

  function ObserveAll(o: Observed, commands: seq<Command>): (p: Observed)
    requires Consistent(o.runtime)
    decreases |commands|
  {
    if commands == [] then o
    else
      ApplyKeepsConsistent(o.runtime, commands[0]);
      ObserveAll(Observe(o, commands[0]), commands[1..])
  }

  // The ticks that do a step: those while running, and the requested ones while paused.
  predicate Effective(r: RuntimeState, c: Command) {
    c.Tick? && (r.executionState.Running? || (r.executionState.Paused? && r.pendingTicks > 0))
  }

  function EffectiveTicks(r: RuntimeState, commands: seq<Command>): nat
    requires Consistent(r)
    decreases |commands|
  {
    if commands == [] then 0
    else
      ApplyKeepsConsistent(r, commands[0]);
      (if Effective(r, commands[0]) then 1 else 0) + EffectiveTicks(Apply(r, commands[0]), commands[1..])
  }

  // The start of a scenario and its first `n` commands, as they are emitted.
  function Opening(sc: SimulationScenario, dtSec: real, n: nat): seq<RecordedEvent>
    requires Valid(sc) && dtSec > 0.0 && n <= |sc.events|
  {
    [ScenarioStart(0.0)]
        + CommandEvents(ScenarioRun.Activations(sc.events, Ex.EventSteps(sc.events, dtSec), dtSec, 0, n))
  }

  predicate Midway(o: Observed, sc: SimulationScenario, dtSec: real, k: nat) {
    var r := o.runtime;
    && Valid(sc) && dtSec > 0.0
    && Consistent(r) && r.exec.Some? && r.primary.Some?
    && ScenarioRun.Flying(r.exec.value, r.primary.value, sc, dtSec, k)
    && r.exec.value.pending == []
    && o.taken + r.pendingEvents == Opening(sc, dtSec, r.exec.value.nextEventIndex)
  }

  predicate Ended(o: Observed, sc: SimulationScenario, dtSec: real, n: nat) {
    var r := o.runtime;
    && Valid(sc) && dtSec > 0.0 && n > 0
    && Consistent(r) && r.exec.None? && r.executionState.Stopped?
    && CalculateStepCount(sc.durationSec, dtSec) == Some(n)
    && o.taken + r.pendingEvents
       == Opening(sc, dtSec, ScenarioRun.Fired(Ex.EventSteps(sc.events, dtSec), n - 1))
          + [ScenarioEnd(StepTime(n, dtSec))]
  }

  lemma {:induction false} CommandEventsJoin(a: seq<Ex.Activation>, b: seq<Ex.Activation>)
    ensures CommandEvents(a + b) == CommandEvents(a) + CommandEvents(b)
  {
    if a == [] {
      assert a + b == b;
    } else {
      assert (a + b)[1..] == a[1..] + b;
      CommandEventsJoin(a[1..], b);
    }
  }

  lemma FlyingIgnoresPending(e: Ex.Exec, s: Sim, sc: SimulationScenario, dtSec: real, k: nat)
    requires ScenarioRun.Flying(e, s, sc, dtSec, k)
    ensures ScenarioRun.Flying(e.(pending := []), s, sc, dtSec, k)
    ensures Valid(sc) && dtSec > 0.0 && e.eventStepIndices == Ex.EventSteps(sc.events, dtSec)
    ensures CalculateStepCount(sc.durationSec, dtSec) == Some(e.targetStepCount)
    ensures Ex.WellFormed(e) && s.initialized && e.targetStepCount > 0 && e.scenario == sc
    ensures e.nextEventIndex == ScenarioRun.Fired(e.eventStepIndices, ScenarioRun.LastApplied(k))
  {
    hide ScenarioRun.Fired;
  }

  /** A successful RunExecution opens a run: it has emitted the start and the
      commands of step 0, and the wanted variant is the primary simulation. */
  lemma ExecutionOpens(r: RuntimeState, spec: Spec)
    requires Consistent(r) && AfterRun(r, spec).1
    ensures var s := AfterRun(r, spec).0;
            && s.executionState.Running? && s.primary.Some? && s.primary.value.variant == Some(spec.variant)
            && Midway(Observed(s, []), spec.scenario, s.primary.value.tickSizeSec, 0)
  {
    RunKeepsConsistent(r, spec);
    RunChoosesWell(r, spec);
    var t := RunChoice(r, spec).0;
    var dtSec := t.primary.value.tickSizeSec;
    var (e, s, _) := Ex.Started(Ex.IDLE, t.primary.value, spec.scenario, dtSec);
    ScenarioRun.StartFlies(Ex.IDLE, t.primary.value, spec.scenario, dtSec);
    FlyingIgnoresPending(e, s, spec.scenario, dtSec, 0);
    hide Ex.Started, Consistent, ScenarioRun.Flying, CommandEvents, Ex.WellFormed, ScenarioRun.Fired;
    assert [] + ([ScenarioStart(0.0)] + CommandEvents(e.pending)) == Opening(spec.scenario, dtSec, e.nextEventIndex);
  }

  lemma OpeningExtends(sc: SimulationScenario, dtSec: real, n: nat, m: nat)
    requires Valid(sc) && dtSec > 0.0 && n <= m <= |sc.events|
    ensures Opening(sc, dtSec, n)
          + CommandEvents(ScenarioRun.Activations(sc.events, Ex.EventSteps(sc.events, dtSec), dtSec, n, m))
         == Opening(sc, dtSec, m)
  {
    hide CommandEvents, ScenarioRun.Activations;
    var indices := Ex.EventSteps(sc.events, dtSec);
    var a := ScenarioRun.Activations(sc.events, indices, dtSec, 0, n);
    var b := ScenarioRun.Activations(sc.events, indices, dtSec, n, m);
    ScenarioRun.ActivationsJoin(sc.events, indices, dtSec, 0, n, m);
    CommandEventsJoin(a, b);
    assert ([ScenarioStart(0.0)] + CommandEvents(a)) + CommandEvents(b)
        == [ScenarioStart(0.0)] + (CommandEvents(a) + CommandEvents(b));
  }

  // What an effective tick of a scenario leaves in the runtime.
  lemma TickShape(r: RuntimeState)
    requires Consistent(r) && Effective(r, Tick) && r.exec.Some?
    requires Ex.ExecStepped(r.exec.value, r.primary.value).2.succeeded
    ensures AfterTick(r).1
    ensures var (f, t, result) := Ex.ExecStepped(r.exec.value, r.primary.value);
            var s := AfterTick(r).0;
            && s.pendingEvents == r.pendingEvents + CommandEvents(f.pending)
                                + (if result.completed then [ScenarioEnd(t.timeSec)] else [])
            && (if result.completed then s.exec.None? && s.executionState.Stopped?
                else s.exec == Some(f.(pending := [])) && s.primary == Some(t))
  {
    hide Ex.ExecStepped, Ex.WellFormed, CommandEvents, Ex.ExecStopped;
  }

  /** One effective tick of a run whose simulation step succeeds. */
  lemma TickAdvances(o: Observed, sc: SimulationScenario, dtSec: real, k: nat)
    requires Midway(o, sc, dtSec, k) && Effective(o.runtime, Tick)
    requires var s := o.runtime.primary.value; s.answers(s.asked).Succeeds?
    ensures AfterTick(o.runtime).1
    ensures var p, n := Observe(o, Tick), o.runtime.exec.value.targetStepCount;
            if k + 1 < n then
              && Midway(p, sc, dtSec, k + 1)
              && p.runtime.exec.value.targetStepCount == n
              && p.runtime.primary.value.answers == o.runtime.primary.value.answers
              && p.runtime.primary.value.asked == o.runtime.primary.value.asked + 1
            else Ended(p, sc, dtSec, n) && k + 1 == n
  {
    var r := o.runtime;
    var e, s := r.exec.value, r.primary.value;
    TickKeepsConsistent(r);
    hide Ex.ExecStepped, ScenarioRun.Flying, ScenarioRun.Finished, CommandEvents, Opening, Ex.WellFormed,
         ScenarioRun.Fired, ScenarioRun.Activations, Ex.ExecStopped, AfterTick, CalculateStepCount, Valid, Consistent,
         StepTime;
    var (f, t, result) := Ex.ExecStepped(e, s);
    FlyingBounds(e, s, sc, dtSec, k);
    ScenarioRun.StepFlies(e, s, sc, dtSec, k);
    FlyingIgnoresPending(e, s, sc, dtSec, k);
    StepEmits(o, sc, dtSec, k);
    TickShape(r);
    if result.completed {
      FinishedShape(f, t, sc, dtSec);
      assert o.taken + (r.pendingEvents + CommandEvents(f.pending) + [ScenarioEnd(t.timeSec)])
          == (o.taken + (r.pendingEvents + CommandEvents(f.pending))) + [ScenarioEnd(t.timeSec)];
    } else {
      FlyingIgnoresPending(f, t, sc, dtSec, k + 1);
      FlyingBounds(f, t, sc, dtSec, k + 1);
      assert r.pendingEvents + CommandEvents(f.pending) + [] == r.pendingEvents + CommandEvents(f.pending);
    }
  }

  lemma FlyingBounds(e: Ex.Exec, s: Sim, sc: SimulationScenario, dtSec: real, k: nat)
    requires ScenarioRun.Flying(e, s, sc, dtSec, k)
    ensures k < e.targetStepCount && CalculateStepCount(sc.durationSec, dtSec) == Some(e.targetStepCount)
  {
    hide ScenarioRun.Fired;
  }

  lemma FinishedShape(f: Ex.Exec, t: Sim, sc: SimulationScenario, dtSec: real)
    requires ScenarioRun.Finished(f, t, sc, dtSec)
    ensures t.timeSec == StepTime(f.targetStepCount, dtSec)
    ensures f.nextEventIndex == ScenarioRun.Fired(f.eventStepIndices, f.targetStepCount - 1)
    ensures f.eventStepIndices == Ex.EventSteps(sc.events, dtSec)
    ensures CalculateStepCount(sc.durationSec, dtSec) == Some(f.targetStepCount)
  {
    hide ScenarioRun.Fired;
  }

  // The events emitted so far grow by the commands of the step.
  lemma StepEmits(o: Observed, sc: SimulationScenario, dtSec: real, k: nat)
    requires Midway(o, sc, dtSec, k)
    ensures var f := Ex.ExecStepped(o.runtime.exec.value, o.runtime.primary.value).0;
            && f.nextEventIndex <= |sc.events|
            && o.taken + (o.runtime.pendingEvents + CommandEvents(f.pending)) == Opening(sc, dtSec, f.nextEventIndex)
  {
    hide Ex.ExecStepped, Ex.WellFormed, ScenarioRun.Flying, ScenarioRun.Finished, CommandEvents, Opening,
         ScenarioRun.Fired, ScenarioRun.Activations;
    var r := o.runtime;
    var e, s := r.exec.value, r.primary.value;
    var f := Ex.ExecStepped(e, s).0;
    FlyingIgnoresPending(e, s, sc, dtSec, k);
    ScenarioRun.StepFlies(e, s, sc, dtSec, k);
    OpeningExtends(sc, dtSec, e.nextEventIndex, f.nextEventIndex);
    assert f.pending == ScenarioRun.Activations(sc.events, e.eventStepIndices, dtSec, e.nextEventIndex,
                                                f.nextEventIndex);
    assert o.taken + (r.pendingEvents + CommandEvents(f.pending)) == (o.taken + r.pendingEvents)
        + CommandEvents(f.pending);
  }

  // The other routine operations neither emit nor lose an event.
  lemma RoutineKeeps(o: Observed, c: Command, sc: SimulationScenario, dtSec: real, k: nat)
    requires Midway(o, sc, dtSec, k) && Routine(c) && !Effective(o.runtime, c)
    ensures var p := Observe(o, c);
            && Midway(p, sc, dtSec, k)
            && p.runtime.exec == o.runtime.exec && p.runtime.primary == o.runtime.primary
  {
    ApplyKeepsConsistent(o.runtime, c);
    hide ScenarioRun.Flying, Opening, Ex.WellFormed, Advanced;
    assert (o.taken + o.runtime.pendingEvents) + [] == o.taken + o.runtime.pendingEvents;
  }

  lemma EndedStays(o: Observed, c: Command, sc: SimulationScenario, dtSec: real, n: nat)
    requires Ended(o, sc, dtSec, n) && Routine(c)
    ensures Ended(Observe(o, c), sc, dtSec, n) && !Effective(o.runtime, c)
  {
    ApplyKeepsConsistent(o.runtime, c);
    hide Opening, Ex.WellFormed, Advanced, CalculateStepCount, StepTime, ScenarioRun.Fired;
    assert (o.taken + o.runtime.pendingEvents) + [] == o.taken + o.runtime.pendingEvents;
  }

  lemma {:induction false} EndedStaysAll(o: Observed, commands: seq<Command>, sc: SimulationScenario, dtSec: real,
                                         n: nat)
    requires Ended(o, sc, dtSec, n) && forall c :: c in commands ==> Routine(c)
    ensures Ended(ObserveAll(o, commands), sc, dtSec, n) && EffectiveTicks(o.runtime, commands) == 0
    decreases |commands|
  {
    hide Ended, Apply, Effective, Consistent;
    EndedConsistent(o, sc, dtSec, n);
    if commands != [] {
      EndedStays(o, commands[0], sc, dtSec, n);
      EndedConsistent(Observe(o, commands[0]), sc, dtSec, n);
      EndedStaysAll(Observe(o, commands[0]), commands[1..], sc, dtSec, n);
    }
  }

  lemma EndedConsistent(o: Observed, sc: SimulationScenario, dtSec: real, n: nat)
    requires Ended(o, sc, dtSec, n)
    ensures Consistent(o.runtime)
  {
  }

  lemma MidwayConsistent(o: Observed, sc: SimulationScenario, dtSec: real, k: nat)
    requires Midway(o, sc, dtSec, k)
    ensures Consistent(o.runtime) && o.runtime.exec.Some? && o.runtime.primary.Some?
    ensures k < o.runtime.exec.value.targetStepCount
  {
    hide ScenarioRun.Fired, Opening, StepTime;
  }

  /** However a running scenario is paused, resumed, ticked and polled: while its
      simulation steps succeed it has flown exactly the effective ticks, and when
      these reach the step count it has ended, having emitted its start, each of
      its commands once and in order, and its end. */
  lemma {:induction false} ExecutionEmits(o: Observed, commands: seq<Command>, sc: SimulationScenario, dtSec: real,
                                          k: nat)
    requires Midway(o, sc, dtSec, k) && forall c :: c in commands ==> Routine(c)
    requires var s, n := o.runtime.primary.value, o.runtime.exec.value.targetStepCount;
             forall i :: s.asked <= i < s.asked + (n - k) ==> s.answers(i).Succeeds?
    ensures var p, n, ticks := ObserveAll(o, commands), o.runtime.exec.value.targetStepCount,
                               k + EffectiveTicks(o.runtime, commands);
            if ticks < n then Midway(p, sc, dtSec, ticks) else ticks == n && Ended(p, sc, dtSec, n)
    decreases |commands|
  {
    hide Midway, Ended, Apply, Consistent, AfterTick, Effective;
    MidwayConsistent(o, sc, dtSec, k);
    if commands != [] {
      var c := commands[0];
      var p := Observe(o, c);
      var n := o.runtime.exec.value.targetStepCount;
      if Effective(o.runtime, c) {
        EffectiveIsTick(o.runtime, c);
        TickAdvances(o, sc, dtSec, k);
        if k + 1 < n {
          ExecutionEmits(p, commands[1..], sc, dtSec, k + 1);
        } else {
          EndedStaysAll(p, commands[1..], sc, dtSec, n);
        }
      } else {
        RoutineKeeps(o, c, sc, dtSec, k);
        ExecutionEmits(p, commands[1..], sc, dtSec, k);
      }
    }
  }

  lemma EffectiveIsTick(r: RuntimeState, c: Command)
    requires Effective(r, c)
    ensures c == Tick
  {
  }

  // A scenario whose executor has failed: it can only be ended.
  predicate IsDead(r: RuntimeState) {
    Consistent(r) && r.exec.Some? && r.primary.Some? && r.exec.value.state.Failed? && !r.primary.value.control.enabled
  }

  /** A simulation step that fails makes the tick fail; nothing is emitted, roll hold is off,
      and the executor has failed. */
  lemma FailedStepEndsRun(o: Observed, sc: SimulationScenario, dtSec: real, k: nat)
    requires Midway(o, sc, dtSec, k) && Effective(o.runtime, Tick)
    requires var s := o.runtime.primary.value; !s.answers(s.asked).Succeeds?
    ensures var (r, ok) := AfterTick(o.runtime);
            !ok && IsDead(r) && r.pendingEvents == o.runtime.pendingEvents
  {
    var r := o.runtime;
    TickKeepsConsistent(r);
    ScenarioRun.StepFlies(r.exec.value, r.primary.value, sc, dtSec, k);
    hide ScenarioRun.Flying, Opening, Ex.ExecStopped, Ex.ControlApplied, Ex.ExecStepped, Ex.WellFormed;
  }

  // Stop and Shutdown end a scenario.
  predicate Ends(c: Command) {
    c.Stop? || c.Shutdown?
  }

  lemma DeadTick(r: RuntimeState)
    requires IsDead(r)
    ensures var (s, ok) := AfterTick(r);
            && IsDead(s) && s.primary == r.primary && s.pendingEvents == r.pendingEvents
            && (Effective(r, Tick) <==> !ok)
  {
    TickKeepsConsistent(r);
    hide Ex.ControlApplied, Ex.WellFormed;
  }

  lemma DeadStays(r: RuntimeState, c: Command)
    requires IsDead(r) && !Ends(c)
    ensures var s := Apply(r, c);
            && IsDead(s) && s.primary == r.primary
            && s.pendingEvents == if c.TakeEvents? then [] else r.pendingEvents
  {
    hide AfterTick, InstancesInitialized, RunChoice, ScenarioStarted, Ex.WellFormed;
    if c.Tick? {
      DeadTick(r);
    }
  }

  lemma DeadEnds(r: RuntimeState, c: Command)
    requires IsDead(r) && Ends(c)
    ensures var s := Apply(r, c);
            && s.exec.None? && s.executionState.Stopped?
            && s.pendingEvents == r.pendingEvents + [ScenarioEnd(r.primary.value.timeSec)]
  {
    hide Ex.WellFormed;
  }

  /** After a failed step, whatever is done but stopping and shutting down: every tick that
      is to do a step fails and nothing more is emitted; then either of the two clears the
      executor and emits the scenario's end, at the time where the simulation stopped. */
  lemma {:induction false} FailedRunOnlyEnds(o: Observed, commands: seq<Command>, last: Command)
    requires IsDead(o.runtime) && Ends(last) && forall c :: c in commands ==> !Ends(c)
    ensures var p := ObserveAll(o, commands);
            && IsDead(p.runtime) && p.taken + p.runtime.pendingEvents == o.taken + o.runtime.pendingEvents
            && (Effective(p.runtime, Tick) <==> !AfterTick(p.runtime).1)
            && var q := Observe(p, last);
               && q.runtime.exec.None? && q.runtime.executionState.Stopped?
               && q.taken + q.runtime.pendingEvents
                  == o.taken + o.runtime.pendingEvents + [ScenarioEnd(o.runtime.primary.value.timeSec)]
    decreases |commands|
  {
    hide Apply, Consistent, AfterTick, Effective;
    if commands == [] {
      DeadTick(o.runtime);
      DeadEnds(o.runtime, last);
      assert o.taken + (o.runtime.pendingEvents + [ScenarioEnd(o.runtime.primary.value.timeSec)])
          == o.taken + o.runtime.pendingEvents + [ScenarioEnd(o.runtime.primary.value.timeSec)];
    } else {
      DeadStays(o.runtime, commands[0]);
      assert (o.taken + o.runtime.pendingEvents) + [] == o.taken + o.runtime.pendingEvents;
      FailedRunOnlyEnds(Observe(o, commands[0]), commands[1..], last);
    }
  }
}
