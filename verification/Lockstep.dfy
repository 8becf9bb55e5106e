/** The comparison over whole runs: its outcomes are consistent for every pattern of
    failures, and two runtimes that start one valid scenario stay in lockstep. */
module Lockstep {
  import opened Prelude
  import opened SimulationModel
  import opened Scenario
  import opened SimulationComparison
  import SR = SimulationRuntime
  import RuntimeRuns
  import Ex = ScenarioExecutor
  import ScenarioRun

  // Outcomes

  datatype Command = Tick | Stop | TakeObservation

  function Apply(c: ComparisonView, command: Command): ComparisonView
    requires Sound(c)
  {
    match command
    case Tick => AfterTick(c).0
    case Stop => AfterStop(c)
    case TakeObservation => c.(events := [])
  }

  lemma ApplySound(c: ComparisonView, command: Command)
    requires Sound(c)
    ensures Sound(Apply(c, command))
  {
    hide AfterTick, AfterStop;
    TickSound(c);
    ComparisonStopSound(c);
  }

  function ApplyAll(c: ComparisonView, commands: seq<Command>): ComparisonView
    requires Sound(c)
    decreases |commands|
  {
    if commands == [] then c
    else
      ApplySound(c, commands[0]);
      ApplyAll(Apply(c, commands[0]), commands[1..])
  }

  predicate FailedAlone(failed: VariantResult, peer: VariantResult) {
    failed.state.Failed? && failed.error.Some? && peer == VariantResult(Stopped, None)
  }

  /** The two variant results agree with the state: Failed means that exactly one
      variant failed and its peer was stopped. */
  predicate ResultsMatch(c: ComparisonView) {
    if c.state.Failed?
    then FailedAlone(c.baselineResult, c.primaryResult) || FailedAlone(c.primaryResult, c.baselineResult)
    else c.baselineResult == c.primaryResult == VariantResult(c.state, None)
  }

  lemma CollectedMatches(c: ComparisonView)
    requires Sound(c) && c.state.Running? && ResultsMatch(c)
    ensures var (d, ok) := Collected(c);
            ResultsMatch(d) && (if ok then d.state.Running? else d.state.Failed?)
  {
    hide SR.AfterStop, Divergence;
  }

  lemma TickMatches(c: ComparisonView)
    requires Sound(c) && c.state.Running? && ResultsMatch(c)
    ensures ResultsMatch(AfterTick(c).0) && !AfterTick(c).0.state.Stopped?
    ensures AfterTick(c).1 == !AfterTick(c).0.state.Failed?
  {
    hide SR.AfterTick, Collected, SR.AfterStop, SR.Consistent, DivergedVariant;
    SR.TickKeepsConsistent(c.baseline);
    SR.TickKeepsConsistent(c.primary);
    var e := c.(events := [], baseline := SR.AfterTick(c.baseline).0, primary := SR.AfterTick(c.primary).0,
                stepCount := c.stepCount + 1);
    CollectedMatches(e);
    CollectedSound(e);
  }

  lemma StopMatches(c: ComparisonView)
    requires Sound(c) && c.state.Running? && ResultsMatch(c)
    ensures ResultsMatch(AfterStop(c)) && (AfterStop(c).state.Stopped? || AfterStop(c).state.Failed?)
  {
    hide Collected, SR.AfterStop;
    StopSound(c.baseline);
    StopSound(c.primary);
    CollectedMatches(c.(baseline := SR.AfterStop(c.baseline), primary := SR.AfterStop(c.primary)));
  }

  /** For every failure pattern: the results always match the state, and once the
      comparison is Completed, Stopped or Failed, nothing but the last error and the
      pending observation changes any more. */
  lemma {:induction false} OutcomesConsistent(c: ComparisonView, commands: seq<Command>)
    requires Sound(c) && ResultsMatch(c)
    ensures var d := ApplyAll(c, commands);
            && Sound(d) && ResultsMatch(d)
            && (!c.state.Running? ==> d == c.(lastError := d.lastError, events := d.events))
    decreases |commands|
  {
    hide AfterTick, AfterStop, Sound, ResultsMatch;
    if commands != [] {
      ApplySound(c, commands[0]);
      OneOutcome(c, commands[0]);
      OutcomesConsistent(Apply(c, commands[0]), commands[1..]);
    }
  }

  lemma OneOutcome(c: ComparisonView, command: Command)
    requires Sound(c) && ResultsMatch(c)
    ensures var d := Apply(c, command);
            ResultsMatch(d) && (!c.state.Running? ==> d == c.(lastError := d.lastError, events := d.events))
  {
    hide Ticked, Collected, SR.AfterStop;
    if c.state.Running? {
      TickMatches(c);
      StopMatches(c);
      hide AfterTick, AfterStop;
    }
  }

  /** A comparison that no longer runs has ended the scenario in both runtimes. */
  predicate AtRest(c: ComparisonView) {
    !c.state.Running? ==> c.baseline.exec.None? && c.primary.exec.None?
  }

  lemma StoppedRests(r: SR.RuntimeState)
    requires SR.Consistent(r)
    ensures SR.AfterStop(r).exec.None?
  {
    hide Ex.ExecStopped, Ex.WellFormed;
  }

  lemma FailedRests(c: ComparisonView, variant: Variant, cause: Cause)
    requires Sound(c)
    ensures AtRest(FailedWith(c, variant, cause))
  {
    hide SR.AfterStop, SR.Consistent;
    StoppedRests(c.baseline);
    StoppedRests(c.primary);
  }

  lemma CollectedRests(c: ComparisonView)
    requires Sound(c) && (c.state.Running? || (c.baseline.exec.None? && c.primary.exec.None?))
    ensures var d := Collected(c).0;
            && AtRest(d)
            && (Collected(c).1 ==>
                  d.state == c.state && d.baseline.exec == c.baseline.exec && d.primary.exec == c.primary.exec)
  {
    hide SR.AfterStop, Divergence, FailedWith;
    var d := c.(baseline := SR.AfterTakeEvents(c.baseline), primary := SR.AfterTakeEvents(c.primary));
    if Divergence(c.baseline.pendingEvents, c.primary.pendingEvents).Some? {
      FailedRests(d, PrimaryVariant, Divergence(c.baseline.pendingEvents, c.primary.pendingEvents).value);
    }
  }

  lemma ComparedRests(c: ComparisonView)
    requires Sound(c) && c.state.Running?
    ensures AtRest(Compared(c).0)
  {
    hide Collected, FailedWith, SR.Consistent, DivergedVariant;
    CollectedSound(c);
    CollectedRests(c);
    if DivergedVariant(c).Some? {
      FailedRests(c, DivergedVariant(c).value, ClocksDiverged);
    }
    var d := Collected(c).0;
    FailedRests(d, if d.baseline.exec.Some? then PrimaryVariant else BaselineVariant, CompletedApart);
    assert Collected(c).1 ==> AtRest(Settled(d).0);
  }

  lemma ApplyRests(c: ComparisonView, command: Command)
    requires Sound(c) && AtRest(c)
    ensures AtRest(Apply(c, command))
  {
    hide Collected, Compared, FailedWith, SR.AfterTick, SR.AfterStop, SR.Consistent;
    if c.state.Running? && command.Tick? {
      SR.TickKeepsConsistent(c.baseline);
      SR.TickKeepsConsistent(c.primary);
      var d := c.(events := [], baseline := SR.AfterTick(c.baseline).0);
      var e := d.(primary := SR.AfterTick(c.primary).0);
      FailedRests(d, BaselineVariant, RuntimeFailure(d.baseline.lastError));
      FailedRests(e, PrimaryVariant, RuntimeFailure(e.primary.lastError));
      ComparedRests(e.(stepCount := c.stepCount + 1));
    }
    if c.state.Running? && command.Stop? {
      StopRests(c);
    }
  }

  lemma StopRests(c: ComparisonView)
    requires Sound(c) && c.state.Running?
    ensures AtRest(AfterStop(c))
  {
    hide Collected, SR.AfterStop;
    StopSound(c.baseline);
    StopSound(c.primary);
    StoppedRests(c.baseline);
    StoppedRests(c.primary);
    CollectedRests(c.(baseline := SR.AfterStop(c.baseline), primary := SR.AfterStop(c.primary)));
  }

  /** For every failure pattern: once a comparison is completed, stopped or failed, no
      executor is left that flies one of its simulations. */
  lemma {:induction false} EndedIsAtRest(c: ComparisonView, commands: seq<Command>)
    requires Sound(c) && AtRest(c)
    ensures AtRest(ApplyAll(c, commands))
    decreases |commands|
  {
    hide Apply, Sound, AtRest;
    if commands != [] {
      ApplySound(c, commands[0]);
      ApplyRests(c, commands[0]);
      EndedIsAtRest(Apply(c, commands[0]), commands[1..]);
    }
  }

  // Lockstep

  /** Both runtimes have flown `stepCount` steps of the scenario and emitted the same
      events, all of which have been collected. */
  predicate Locked(c: ComparisonView, sc: SimulationScenario, taken: seq<SR.RecordedEvent>) {
    && Sound(c) && ResultsMatch(c) && c.state.Running?
    && c.dtSec == sc.dtSec && c.durationSec == sc.durationSec
    && LockedOne(c.baseline, sc, taken, c.stepCount) && LockedOne(c.primary, sc, taken, c.stepCount)
  }

  predicate LockedOne(r: SR.RuntimeState, sc: SimulationScenario, taken: seq<SR.RecordedEvent>, k: nat) {
    && RuntimeRuns.Midway(RuntimeRuns.Observed(r, taken), sc, sc.dtSec, k)
    && r.pendingEvents == [] && r.executionState.Running? && r.baseline.None?
  }

  /** In lockstep the two executors agree in everything but their last error, and the
      two simulations have the same clock and have flown the same controls. */
  lemma LockedExecutorsAgree(c: ComparisonView, sc: SimulationScenario, taken: seq<SR.RecordedEvent>)
    requires Locked(c, sc, taken)
    ensures c.baseline.exec.Some? && c.primary.exec.Some? && c.baseline.primary.Some? && c.primary.primary.Some?
    ensures var b, p := c.baseline.exec.value, c.primary.exec.value;
            && b.stepCount == p.stepCount == c.stepCount && b.nextEventIndex == p.nextEventIndex
            && b == p.(lastError := b.lastError)
    ensures var b, p := c.baseline.primary.value, c.primary.primary.value;
            b.timeSec == p.timeSec == StepTime(c.stepCount, sc.dtSec) && b.flown == p.flown && |b.flown| == c.stepCount
  {
    hide ScenarioRun.Fired, RuntimeRuns.Opening, StepTime, ResultsMatch, Sound;
  }

  // The answer of the simulation to the next step.
  function NextAnswer(r: SR.RuntimeState): Answer
    requires r.primary.Some?
  {
    r.primary.value.answers(r.primary.value.asked)
  }

  lemma CreatedRuntime(s: Sim, sc: SimulationScenario, spec: SR.Spec)
    requires !s.initialized && SR.CreatedForExecution(s, sc).1
    ensures var r := SR.CreatedForExecution(s, sc).0;
            && r.config == SR.Config(sc.aircraft, sc.dtSec) && r.baseline.None? && !r.swapped && SR.Consistent(r)
            && r.primary.Some? && r.primary.value.tickSizeSec == sc.dtSec && SR.MayRun(r)
            && r.exec.None?
  {
    SR.InitializeKeepsConsistent(SR.Assembled(Some(s), None), SR.Config(sc.aircraft, sc.dtSec));
    hide SR.Consistent;
  }

  lemma CreatedStarts(r: SR.RuntimeState, spec: SR.Spec)
    requires SR.Consistent(r) && SR.AfterRun(r, spec).1 && r.baseline.None? && r.primary.Some? && !r.swapped
    requires r.config == SR.Config(spec.scenario.aircraft, spec.scenario.dtSec)
    requires r.primary.value.tickSizeSec == spec.scenario.dtSec
    ensures var s := SR.AfterRun(r, spec).0;
            && s.baseline.None? && s.executionState.Running?
            && RuntimeRuns.Midway(RuntimeRuns.Observed(s, []), spec.scenario, spec.scenario.dtSec, 0)
  {
    RuntimeRuns.ExecutionOpens(r, spec);
    assert SR.RunChoice(r, spec).0.primary == r.primary && SR.RunChoice(r, spec).0.baseline.None?;
    ScenarioRun.StartFlies(Ex.IDLE, r.primary.value, spec.scenario, r.primary.value.tickSizeSec);
    hide Ex.Started, RuntimeRuns.Midway, ScenarioRun.Flying, SR.Consistent;
  }

  // Two runtimes at the same step that have emitted the same events have the same events pending.
  lemma SamePending(r: SR.RuntimeState, s: SR.RuntimeState, sc: SimulationScenario, taken: seq<SR.RecordedEvent>,
                    k: nat)
    requires RuntimeRuns.Midway(RuntimeRuns.Observed(r, taken), sc, sc.dtSec, k)
    requires RuntimeRuns.Midway(RuntimeRuns.Observed(s, taken), sc, sc.dtSec, k)
    ensures r.pendingEvents == s.pendingEvents
  {
    RuntimeRuns.FlyingIgnoresPending(r.exec.value, r.primary.value, sc, sc.dtSec, k);
    RuntimeRuns.FlyingIgnoresPending(s.exec.value, s.primary.value, sc, sc.dtSec, k);
    hide ScenarioRun.Flying, RuntimeRuns.Opening, SR.Consistent;
    assert r.pendingEvents == (taken + r.pendingEvents)[|taken|..];
    assert s.pendingEvents == (taken + s.pendingEvents)[|taken|..];
  }

  lemma SameEventsAgree(events: seq<SR.RecordedEvent>)
    ensures Divergence(events, events) == None
  {
  }

  lemma CollectMidway(r: SR.RuntimeState, sc: SimulationScenario, taken: seq<SR.RecordedEvent>, k: nat)
    requires RuntimeRuns.Midway(RuntimeRuns.Observed(r, taken), sc, sc.dtSec, k)
    requires r.executionState.Running? && r.baseline.None?
    ensures LockedOne(SR.AfterTakeEvents(r), sc, taken + r.pendingEvents, k)
  {
    hide ScenarioRun.Flying, RuntimeRuns.Opening;
    assert (taken + r.pendingEvents) + [] == taken + r.pendingEvents;
  }

  /** A comparison that `Create` returns stands before step 0, in lockstep. */
  lemma CreatedIsLocked(baseline: Sim, primary: Sim, sc: SimulationScenario, parametersAccepted: Acceptance)
    requires !baseline.initialized && !primary.initialized
    requires Created(baseline, primary, sc, parametersAccepted).0.Some?
    ensures var c := Created(baseline, primary, sc, parametersAccepted).0.value;
            c.stepCount == 0 && Locked(c, sc, c.events)
  {
    var baselineSpec, primarySpec := SR.Spec(sc, BaselineVariant, parametersAccepted.baseline),
        SR.Spec(sc, PrimaryVariant, parametersAccepted.primary);
    CreatedRuntime(baseline, sc, baselineSpec);
    CreatedRuntime(primary, sc, primarySpec);
    hide SR.CreatedForExecution, SR.AfterRun, SR.Consistent, RuntimeRuns.Midway, FailedWith, LockedOne;
    var b, p := SR.CreatedForExecution(baseline, sc).0, SR.CreatedForExecution(primary, sc).0;
    CreatedStarts(b, baselineSpec);
    CreatedStarts(p, primarySpec);
    CreatedSound(baseline, sc, baselineSpec);
    CreatedSound(primary, sc, primarySpec);
    var b1, p1 := SR.AfterRun(b, baselineSpec).0, SR.AfterRun(p, primarySpec).0;
    SamePending(b1, p1, sc, [], 0);
    CollectMidway(b1, sc, [], 0);
    CollectMidway(p1, sc, [], 0);
    CollectedSound(Assembled(b1, p1, sc.dtSec, sc.durationSec));
    assert [] + p1.pendingEvents == p1.pendingEvents;
  }

  // A new simulation of a variant whose initialization and first reset succeed.
  predicate Willing(s: Sim, variant: Variant) {
    && !s.initialized && s.variant == Some(variant) && s.supportsRollHold
    && s.answers(s.asked).Succeeds? && s.answers(s.asked + 1).Succeeds?
  }

  lemma WillingStarts(s: Sim, sc: SimulationScenario, spec: SR.Spec)
    requires Valid(sc) && CalculateStepCount(sc.durationSec, sc.dtSec).Some? && spec.scenario == sc
    requires Willing(s, spec.variant) && spec.parametersAccepted
    ensures SR.CreatedForExecution(s, sc).1 && SR.AfterRun(SR.CreatedForExecution(s, sc).0, spec).1
  {
    hide Valid, CalculateStepCount, Ex.ActivateDue, SR.CommandEvents;
    var r := SR.CreatedForExecution(s, sc).0;
    assert SR.RunChoice(r, spec) == (r, true);
    assert Ex.StartRefusal(r.primary.value, sc, sc.dtSec) == Ex.NoError;
  }

  /** Two such simulations make a comparison of every valid scenario with a step count. */
  lemma WillingSimulationsCompare(baseline: Sim, primary: Sim, sc: SimulationScenario)
    requires Valid(sc) && CalculateStepCount(sc.durationSec, sc.dtSec).Some?
    requires Willing(baseline, BaselineVariant) && Willing(primary, PrimaryVariant)
    ensures Created(baseline, primary, sc, Acceptance(true, true)).0.Some?
  {
    var baselineSpec, primarySpec := SR.Spec(sc, BaselineVariant, true), SR.Spec(sc, PrimaryVariant, true);
    WillingStarts(baseline, sc, baselineSpec);
    WillingStarts(primary, sc, primarySpec);
    CreatedRuntime(baseline, sc, baselineSpec);
    CreatedRuntime(primary, sc, primarySpec);
    hide SR.CreatedForExecution, SR.AfterRun, SR.Consistent, RuntimeRuns.Midway, FailedWith, Valid, CalculateStepCount;
    var b, p := SR.CreatedForExecution(baseline, sc).0, SR.CreatedForExecution(primary, sc).0;
    CreatedStarts(b, baselineSpec);
    CreatedStarts(p, primarySpec);
    CreatedSound(baseline, sc, baselineSpec);
    CreatedSound(primary, sc, primarySpec);
    var b1, p1 := SR.AfterRun(b, baselineSpec).0, SR.AfterRun(p, primarySpec).0;
    SamePending(b1, p1, sc, [], 0);
    SameEventsAgree(p1.pendingEvents);
  }

  // The simulation `later` is `earlier` after `steps` more calls.
  ghost predicate CallsOn(earlier: SR.RuntimeState, later: SR.RuntimeState, steps: nat) {
    && earlier.primary.Some? && later.primary.Some?
    && later.primary.value.answers == earlier.primary.value.answers
    && later.primary.value.asked == earlier.primary.value.asked + steps
  }

  /** One runtime's part of a comparison tick. */
  lemma RuntimeTick(r: SR.RuntimeState, sc: SimulationScenario, taken: seq<SR.RecordedEvent>, k: nat, n: nat)
    requires LockedOne(r, sc, taken, k) && CalculateStepCount(sc.durationSec, sc.dtSec) == Some(n)
    ensures k < n && SR.Consistent(r) && r.primary.Some?
    ensures var (s, ok) := SR.AfterTick(r);
            && ok == NextAnswer(r).Succeeds? && SR.Consistent(s)
            && (ok ==> s.baseline.None? && ClockOf(s) == StepTime(k + 1, sc.dtSec))
            && (ok && k + 1 < n ==>
                  && RuntimeRuns.Midway(RuntimeRuns.Observed(s, taken), sc, sc.dtSec, k + 1)
                  && s.executionState.Running? && CallsOn(r, s, 1))
            && (ok && k + 1 == n ==> RuntimeRuns.Ended(RuntimeRuns.Observed(s, taken), sc, sc.dtSec, n))
  {
    hide SR.AfterTick, ScenarioRun.Flying, RuntimeRuns.Ended, RuntimeRuns.Opening, SR.Consistent, CalculateStepCount,
         StepTime;
    var o := RuntimeRuns.Observed(r, taken);
    RuntimeRuns.MidwayConsistent(o, sc, sc.dtSec, k);
    RuntimeRuns.FlyingBounds(r.exec.value, r.primary.value, sc, sc.dtSec, k);
    SR.TickKeepsConsistent(r);
    if NextAnswer(r).Succeeds? {
      RuntimeRuns.TickAdvances(o, sc, sc.dtSec, k);
      TickClock(r, sc, taken, k);
    } else {
      RuntimeRuns.FailedStepEndsRun(o, sc, sc.dtSec, k);
    }
  }

  lemma TickClock(r: SR.RuntimeState, sc: SimulationScenario, taken: seq<SR.RecordedEvent>, k: nat)
    requires LockedOne(r, sc, taken, k) && NextAnswer(r).Succeeds?
    ensures var s := SR.AfterTick(r).0;
            && s.baseline.None? && ClockOf(s) == StepTime(k + 1, sc.dtSec)
            && (s.exec.Some? ==> s.executionState == r.executionState)
  {
    var e, t := r.exec.value, r.primary.value;
    ScenarioRun.StepFlies(e, t, sc, sc.dtSec, k);
    var (f, u, result) := Ex.ExecStepped(e, t);
    FlownClock(f, u, sc, k, result.completed);
    hide Ex.ExecStepped, ScenarioRun.Flying, ScenarioRun.Finished, RuntimeRuns.Opening, StepTime, SR.CommandEvents,
         Ex.WellFormed;
  }

  lemma FlownClock(f: Ex.Exec, u: Sim, sc: SimulationScenario, k: nat, completed: bool)
    requires if completed then ScenarioRun.Finished(f, u, sc, sc.dtSec) && k + 1 == f.targetStepCount
             else ScenarioRun.Flying(f, u, sc, sc.dtSec, k + 1)
    ensures u.initialized && u.timeSec == StepTime(k + 1, sc.dtSec)
    ensures completed ==> f.state.Completed?
  {
    hide ScenarioRun.Fired;
  }

  // Before the last step the shared clock is not yet capped.
  lemma ClockUncapped(sc: SimulationScenario, k: nat, n: nat)
    requires CalculateStepCount(sc.durationSec, sc.dtSec) == Some(n) && k < n
    ensures Min(sc.durationSec, StepTime(k, sc.dtSec)) == StepTime(k, sc.dtSec)
  {
    hide CalculateStepCount, StepTime;
    StepCountCovers(sc.durationSec, sc.dtSec);
    StepTimeMonotone(k, n - 1, sc.dtSec);
  }

  // At the last step the clocks exceed the shared clock by this much.
  function Overshoot(sc: SimulationScenario, n: nat): real {
    StepTime(n, sc.dtSec) - sc.durationSec
  }

  // A comparison tick whose two runtimes have both advanced.
  function BothAdvanced(c: ComparisonView): ComparisonView
    requires Sound(c)
  {
    c.(events := [], baseline := SR.AfterTick(c.baseline).0, primary := SR.AfterTick(c.primary).0,
       stepCount := c.stepCount + 1)
  }

  lemma TickCompares(c: ComparisonView)
    requires Sound(c) && c.state.Running? && SR.AfterTick(c.baseline).1 && SR.AfterTick(c.primary).1
    ensures Sound(BothAdvanced(c)) && AfterTick(c) == Compared(BothAdvanced(c))
  {
    hide SR.AfterTick, SR.Consistent, Compared;
    SR.TickKeepsConsistent(c.baseline);
    SR.TickKeepsConsistent(c.primary);
  }

  // The comparison of two runtimes that agree.
  lemma ComparedAgree(c: ComparisonView)
    requires Sound(c) && DivergedVariant(c).None? && c.baseline.pendingEvents == c.primary.pendingEvents
    requires c.baseline.exec.Some? == c.primary.exec.Some? && c.events == []
    ensures var (d, ok) := Compared(c);
            var e := c.(baseline := SR.AfterTakeEvents(c.baseline), primary := SR.AfterTakeEvents(c.primary),
                        events := c.primary.pendingEvents, lastError := NoError);
            && ok
            && (c.baseline.exec.Some? ==> d == e)
            && (c.baseline.exec.None? ==>
                  d == e.(state := Completed, baselineResult := c.baselineResult.(state := Completed),
                          primaryResult := c.primaryResult.(state := Completed)))
  {
    hide SR.Consistent, FailedWith, DivergedVariant;
    SameEventsAgree(c.primary.pendingEvents);
    hide Divergence;
    assert [] + c.primary.pendingEvents == c.primary.pendingEvents;
  }

  // Everything a run of `n` steps emits.
  function WholeRun(sc: SimulationScenario, n: nat): seq<SR.RecordedEvent>
    requires Valid(sc) && n > 0
  {
    RuntimeRuns.Opening(sc, sc.dtSec, ScenarioRun.Fired(Ex.EventSteps(sc.events, sc.dtSec), n - 1))
    + [SR.ScenarioEnd(StepTime(n, sc.dtSec))]
  }

  // Two runtimes that end with the same events collect them without divergence.
  lemma SameEnding(r: SR.RuntimeState, s: SR.RuntimeState, sc: SimulationScenario, taken: seq<SR.RecordedEvent>, n: nat)
    requires RuntimeRuns.Ended(RuntimeRuns.Observed(r, taken), sc, sc.dtSec, n)
    requires RuntimeRuns.Ended(RuntimeRuns.Observed(s, taken), sc, sc.dtSec, n)
    ensures r.pendingEvents == s.pendingEvents && r.exec.None? && s.exec.None?
    ensures Valid(sc) && sc.dtSec > 0.0 && n > 0
    ensures taken + s.pendingEvents == WholeRun(sc, n)
  {
    hide RuntimeRuns.Opening, SR.Consistent, StepTime, CalculateStepCount;
    assert r.pendingEvents == (taken + r.pendingEvents)[|taken|..];
    assert s.pendingEvents == (taken + s.pendingEvents)[|taken|..];
  }

  // Both runtimes of a comparison have flown `stepCount` steps, and nothing is collected yet.
  predicate Abreast(c: ComparisonView, sc: SimulationScenario, taken: seq<SR.RecordedEvent>) {
    && Sound(c) && ResultsMatch(c) && c.state.Running? && c.events == []
    && c.dtSec == sc.dtSec && c.durationSec == sc.durationSec
    && AbreastOne(c.baseline, sc, taken, c.stepCount) && AbreastOne(c.primary, sc, taken, c.stepCount)
  }

  predicate AbreastOne(r: SR.RuntimeState, sc: SimulationScenario, taken: seq<SR.RecordedEvent>, k: nat) {
    && RuntimeRuns.Midway(RuntimeRuns.Observed(r, taken), sc, sc.dtSec, k)
    && r.executionState.Running? && r.baseline.None? && ClockOf(r) == StepTime(k, sc.dtSec)
  }

  lemma BothAdvance(c: ComparisonView, sc: SimulationScenario, taken: seq<SR.RecordedEvent>, n: nat)
    requires Locked(c, sc, taken) && CalculateStepCount(sc.durationSec, sc.dtSec) == Some(n) && c.stepCount + 1 < n
    requires c.baseline.primary.Some? && c.primary.primary.Some?
    requires NextAnswer(c.baseline).Succeeds? && NextAnswer(c.primary).Succeeds?
    ensures Sound(c)
    ensures var d := BothAdvanced(c);
            && Abreast(d, sc, taken) && AfterTick(c) == Compared(d) && d.stepCount == c.stepCount + 1
            && CallsOn(c.baseline, d.baseline, 1) && CallsOn(c.primary, d.primary, 1)
  {
    hide LockedOne, Compared, CalculateStepCount, NextAnswer, SR.AfterTick, RuntimeRuns.Midway, SR.Consistent, StepTime,
         CallsOn, AfterTick;
    RuntimeTick(c.baseline, sc, taken, c.stepCount, n);
    RuntimeTick(c.primary, sc, taken, c.stepCount, n);
    TickCompares(c);
  }

  lemma AbreastIsLocked(d: ComparisonView, sc: SimulationScenario, taken: seq<SR.RecordedEvent>, n: nat)
    requires Abreast(d, sc, taken) && CalculateStepCount(sc.durationSec, sc.dtSec) == Some(n) && d.stepCount < n
    ensures var (e, ok) := Compared(d);
            && ok && Locked(e, sc, taken + e.events) && e.stepCount == d.stepCount
            && e.baseline.primary == d.baseline.primary && e.primary.primary == d.primary.primary
  {
    hide CalculateStepCount, RuntimeRuns.Midway, SR.Consistent, StepTime, LockedOne, Compared;
    var k := d.stepCount;
    ClockUncapped(sc, k, n);
    SamePending(d.baseline, d.primary, sc, taken, k);
    CollectMidway(d.baseline, sc, taken, k);
    CollectMidway(d.primary, sc, taken, k);
    RuntimeRuns.MidwayConsistent(RuntimeRuns.Observed(d.baseline, taken), sc, sc.dtSec, k);
    RuntimeRuns.MidwayConsistent(RuntimeRuns.Observed(d.primary, taken), sc, sc.dtSec, k);
    ComparedAgree(d);
    ComparedSound(d);
  }

  /** A tick before the last one keeps lockstep when both simulations step. */
  lemma TickStaysLocked(c: ComparisonView, sc: SimulationScenario, taken: seq<SR.RecordedEvent>, n: nat)
    requires Locked(c, sc, taken) && CalculateStepCount(sc.durationSec, sc.dtSec) == Some(n) && c.stepCount + 1 < n
    requires c.baseline.primary.Some? && c.primary.primary.Some?
    requires NextAnswer(c.baseline).Succeeds? && NextAnswer(c.primary).Succeeds?
    ensures var (d, ok) := AfterTick(c);
            && ok && Locked(d, sc, taken + d.events) && d.stepCount == c.stepCount + 1
            && CallsOn(c.baseline, d.baseline, 1) && CallsOn(c.primary, d.primary, 1)
  {
    hide Locked, Abreast, Compared, CalculateStepCount, NextAnswer, AfterTick;
    BothAdvance(c, sc, taken, n);
    AbreastIsLocked(BothAdvanced(c), sc, taken, n);
  }

  /** The last tick, when both simulations step: the comparison completes exactly
      when the last step does not pass the duration by more than the tolerance;
      otherwise it fails, and blames the baseline's clock. */
  lemma LastTick(c: ComparisonView, sc: SimulationScenario, taken: seq<SR.RecordedEvent>, n: nat)
    requires Locked(c, sc, taken) && CalculateStepCount(sc.durationSec, sc.dtSec) == Some(n) && c.stepCount + 1 == n
    requires c.baseline.primary.Some? && c.primary.primary.Some?
    requires NextAnswer(c.baseline).Succeeds? && NextAnswer(c.primary).Succeeds?
    ensures var (d, ok) := AfterTick(c);
            && ok == d.state.Completed? == (Overshoot(sc, n) <= CLOCK_TOLERANCE)
            && (ok ==> Valid(sc) && taken + d.events == WholeRun(sc, n))
            && (!ok ==> d.state.Failed? && d.baselineResult == VariantResult(Failed, Some(ClocksDiverged)))
  {
    hide SR.AfterTick, RuntimeRuns.Ended, RuntimeRuns.Midway, SR.Consistent, CalculateStepCount, StepTime, LockedOne,
         WholeRun,
         AfterTick, Compared, Valid, NextAnswer;
    var k := c.stepCount;
    RuntimeTick(c.baseline, sc, taken, k, n);
    RuntimeTick(c.primary, sc, taken, k, n);
    TickCompares(c);
    var d := BothAdvanced(c);
    SameEnding(d.baseline, d.primary, sc, taken, n);
    if Overshoot(sc, n) <= CLOCK_TOLERANCE {
      ComparedAgree(d);
    } else {
      ComparedFails(d);
    }
  }

  lemma ComparedFails(c: ComparisonView)
    requires Sound(c) && DivergedVariant(c) == Some(BaselineVariant)
    ensures var (d, ok) := Compared(c);
            !ok && d.state.Failed? && d.baselineResult == VariantResult(Failed, Some(ClocksDiverged))
  {
    hide DivergedVariant, SR.AfterStop, Collected;
  }

  /** A simulation step that fails ends the comparison: exactly the variant whose
      step failed is Failed, the baseline if both would have. */
  lemma FailingTick(c: ComparisonView, sc: SimulationScenario, taken: seq<SR.RecordedEvent>, n: nat)
    requires Locked(c, sc, taken) && CalculateStepCount(sc.durationSec, sc.dtSec) == Some(n)
    requires c.baseline.primary.Some? && c.primary.primary.Some?
    requires !NextAnswer(c.baseline).Succeeds? || !NextAnswer(c.primary).Succeeds?
    ensures var (d, ok) := AfterTick(c);
            && !ok && d.state.Failed? && ResultsMatch(d)
            && d.baselineResult.state.Failed? == !NextAnswer(c.baseline).Succeeds?
  {
    hide SR.AfterTick, RuntimeRuns.Midway, RuntimeRuns.Ended, SR.Consistent, CalculateStepCount, LockedOne,
         SR.AfterStop, Compared;
    RuntimeTick(c.baseline, sc, taken, c.stepCount, n);
    RuntimeTick(c.primary, sc, taken, c.stepCount, n);
  }

  // Whole runs

  function Run(c: ComparisonView, ticks: nat): (d: ComparisonView)
    requires Sound(c)
    ensures Sound(d)
    decreases ticks
  {
    if ticks == 0 then c
    else
      TickSound(Run(c, ticks - 1));
      AfterTick(Run(c, ticks - 1)).0
  }

  // The observations of a run, one after the other.
  function Emitted(c: ComparisonView, ticks: nat): seq<SR.RecordedEvent>
    requires Sound(c)
    decreases ticks
  {
    if ticks == 0 then c.events else Emitted(c, ticks - 1) + Run(c, ticks).events
  }

  lemma RunLast(c: ComparisonView, ticks: nat)
    requires Sound(c) && ticks > 0
    ensures Run(c, ticks) == AfterTick(Run(c, ticks - 1)).0
    ensures Emitted(c, ticks) == Emitted(c, ticks - 1) + Run(c, ticks).events
  {
    hide AfterTick, Sound;
  }

  // The answer of the simulation to the i-th call from now on.
  function AnswerAt(r: SR.RuntimeState, i: nat): Answer
    requires r.primary.Some?
  {
    r.primary.value.answers(r.primary.value.asked + i)
  }

  // The first `ticks` steps of both simulations succeed.
  ghost predicate StepsSucceed(c: ComparisonView, ticks: nat)
    requires c.baseline.primary.Some? && c.primary.primary.Some?
  {
    forall i :: 0 <= i < ticks ==> AnswerAt(c.baseline, i).Succeeds? && AnswerAt(c.primary, i).Succeeds?
  }

  lemma StepsExtend(c: ComparisonView, ticks: nat)
    requires ticks > 0 && c.baseline.primary.Some? && c.primary.primary.Some?
    ensures StepsSucceed(c, ticks)
        <==> && StepsSucceed(c, ticks - 1)
             && AnswerAt(c.baseline, ticks - 1).Succeeds? && AnswerAt(c.primary, ticks - 1).Succeeds?
  {
  }

  lemma AnswersMove(earlier: SR.RuntimeState, later: SR.RuntimeState, steps: nat)
    requires CallsOn(earlier, later, steps)
    ensures NextAnswer(later) == AnswerAt(earlier, steps)
  {
  }

  /** After every tick before the last: lockstep so far, or already failed. */
  lemma {:induction false} RunLocks(c: ComparisonView, sc: SimulationScenario, n: nat, ticks: nat)
    requires Locked(c, sc, c.events) && c.stepCount == 0 && CalculateStepCount(sc.durationSec, sc.dtSec) == Some(n)
    requires ticks < n
    ensures c.baseline.primary.Some? && c.primary.primary.Some?
    ensures var d := Run(c, ticks);
            if StepsSucceed(c, ticks) then
              && Locked(d, sc, Emitted(c, ticks)) && d.stepCount == ticks
              && CallsOn(c.baseline, d.baseline, ticks) && CallsOn(c.primary, d.primary, ticks)
            else d.state.Failed?
    decreases ticks
  {
    hide Locked, AfterTick, CalculateStepCount, StepsSucceed, Sound, ResultsMatch, Run, Emitted, CallsOn, AnswerAt;
    LockedShape(c, sc, c.events, n);
    if ticks == 0 {
      RunStarts(c);
    } else {
      RunLocks(c, sc, n, ticks - 1);
      RunLast(c, ticks);
      StepsExtend(c, ticks);
      var d := Run(c, ticks - 1);
      if StepsSucceed(c, ticks - 1) {
        NextLocks(c, d, sc, n, ticks, Emitted(c, ticks - 1));
      } else {
        TickOfFailed(d);
      }
    }
  }

  lemma RunStarts(c: ComparisonView)
    requires Sound(c) && c.baseline.primary.Some? && c.primary.primary.Some?
    ensures Run(c, 0) == c && Emitted(c, 0) == c.events && StepsSucceed(c, 0)
    ensures CallsOn(c.baseline, c.baseline, 0) && CallsOn(c.primary, c.primary, 0)
  {
    hide Sound;
  }

  // The next tick of a run that is in lockstep.
  lemma NextLocks(c: ComparisonView, d: ComparisonView, sc: SimulationScenario, n: nat, ticks: nat,
                  taken: seq<SR.RecordedEvent>)
    requires Locked(d, sc, taken) && CalculateStepCount(sc.durationSec, sc.dtSec) == Some(n) && 0 < ticks < n
    requires d.stepCount == ticks - 1 && CallsOn(c.baseline, d.baseline, ticks - 1)
        && CallsOn(c.primary, d.primary, ticks - 1)
    ensures Sound(d)
    ensures var e := AfterTick(d).0;
            if AnswerAt(c.baseline, ticks - 1).Succeeds? && AnswerAt(c.primary, ticks - 1).Succeeds? then
              && Locked(e, sc, taken + e.events) && e.stepCount == ticks
              && CallsOn(c.baseline, e.baseline, ticks) && CallsOn(c.primary, e.primary, ticks)
            else e.state.Failed?
  {
    hide Locked, AfterTick, CalculateStepCount, Sound, NextAnswer, AnswerAt, ResultsMatch;
    LockedShape(d, sc, taken, n);
    AnswersMove(c.baseline, d.baseline, ticks - 1);
    AnswersMove(c.primary, d.primary, ticks - 1);
    if NextAnswer(d.baseline).Succeeds? && NextAnswer(d.primary).Succeeds? {
      TickStaysLocked(d, sc, taken, n);
    } else {
      FailingTick(d, sc, taken, n);
    }
  }

  lemma LockedShape(c: ComparisonView, sc: SimulationScenario, taken: seq<SR.RecordedEvent>, n: nat)
    requires Locked(c, sc, taken) && CalculateStepCount(sc.durationSec, sc.dtSec) == Some(n)
    ensures Sound(c) && c.baseline.primary.Some? && c.primary.primary.Some? && c.state.Running? && ResultsMatch(c)
    ensures c.stepCount < n
  {
    RuntimeTick(c.baseline, sc, taken, c.stepCount, n);
    RuntimeTick(c.primary, sc, taken, c.stepCount, n);
  }

  lemma LockedHasSteps(c: ComparisonView, sc: SimulationScenario, taken: seq<SR.RecordedEvent>)
    requires Locked(c, sc, taken)
    ensures CalculateStepCount(sc.durationSec, sc.dtSec).Some? && Sound(c)
  {
    var o := RuntimeRuns.Observed(c.baseline, taken);
    RuntimeRuns.MidwayConsistent(o, sc, sc.dtSec, c.stepCount);
    RuntimeRuns.FlyingBounds(c.baseline.exec.value, c.baseline.primary.value, sc, sc.dtSec, c.stepCount);
  }

  lemma TickOfFailed(c: ComparisonView)
    requires Sound(c) && c.state.Failed?
    ensures AfterTick(c).0.state.Failed?
  {
  }

  /** For every failure pattern: a created comparison of scenario `sc` is Completed
      after its n ticks exactly when all 2n simulation steps succeed and the last
      step does not overshoot the duration by more than the clock tolerance; it has
      then emitted the whole run's events.  Otherwise it is Failed. */
  lemma CompletesIff(c: ComparisonView, sc: SimulationScenario, n: nat)
    requires Locked(c, sc, c.events) && c.stepCount == 0 && CalculateStepCount(sc.durationSec, sc.dtSec) == Some(n)
    ensures c.baseline.primary.Some? && c.primary.primary.Some?
    ensures var d := Run(c, n);
            && (d.state.Completed? <==> StepsSucceed(c, n) && Overshoot(sc, n) <= CLOCK_TOLERANCE)
            && (d.state.Completed? || d.state.Failed?)
            && (d.state.Completed? ==> Valid(sc) && n > 0 && Emitted(c, n) == WholeRun(sc, n))
  {
    hide Locked, AfterTick, CalculateStepCount, Overshoot, WholeRun, StepsSucceed, Sound, AnswerAt, Run, Emitted,
         StepTime,
         Valid;
    LockedShape(c, sc, c.events, n);
    RunLocks(c, sc, n, n - 1);
    StepsExtend(c, n);
    RunLast(c, n);
    var d := Run(c, n - 1);
    if StepsSucceed(c, n - 1) {
      LockedShape(d, sc, Emitted(c, n - 1), n);
      AnswersMove(c.baseline, d.baseline, n - 1);
      AnswersMove(c.primary, d.primary, n - 1);
      FinalTick(d, sc, Emitted(c, n - 1), n);
    } else {
      TickOfFailed(d);
    }
  }

  lemma FinalTick(d: ComparisonView, sc: SimulationScenario, taken: seq<SR.RecordedEvent>, n: nat)
    requires Locked(d, sc, taken) && CalculateStepCount(sc.durationSec, sc.dtSec) == Some(n) && d.stepCount + 1 == n
    requires d.baseline.primary.Some? && d.primary.primary.Some?
    ensures var e := AfterTick(d).0;
            && (e.state.Completed? <==>
                  NextAnswer(d.baseline).Succeeds? && NextAnswer(d.primary).Succeeds?
                      && Overshoot(sc, n) <= CLOCK_TOLERANCE)
            && (e.state.Completed? || e.state.Failed?)
            && (e.state.Completed? ==> Valid(sc) && taken + e.events == WholeRun(sc, n))
  {
    hide Locked, AfterTick, CalculateStepCount, Overshoot, WholeRun, Sound, NextAnswer, ResultsMatch, Valid;
    LockedShape(d, sc, taken, n);
    if NextAnswer(d.baseline).Succeeds? && NextAnswer(d.primary).Succeeds? {
      LastTick(d, sc, taken, n);
    } else {
      FailingTick(d, sc, taken, n);
    }
  }

  /** Where the duration is a whole number of steps, nothing but a failing step can
      keep the comparison from completing. */
  lemma WholeDurationCompletes(c: ComparisonView, sc: SimulationScenario, n: nat)
    requires Locked(c, sc, c.events) && c.stepCount == 0
    requires n >= 1 && n as real <= MAX_STEP_COUNT && sc.dtSec > 0.0 && sc.durationSec == StepTime(n, sc.dtSec)
    ensures c.baseline.primary.Some? && c.primary.primary.Some?
    ensures Run(c, n).state.Completed? <==> StepsSucceed(c, n)
  {
    hide Locked, CalculateStepCount, Run, StepsSucceed, WholeRun, Emitted;
    ExactStepCount(n, sc.dtSec);
    CompletesIff(c, sc, n);
  }

  const OVERSHOOTING := SimulationScenario("c172x", 1.0000000005, 1.0, [ScenarioEvent(0.0, 0.1)], true)

  /** A valid scenario that no two simulations can complete: its duration is within
      the alignment tolerance of one step, but takes two. */
  lemma OvershootingScenarioFails(baseline: Sim, primary: Sim)
    requires Willing(baseline, BaselineVariant) && Willing(primary, PrimaryVariant)
    ensures Valid(OVERSHOOTING)
    ensures var c := Created(baseline, primary, OVERSHOOTING, Acceptance(true, true)).0;
            c.Some? && Sound(c.value) && Run(c.value, 2).state.Failed?
  {
    var sc := OVERSHOOTING;
    assert sc.durationSec / sc.dtSec == 1.0000000005;
    assert sc.events[0].timeSec / sc.dtSec == 0.0;
    assert WholeSteps(1.0000000005) == 2;
    assert CalculateStepCount(sc.durationSec, sc.dtSec) == Some(2);
    assert Overshoot(sc, 2) > CLOCK_TOLERANCE;
    hide Run, Created, Locked, CalculateStepCount, Valid, WholeSteps, Willing, Sound;
    WillingSimulationsCompare(baseline, primary, sc);
    WillingIsNew(baseline, BaselineVariant);
    WillingIsNew(primary, PrimaryVariant);
    CreatedIsLocked(baseline, primary, sc, Acceptance(true, true));
    var c := Created(baseline, primary, sc, Acceptance(true, true)).0.value;
    LockedShape(c, sc, c.events, 2);
    CompletesIff(c, sc, 2);
  }

  lemma WillingIsNew(s: Sim, variant: Variant)
    requires Willing(s, variant)
    ensures !s.initialized
  {
  }

  // Stopping, and when there is a comparison at all

  lemma StopEmits(r: SR.RuntimeState, sc: SimulationScenario, taken: seq<SR.RecordedEvent>, k: nat)
    requires LockedOne(r, sc, taken, k) && SR.Consistent(r)
    ensures var s := SR.AfterStop(r);
            && s.exec.None? && s.executionState.Stopped?
            && s.pendingEvents == [SR.ScenarioEnd(StepTime(k, sc.dtSec))]
  {
    hide Ex.ExecStopped, ScenarioRun.Fired, RuntimeRuns.Opening, StepTime, Ex.WellFormed;
    assert [] + [SR.ScenarioEnd(StepTime(k, sc.dtSec))] == [SR.ScenarioEnd(StepTime(k, sc.dtSec))];
  }

  /** A comparison that is stopped in lockstep has stopped for both variants, without an
      error, and has emitted the end of the scenario at the time of its last step. */
  lemma StopEnds(c: ComparisonView, sc: SimulationScenario, taken: seq<SR.RecordedEvent>)
    requires Locked(c, sc, taken)
    ensures var d := AfterStop(c);
            && d.state.Stopped? && d.baselineResult.state.Stopped? && d.primaryResult.state.Stopped?
            && d.baselineResult.error == c.baselineResult.error && d.primaryResult.error == c.primaryResult.error
            && d.baseline.exec.None? && d.primary.exec.None?
            && d.events == c.events + [SR.ScenarioEnd(StepTime(c.stepCount, sc.dtSec))]
            && d.stepCount == c.stepCount && d.lastError == c.lastError
  {
    hide SR.AfterStop, SR.Consistent, LockedOne, FailedWith, StepTime;
    StopEmits(c.baseline, sc, taken, c.stepCount);
    StopEmits(c.primary, sc, taken, c.stepCount);
    SameEventsAgree([SR.ScenarioEnd(StepTime(c.stepCount, sc.dtSec))]);
  }

  lemma StartedIsWilling(s: Sim, sc: SimulationScenario, spec: SR.Spec)
    requires !s.initialized && spec.scenario == sc
    requires SR.CreatedForExecution(s, sc).1 && SR.AfterRun(SR.CreatedForExecution(s, sc).0, spec).1
    ensures Valid(sc) && CalculateStepCount(sc.durationSec, sc.dtSec).Some?
    ensures Willing(s, spec.variant) && spec.parametersAccepted
  {
    hide Valid, CalculateStepCount, Ex.ActivateDue, SR.CommandEvents, Ex.EventSteps;
  }

  /** There is a comparison of two new simulations exactly for a valid scenario with a step
      count, if each takes its parameters and is a willing one of its variant. */
  lemma CreatedIff(baseline: Sim, primary: Sim, sc: SimulationScenario, accepted: Acceptance)
    requires !baseline.initialized && !primary.initialized
    ensures Created(baseline, primary, sc, accepted).0.Some?
        <==> && Valid(sc) && CalculateStepCount(sc.durationSec, sc.dtSec).Some?
             && accepted.baseline && Willing(baseline, BaselineVariant)
             && accepted.primary && Willing(primary, PrimaryVariant)
  {
    hide SR.CreatedForExecution, SR.AfterRun, Valid, CalculateStepCount, Willing, Collected;
    if Created(baseline, primary, sc, accepted).0.Some? {
      StartedIsWilling(baseline, sc, SR.Spec(sc, BaselineVariant, accepted.baseline));
      StartedIsWilling(primary, sc, SR.Spec(sc, PrimaryVariant, accepted.primary));
    } else if accepted == Acceptance(true, true)
              && Willing(baseline, BaselineVariant) && Willing(primary, PrimaryVariant)
              && Valid(sc) && CalculateStepCount(sc.durationSec, sc.dtSec).Some? {
      WillingSimulationsCompare(baseline, primary, sc);
    }
  }
}
