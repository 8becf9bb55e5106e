/** What the operations of the runtime come to, said without their own functions: the step
    size and the aircraft a scenario is flown with, the clocks, and roll hold. */
module RuntimeLaws {
  import opened Prelude
  import opened SimulationModel
  import opened Scenario
  import opened SimulationRuntime
  import opened RuntimeRuns
  import Ex = ScenarioExecutor
  import ScenarioRun

  // The step size

  predicate StepsBy(s: Option<Sim>, dtSec: real) {
    s.Some? ==> s.value.tickSizeSec == dtSec
  }

  predicate NoSession(s: Option<Sim>) {
    s.Some? ==> !s.value.initialized
  }

  /** The simulations of an initialized runtime have the configured step size, and those
      of any other runtime have no session. */
  predicate AtConfiguredStep(r: RuntimeState) {
    if r.initialized then StepsBy(r.primary, r.config.dtSec) && StepsBy(r.baseline, r.config.dtSec)
    else NoSession(r.primary) && NoSession(r.baseline)
  }

  lemma InitializeConfigures(r: RuntimeState, config: Config)
    requires AtConfiguredStep(r)
    ensures AtConfiguredStep(AfterInitialize(r, config).0)
    ensures !r.initialized && AfterInitialize(r, config).1 ==> AfterInitialize(r, config).0.config == config
  {
  }

  lemma FinishKeepsStep(r: RuntimeState)
    requires AtConfiguredStep(r) && (r.exec.Some? ==> r.primary.Some?)
    ensures AtConfiguredStep(AfterFinish(r)) && AfterFinish(r).initialized == r.initialized
    ensures AfterFinish(r).config == r.config
  {
  }

  lemma SteppingKeepsStep(e: Ex.Exec, s: Sim)
    requires Ex.WellFormed(e)
    ensures Ex.ExecStepped(e, s).1.tickSizeSec == s.tickSizeSec
    ensures Ex.ExecStepped(e, s).1.initialized == s.initialized
  {
    hide Ex.ActivateDue, Ex.WellFormed;
  }

  lemma TickKeepsStep(r: RuntimeState)
    requires Consistent(r) && AtConfiguredStep(r)
    ensures AtConfiguredStep(AfterTick(r).0)
  {
    hide Ex.ExecStepped, Ex.WellFormed, AfterFinish, CommandEvents;
    if r.exec.Some? {
      SteppingKeepsStep(r.exec.value, r.primary.value);
      var (e, s, result) := Ex.ExecStepped(r.exec.value, r.primary.value);
      FinishKeepsStep(CommandsRecorded(r.(exec := Some(e), primary := Some(s))));
    }
  }

  lemma ChoiceConfigures(r: RuntimeState, spec: Spec)
    requires MayRun(r) && AtConfiguredStep(r)
    ensures AtConfiguredStep(RunChoice(r, spec).0)
    ensures RunChoice(r, spec).1 ==>
        && RunChoice(r, spec).0.initialized && RunChoice(r, spec).0.primary.Some?
        && FliesAs(r.config, RunChoice(r, spec).0.config, spec.scenario)
  {
    hide AfterInitialize;
    var down := r.(primary := Some(WithoutSession(r.primary.value)), baseline := InstancesShutDown(r.baseline),
                   initialized := false);
    InitializeConfigures(down, Config(spec.scenario.aircraft, spec.scenario.dtSec));
    InitializeSucceeds(down, Config(spec.scenario.aircraft, spec.scenario.dtSec));
  }

  lemma InitializeSucceeds(r: RuntimeState, config: Config)
    ensures AfterInitialize(r, config).1 ==> AfterInitialize(r, config).0.initialized
  {
  }

  predicate Fits(config: Config, scenario: SimulationScenario) {
    && config.aircraft == scenario.aircraft
    && -TIMESTEP_TOLERANCE <= config.dtSec - scenario.dtSec <= TIMESTEP_TOLERANCE
  }

  /** The configuration that a scenario is flown with: the one there was, if it has the
      scenario's aircraft and its step size up to the tolerance, and else the scenario's. */
  predicate FliesAs(before: Config, after: Config, scenario: SimulationScenario) {
    if Fits(before, scenario) then after == before
    else after == Config(scenario.aircraft, scenario.dtSec)
  }

  lemma StartKeepsStep(r: RuntimeState, spec: Spec)
    requires r.initialized && r.primary.Some? && AtConfiguredStep(r) && r.exec.None?
    ensures var (s, ok) := ScenarioStarted(r, spec);
            && AtConfiguredStep(s) && s.config == r.config
            && (ok ==> s.initialized && s.primary.Some? && s.primary.value.tickSizeSec == r.config.dtSec)
  {
    StartingKeepsStep(Ex.IDLE, r.primary.value, spec.scenario, r.primary.value.tickSizeSec);
    hide Ex.Started, Ex.WellFormed, CommandEvents;
  }

  lemma StartingKeepsStep(e: Ex.Exec, s: Sim, scenario: SimulationScenario, dtSec: real)
    requires Ex.WellFormed(e)
    ensures Ex.Started(e, s, scenario, dtSec).1.tickSizeSec == s.tickSizeSec
  {
    hide Ex.ActivateDue, Ex.Prepared, Ex.StartRefusal;
  }

  lemma RunKeepsStep(r: RuntimeState, spec: Spec)
    requires Consistent(r) && AtConfiguredStep(r)
    ensures AtConfiguredStep(AfterRun(r, spec).0)
  {
    if MayRun(r) && Valid(spec.scenario) {
      ChoiceConfigures(r, spec);
      RunChoosesWell(r, spec);
      hide RunChoice, ScenarioStarted, AtConfiguredStep, Consistent;
      if RunChoice(r, spec).1 {
        StartKeepsStep(RunChoice(r, spec).0, spec);
      }
    }
  }

  lemma ShutdownKeepsStep(r: RuntimeState)
    requires Consistent(r) && AtConfiguredStep(r)
    ensures AtConfiguredStep(AfterShutdown(r))
  {
    hide Ex.ExecStopped, Ex.WellFormed;
  }

  lemma ApplyKeepsStep(r: RuntimeState, c: Command)
    requires Consistent(r) && AtConfiguredStep(r)
    ensures AtConfiguredStep(Apply(r, c))
  {
    hide AfterTick, AfterRun, AfterInitialize, AfterFinish, Ex.WellFormed;
    match c
    case Initialize(config) => InitializeConfigures(r, config);
    case Tick => TickKeepsStep(r);
    case RunExecution(spec) => RunKeepsStep(r, spec);
    case Shutdown => ShutdownKeepsStep(r);
    case Stop => if r.exec.Some? { FinishKeepsStep(r); }
    case _ =>
  }

  /** In every run of a new runtime its simulations have the configured step size. */
  lemma {:induction false} RunsAreAtConfiguredStep(r: RuntimeState, commands: seq<Command>)
    requires Consistent(r) && AtConfiguredStep(r)
    ensures AtConfiguredStep(ApplyAll(r, commands))
    decreases |commands|
  {
    hide Apply, AtConfiguredStep, Consistent;
    if commands != [] {
      ApplyKeepsConsistent(r, commands[0]);
      ApplyKeepsStep(r, commands[0]);
      RunsAreAtConfiguredStep(Apply(r, commands[0]), commands[1..]);
    }
  }

  lemma NewIsAtConfiguredStep(primary: Option<Sim>, baseline: Option<Sim>)
    requires NoSession(primary) && NoSession(baseline)
    ensures AtConfiguredStep(Assembled(primary, baseline))
  {
  }

  /** A scenario that starts is flown by the wanted variant, for its own aircraft and with
      its own step size up to the tolerance; the number of steps and the step of every
      event follow from that step size. */
  lemma ScenarioFliesAsConfigured(r: RuntimeState, spec: Spec)
    requires Consistent(r) && AtConfiguredStep(r) && AfterRun(r, spec).1
    ensures var s, scenario := AfterRun(r, spec).0, spec.scenario;
            && FliesAs(r.config, s.config, scenario)
            && s.config.aircraft == scenario.aircraft
            && s.primary.Some? && s.exec.Some?
            && s.primary.value.variant == Some(spec.variant)
            && var dtSec := s.primary.value.tickSizeSec;
               && dtSec == s.config.dtSec && dtSec > 0.0
               && Abs(dtSec - scenario.dtSec) <= TIMESTEP_TOLERANCE
               && s.exec.value.scenario == scenario && s.exec.value.dtSec == dtSec
               && CalculateStepCount(scenario.durationSec, dtSec) == Some(s.exec.value.targetStepCount)
               && Valid(scenario) && s.exec.value.eventStepIndices == Ex.EventSteps(scenario.events, dtSec)
  {
    ExecutionOpens(r, spec);
    var s := AfterRun(r, spec).0;
    var dtSec := s.primary.value.tickSizeSec;
    FlyingIgnoresPending(s.exec.value, s.primary.value, spec.scenario, dtSec, 0);
    FlyingStep(s.exec.value, s.primary.value, spec.scenario, dtSec, 0);
    ChoiceConfigures(r, spec);
    RunChoosesWell(r, spec);
    StartKeepsStep(RunChoice(r, spec).0, spec);
    hide RunChoice, ScenarioStarted, Consistent, ScenarioRun.Flying, Ex.EventSteps, CalculateStepCount, Valid,
         AtConfiguredStep, Opening;
  }

  lemma FlyingStep(e: Ex.Exec, s: Sim, sc: SimulationScenario, dtSec: real, k: nat)
    requires ScenarioRun.Flying(e, s, sc, dtSec, k)
    ensures e.dtSec == dtSec
  {
    hide ScenarioRun.Fired;
  }

  /** Unless the runtime already stood at a step size within the tolerance of the
      scenario's, the scenario is flown in exactly the number of steps it asks for. */
  lemma ScenarioTakesItsSteps(r: RuntimeState, spec: Spec)
    requires Consistent(r) && AtConfiguredStep(r) && AfterRun(r, spec).1
    requires r.config.dtSec == spec.scenario.dtSec || Abs(r.config.dtSec - spec.scenario.dtSec) > TIMESTEP_TOLERANCE
    ensures var s, scenario := AfterRun(r, spec).0, spec.scenario;
            && s.exec.Some? && Valid(scenario) && s.exec.value.dtSec == scenario.dtSec
            && CalculateStepCount(scenario.durationSec, scenario.dtSec) == Some(s.exec.value.targetStepCount)
            && s.exec.value.eventStepIndices == Ex.EventSteps(scenario.events, scenario.dtSec)
  {
    ScenarioFliesAsConfigured(r, spec);
    hide AfterRun, Consistent, AtConfiguredStep, Valid, CalculateStepCount, Ex.EventSteps;
  }

  const HALF_MINUTE := SimulationScenario("c172x", 30.0, 0.01, [ScenarioEvent(5.0, 0.1)], true)

  /** A runtime that stands at 120 steps a second flies a scenario of 30 seconds at 0.01
      seconds a step in 3000 steps, with its event at 5 seconds due at step 500. */
  lemma HalfMinuteIsReconfigured(r: RuntimeState, spec: Spec)
    requires Consistent(r) && AtConfiguredStep(r) && r.config == Config("c172x", 1.0 / 120.0)
    requires spec.scenario == HALF_MINUTE && AfterRun(r, spec).1
    ensures var s := AfterRun(r, spec).0;
            && s.exec.Some? && s.exec.value.dtSec == 0.01
            && s.exec.value.targetStepCount == 3000 && s.exec.value.eventStepIndices == [500]
  {
    hide AfterRun, Consistent, AtConfiguredStep, CalculateStepCount;
    ScenarioTakesItsSteps(r, spec);
    ExactStepCount(3000, 0.01);
    assert StepTime(3000, 0.01) == 30.0;
    assert 5.0 / 0.01 == 500.0;
    assert EventStep(5.0, 0.01) == 500;
  }

  // When a scenario starts

  /** A start succeeds exactly on an initialized simulation with roll hold and with the
      wanted step size up to the tolerance, for a valid scenario with a step count, if no
      run is in progress and the simulation takes the reset. */
  lemma StartsIff(e: Ex.Exec, s: Sim, scenario: SimulationScenario, dtSec: real)
    requires Ex.WellFormed(e)
    ensures Ex.Started(e, s, scenario, dtSec).2
        <==> && !e.state.Running? && s.initialized && s.supportsRollHold && s.answers(s.asked).Succeeds?
             && Valid(scenario) && CalculateStepCount(scenario.durationSec, dtSec).Some?
             && Abs(s.tickSizeSec - dtSec) <= TIMESTEP_TOLERANCE
  {
    hide Valid, CalculateStepCount, Ex.EventSteps, Ex.ActivateDue, Ex.WellFormed;
  }

  // A simulation of the wanted variant that takes the calls up to the `n`-th from now on.
  predicate Flies(s: Sim, variant: Variant, n: nat) {
    s.variant == Some(variant) && s.supportsRollHold && s.answers(s.asked + n).Succeeds?
  }

  predicate Answers(s: Option<Sim>) {
    s.Some? ==> s.value.answers(s.value.asked).Succeeds?
  }

  // The first of the two simulations that is of the wanted variant.
  predicate ChosenFlies(r: RuntimeState, variant: Variant, n: nat)
    requires r.primary.Some?
  {
    if r.primary.value.variant == Some(variant) then Flies(r.primary.value, variant, n)
    else r.baseline.Some? && Flies(r.baseline.value, variant, n)
  }

  /** The step size that a scenario would be flown with. */
  function StepFor(r: RuntimeState, scenario: SimulationScenario): real {
    if Fits(r.config, scenario) then r.config.dtSec else scenario.dtSec
  }

  lemma RunNeedsSessions(r: RuntimeState, spec: Spec)
    requires Consistent(r)
    ensures MayRun(r) <==> r.initialized && r.executionState.Stopped? && r.primary.Some?
  {
    hide Ex.WellFormed;
  }

  // The choice of the configuration and the variant succeeds, and which simulation it makes ready.
  lemma ChoiceIff(r: RuntimeState, spec: Spec)
    requires Consistent(r) && MayRun(r) && AtConfiguredStep(r)
    ensures var (s, ok), n := RunChoice(r, spec), if Fits(r.config, spec.scenario) then 0 else 1;
            && (ok ==> s.primary.Some? && s.primary.value.variant == Some(spec.variant) && s.primary.value.initialized
                       && s.primary.value.tickSizeSec == StepFor(r, spec.scenario))
            && (ok && Flies(s.primary.value, spec.variant, 0) <==>
                  (n == 1 ==> Answers(r.primary) && Answers(r.baseline)) && ChosenFlies(r, spec.variant, n))
  {
    hide Ex.WellFormed;
  }

  /** A scenario starts exactly on a stopped, initialized runtime, if it is valid and has a
      step count, its parameters are taken, and the wanted variant has roll hold and takes
      the reset; where the runtime has to be reconfigured both simulations must take that
      before. */
  lemma RunSucceedsIff(r: RuntimeState, spec: Spec)
    requires Consistent(r) && AtConfiguredStep(r)
    ensures AfterRun(r, spec).1
        <==> && r.initialized && r.executionState.Stopped? && r.primary.Some?
             && Valid(spec.scenario) && spec.parametersAccepted
             && CalculateStepCount(spec.scenario.durationSec, StepFor(r, spec.scenario)).Some?
             && (if Fits(r.config, spec.scenario) then ChosenFlies(r, spec.variant, 0)
                 else Answers(r.primary) && Answers(r.baseline) && ChosenFlies(r, spec.variant, 1))
  {
    if MayRun(r) && Valid(spec.scenario) {
      ChoiceConfigures(r, spec);
      ChoiceIff(r, spec);
      RunChoosesWell(r, spec);
      hide RunChoice, Consistent, AtConfiguredStep, Valid, CalculateStepCount, Ex.Started;
      var (s, ok) := RunChoice(r, spec);
      if ok {
        StartsIff(Ex.IDLE, s.primary.value, spec.scenario, s.primary.value.tickSizeSec);
      }
    }
    RunNeedsSessions(r, spec);
  }

  // The clocks

  // A simulation answers its next step with success, or is not there.
  predicate StepWillSucceed(s: Option<Sim>, dtSec: real) {
    s.Some? ==> dtSec > 0.0 && s.value.answers(s.value.asked).Succeeds?
  }

  predicate ClockAdvanced(s: Option<Sim>, t: Option<Sim>, dtSec: real) {
    s.Some? == t.Some? && (s.Some? ==> t.value.timeSec == s.value.timeSec + dtSec)
  }

  predicate ClockStood(s: Option<Sim>, t: Option<Sim>) {
    s.Some? == t.Some? && (s.Some? ==> t.value.timeSec == s.value.timeSec)
  }

  /** An interactive tick that is to do a step succeeds exactly when both simulations step;
      then both clocks have advanced by the configured step size.  Any other tick succeeds
      and moves no clock. */
  lemma InteractiveTick(r: RuntimeState)
    requires Consistent(r) && AtConfiguredStep(r) && r.exec.None?
    ensures var (s, ok) := AfterTick(r);
            if Effective(r, Tick) then
              && (ok <==> StepWillSucceed(r.primary, r.config.dtSec) && StepWillSucceed(r.baseline, r.config.dtSec))
              && (ok ==> ClockAdvanced(r.primary, s.primary, r.config.dtSec)
                         && ClockAdvanced(r.baseline, s.baseline, r.config.dtSec))
            else ok && ClockStood(r.primary, s.primary) && ClockStood(r.baseline, s.baseline)
  {
    hide Ex.WellFormed;
  }

  /** A tick of a scenario moves the clock of the primary simulation alone. */
  lemma ScenarioTickSparesBaseline(r: RuntimeState)
    requires Consistent(r) && r.exec.Some?
    ensures var s, (p, b) := AfterTick(r).0, OriginalOrder(r);
            (if r.swapped then OriginalOrder(s).0 == p else OriginalOrder(s).1 == b)
  {
    hide Ex.ExecStepped, Ex.WellFormed, Ex.ExecStopped, CommandEvents;
  }

  /** A reset succeeds exactly when no scenario runs and both simulations take it, and
      puts both clocks to zero. */
  lemma ResetMeans(r: RuntimeState)
    requires Consistent(r)
    ensures var (s, ok) := AfterReset(r);
            && (ok <==> && r.exec.None? && r.initialized
                        && WillAnswer(r.primary) && WillAnswer(r.baseline))
            && (ok ==> AtZero(s.primary) && AtZero(s.baseline))
            && (r.exec.Some? || !r.initialized ==> s == r)
  {
    hide Ex.WellFormed;
  }

  predicate WillAnswer(s: Option<Sim>) {
    s.Some? ==> s.value.answers(s.value.asked).Succeeds?
  }

  predicate AtZero(s: Option<Sim>) {
    s.Some? ==> s.value.timeSec == 0.0
  }

  // Errors

  lemma StepTells(e: Ex.Exec, s: Sim)
    requires Ex.WellFormed(e)
    ensures var (f, _, result) := Ex.ExecStepped(e, s);
            (!result.succeeded ==> !f.lastError.NoError?) && (result.completed ==> result.succeeded)
  {
    hide Ex.ActivateDue, Ex.WellFormed;
  }

  /** A start that succeeds leaves no error, and one that fails leaves one. */
  lemma StartTells(e: Ex.Exec, s: Sim, scenario: SimulationScenario, dtSec: real)
    requires Ex.WellFormed(e)
    ensures var (f, _, ok) := Ex.Started(e, s, scenario, dtSec); ok <==> f.lastError.NoError?
  {
    hide Valid, CalculateStepCount, Ex.EventSteps, Ex.WellFormed;
    if !e.state.Running? && Ex.StartRefusal(s, scenario, dtSec).NoError? {
      StepCountCovers(scenario.durationSec, dtSec);
      var prepared := Ex.Prepared(e.(lastError := Ex.NoError, pending := []), scenario, dtSec);
      ActivationKeepsError(prepared.(state := Ex.Running), WasReset(s).0.timeSec);
    }
    hide Ex.ActivateDue;
  }

  lemma {:induction false} ActivationKeepsError(e: Ex.Exec, timeSec: real)
    requires Ex.WellFormed(e)
    ensures Ex.ActivateDue(e, timeSec).lastError == e.lastError
    decreases |e.scenario.events| - e.nextEventIndex
  {
    if e.nextEventIndex < |e.scenario.events| && e.stepCount >= e.eventStepIndices[e.nextEventIndex] {
      var target := e.scenario.events[e.nextEventIndex].rollRad;
      ActivationKeepsError(e.(targetRollRad := target, commandActive := true,
                              pending := e.pending + [Ex.Activation(timeSec, target)],
                              nextEventIndex := e.nextEventIndex + 1), timeSec);
    }
  }

  /** The runtime's last error tells how a tick, an initialization, a reset or a start of a
      scenario ended, unless it was not even tried. */
  lemma LastErrorTells(r: RuntimeState, config: Config, spec: Spec)
    requires Consistent(r)
    ensures var (s, ok) := AfterTick(r);
            if Effective(r, Tick) then ok <==> s.lastError.NoError? else ok && s == r
    ensures var (s, ok) := AfterInitialize(r, config);
            if r.initialized then ok && s == r else ok <==> s.lastError.NoError?
    ensures var (s, ok) := AfterReset(r);
            if r.exec.Some? || !r.initialized then !ok && s == r else ok <==> s.lastError.NoError?
    ensures var (s, ok) := AfterRun(r, spec); if MayRun(r) then ok <==> s.lastError.NoError? else !ok && s == r
  {
    hide Ex.WellFormed, Valid, CommandEvents, Ex.Started, Ex.ExecStepped, AfterFinish;
    if r.exec.Some? {
      StepTells(r.exec.value, r.primary.value);
    }
    RunTells(r, spec);
    hide AfterRun;
  }

  lemma RunTells(r: RuntimeState, spec: Spec)
    requires Consistent(r)
    ensures var (s, ok) := AfterRun(r, spec); if MayRun(r) then ok <==> s.lastError.NoError? else !ok && s == r
  {
    hide Ex.WellFormed, Valid, CommandEvents, Ex.Started;
    if MayRun(r) && Valid(spec.scenario) {
      RunChoosesWell(r, spec);
    }
  }

  // Roll hold

  predicate HandsOff(s: Option<Sim>) {
    s.Some? ==> !s.value.control.enabled
  }

  /** Stopping turns roll hold off in a simulation that has it, and ends a running
      executor; one that has failed had turned it off already. */
  lemma StopTurnsRollHoldOff(e: Ex.Exec, s: Sim)
    requires e.state.Running? && s.supportsRollHold
    ensures !Ex.ExecStopped(e, s).1.control.enabled && Ex.ExecStopped(e, s).0.state.Stopped?
  {
  }

  /** Roll hold is on only in the primary simulation, and only while an executor flies it. */
  predicate HeldByExecutor(r: RuntimeState) {
    && HandsOff(r.baseline)
    && (r.exec.None? || !r.exec.value.state.Running? ==> HandsOff(r.primary))
    && (r.exec.Some? ==> r.primary.Some? && r.primary.value.supportsRollHold)
  }

  lemma FinishLetsGo(r: RuntimeState)
    requires HeldByExecutor(r)
    ensures HeldByExecutor(AfterFinish(r)) && HandsOff(AfterFinish(r).primary)
    ensures AfterFinish(r).exec.None?
  {
  }

  // A step that does not succeed and go on lets go.
  lemma StepLetsGo(e: Ex.Exec, s: Sim)
    requires Ex.WellFormed(e) && s.supportsRollHold && (e.state.Running? || !s.control.enabled)
    ensures var (f, t, result) := Ex.ExecStepped(e, s);
            t.supportsRollHold && (f.state.Running? || !t.control.enabled)
  {
    hide Ex.ActivateDue, Ex.WellFormed;
    ActivationKeepsRun(e, s.timeSec);
  }

  lemma TickLetsGo(r: RuntimeState)
    requires Consistent(r) && HeldByExecutor(r)
    ensures HeldByExecutor(AfterTick(r).0)
  {
    hide Ex.ExecStepped, Ex.WellFormed, AfterFinish, CommandEvents;
    if r.exec.Some? {
      StepLetsGo(r.exec.value, r.primary.value);
      var (e, s, result) := Ex.ExecStepped(r.exec.value, r.primary.value);
      FinishLetsGo(CommandsRecorded(r.(exec := Some(e), primary := Some(s))));
    }
  }

  lemma StartLetsGo(s: Sim, scenario: SimulationScenario, dtSec: real)
    requires !s.control.enabled
    ensures var (f, t, ok) := Ex.Started(Ex.IDLE, s, scenario, dtSec);
            if ok then f.state.Running? && t.supportsRollHold else !t.control.enabled
  {
    hide Ex.ActivateDue, Ex.WellFormed, Valid, CalculateStepCount, Ex.EventSteps;
    if Ex.StartRefusal(s, scenario, dtSec).NoError? {
      StepCountCovers(scenario.durationSec, dtSec);
      var prepared := Ex.Prepared(Ex.IDLE.(lastError := Ex.NoError, pending := []), scenario, dtSec);
      ActivationKeepsRun(prepared.(state := Ex.Running), WasReset(s).0.timeSec);
    }
  }

  lemma RunLetsGo(r: RuntimeState, spec: Spec)
    requires Consistent(r) && HeldByExecutor(r)
    ensures HeldByExecutor(AfterRun(r, spec).0)
  {
    if MayRun(r) && Valid(spec.scenario) {
      ChoiceLetsGo(r, spec);
      var s := RunChoice(r, spec).0;
      hide RunChoice, Consistent, MayRun, Ex.Started, CommandEvents, Ex.WellFormed;
      if RunChoice(r, spec).1 && s.primary.Some? {
        StartLetsGo(s.primary.value, spec.scenario, s.primary.value.tickSizeSec);
      }
    }
  }

  lemma ChoiceLetsGo(r: RuntimeState, spec: Spec)
    requires Consistent(r) && MayRun(r) && HeldByExecutor(r)
    ensures HeldByExecutor(RunChoice(r, spec).0) && RunChoice(r, spec).0.exec.None?
    ensures HandsOff(RunChoice(r, spec).0.primary)
  {
    hide Ex.WellFormed;
  }

  lemma ApplyLetsGo(r: RuntimeState, c: Command)
    requires Consistent(r) && HeldByExecutor(r)
    ensures HeldByExecutor(Apply(r, c))
    ensures c.Stop? || c.Shutdown? ==> HandsOff(Apply(r, c).primary) && HandsOff(Apply(r, c).baseline)
  {
    hide AfterTick, AfterRun, AfterFinish, Ex.WellFormed;
    match c
    case Tick => TickLetsGo(r);
    case RunExecution(spec) => RunLetsGo(r, spec);
    case Shutdown => if r.exec.Some? { FinishLetsGo(r); }
    case Stop => if r.exec.Some? { FinishLetsGo(r); }
    case _ =>
  }

  /** Over all runs: roll hold is on only while a scenario is being flown, and only in the
      simulation that flies it; so Stop and Shutdown leave it off everywhere. */
  lemma {:induction false} RollHoldOnlyInFlight(r: RuntimeState, commands: seq<Command>)
    requires Consistent(r) && HeldByExecutor(r)
    ensures HeldByExecutor(ApplyAll(r, commands))
    ensures commands != [] && Ends(commands[|commands| - 1]) ==>
        HandsOff(ApplyAll(r, commands).primary) && HandsOff(ApplyAll(r, commands).baseline)
    decreases |commands|
  {
    hide Apply, HeldByExecutor, Consistent;
    if commands != [] {
      ApplyKeepsConsistent(r, commands[0]);
      ApplyLetsGo(r, commands[0]);
      RollHoldOnlyInFlight(Apply(r, commands[0]), commands[1..]);
    }
  }

  // Starting, pausing and stopping

  /** What each control leaves: Start and Resume run, Pause pauses, Stop stops and ends any
      scenario; where they do not apply nothing changes. */
  lemma ControlsMean(r: RuntimeState, c: Command)
    requires Consistent(r) && (c.Start? || c.Pause? || c.Resume? || c.Stop?)
    ensures var s := Apply(r, c);
            && (c.Start? && r.initialized && r.executionState.Stopped? ==> s.executionState.Running?)
            && (c.Pause? && r.executionState.Running? ==> s.executionState.Paused? && s.pendingTicks == 0)
            && (c.Resume? && r.executionState.Paused? ==> s.executionState.Running? && s.pendingTicks == 0)
            && (c.Stop? ==> s.executionState.Stopped? && s.pendingTicks == 0 && s.exec.None?)
            && (!c.Stop? && s.executionState == r.executionState ==> s == r)
            && (!c.Stop? ==> s.(executionState := r.executionState, pendingTicks := r.pendingTicks) == r)
  {
  }

  function Repeated(c: Command, n: nat): (commands: seq<Command>)
    ensures |commands| == n && forall i :: 0 <= i < n ==> commands[i] == c
  {
    seq(n, _ => c)
  }

  lemma RequestCounts(r: RuntimeState)
    requires Consistent(r) && r.executionState.Paused?
    ensures Consistent(Apply(r, RequestTick))
    ensures Apply(r, RequestTick) == r.(pendingTicks := (r.pendingTicks + 1) % TICK_MODULUS)
  {
    hide Ex.WellFormed;
  }

  lemma BelowModulus(r: RuntimeState)
    requires Consistent(r)
    ensures r.pendingTicks < TICK_MODULUS
  {
  }

  /** Ticks requested during a pause are counted modulo 2^32 and change nothing else. */
  lemma {:induction false} RequestsCount(r: RuntimeState, n: nat)
    requires Consistent(r) && r.executionState.Paused?
    ensures ApplyAll(r, Repeated(RequestTick, n)) == r.(pendingTicks := (r.pendingTicks + n) % TICK_MODULUS)
    decreases n
  {
    hide Consistent, Apply;
    if n > 0 {
      RequestCounts(r);
      RequestsCount(Apply(r, RequestTick), n - 1);
      assert Repeated(RequestTick, n)[1..] == Repeated(RequestTick, n - 1);
    }
    BelowModulus(r);
  }

  // Both simulations step whenever they are asked to.
  ghost predicate Willing(s: Option<Sim>) {
    s.Some? ==> forall k: nat :: s.value.answers(k).Succeeds?
  }

  predicate ClockAt(s: Option<Sim>, t: Option<Sim>, steps: nat, dtSec: real) {
    s.Some? == t.Some? && (s.Some? ==> t.value.timeSec == s.value.timeSec + StepTime(steps, dtSec))
  }

  lemma StepTimeNext(k: nat, dtSec: real)
    ensures StepTime(k + 1, dtSec) == dtSec + StepTime(k, dtSec)
  {
  }

  // A paused tick of willing simulations, without a scenario.
  lemma PausedTick(r: RuntimeState)
    requires Consistent(r) && AtConfiguredStep(r) && r.executionState.Paused? && r.exec.None?
    requires r.config.dtSec > 0.0 && Willing(r.primary) && Willing(r.baseline)
    ensures var s := Apply(r, Tick);
            && Consistent(s) && AtConfiguredStep(s) && s.executionState.Paused? && s.exec.None? && s.config == r.config
            && Willing(s.primary) && Willing(s.baseline)
            && (if r.pendingTicks == 0 then s == r
                else
                  && s.pendingTicks == r.pendingTicks - 1
                  && ClockAdvanced(r.primary, s.primary, r.config.dtSec)
                  && ClockAdvanced(r.baseline, s.baseline, r.config.dtSec))
  {
    hide Ex.WellFormed;
    TickKeepsConsistent(r);
    TickKeepsStep(r);
  }

  lemma ClocksJoin(s: Option<Sim>, t: Option<Sim>, u: Option<Sim>, k: nat, dtSec: real)
    requires ClockAdvanced(s, t, dtSec) && ClockAt(t, u, k, dtSec)
    ensures ClockAt(s, u, k + 1, dtSec)
  {
    hide StepTime;
    StepTimeNext(k, dtSec);
  }

  lemma NoStepTakesNoTime(dtSec: real)
    ensures StepTime(0, dtSec) == 0.0
  {
  }

  /** Each requested tick does one step, on both simulations, and no more than were
      requested are done, however often the paused runtime is ticked. */
  lemma {:induction false} RequestedTicksStep(r: RuntimeState, n: nat)
    requires Consistent(r) && AtConfiguredStep(r) && r.executionState.Paused? && r.exec.None?
    requires r.config.dtSec > 0.0 && Willing(r.primary) && Willing(r.baseline)
    ensures var s, steps := ApplyAll(r, Repeated(Tick, n)), if n < r.pendingTicks then n else r.pendingTicks;
            && s.executionState.Paused? && s.pendingTicks == r.pendingTicks - steps
            && ClockAt(r.primary, s.primary, steps, r.config.dtSec)
            && ClockAt(r.baseline, s.baseline, steps, r.config.dtSec)
    decreases n
  {
    hide Apply, AtConfiguredStep, StepTime, Consistent;
    NoStepTakesNoTime(r.config.dtSec);
    if n > 0 {
      PausedTick(r);
      var s := Apply(r, Tick);
      assert Repeated(Tick, n)[1..] == Repeated(Tick, n - 1);
      RequestedTicksStep(s, n - 1);
      if r.pendingTicks > 0 {
        var t, k := ApplyAll(r, Repeated(Tick, n)), if n < r.pendingTicks then n - 1 else r.pendingTicks - 1;
        ClocksJoin(r.primary, s.primary, t.primary, k, r.config.dtSec);
        ClocksJoin(r.baseline, s.baseline, t.baseline, k, r.config.dtSec);
      }
    }
  }
}
