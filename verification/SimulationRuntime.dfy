/** The simulation runtime: it owns a primary and an optional baseline simulation,
    steps them interactively, and swaps and restores them around a scenario. */
module SimulationRuntime {
  import opened Prelude
  import opened SimulationModel
  import opened Scenario
  import Ex = ScenarioExecutor

  datatype ExecutionState = Stopped | Running | Paused

  datatype Config = Config(aircraft: string, dtSec: real)

  /** A resolved execution; `parametersAccepted` says whether the autopilot takes
      the controller parameters that come with it. */
  datatype Spec = Spec(scenario: SimulationScenario, variant: Variant, parametersAccepted: bool)

  datatype RecordedEvent =
    | ScenarioStart(simulationTimeSec: real)
    | RollCommandChanged(simulationTimeSec: real, targetRollRad: real)
    | ScenarioEnd(simulationTimeSec: real)

  datatype RuntimeError =
    | NoError | PrimaryMissing | PrimaryInitializationFailed | BaselineInitializationFailed | PrimaryResetFailed
    | BaselineResetFailed | PrimaryStepFailed | BaselineStepFailed | InvalidScenario | VariantMissing
    | ParametersRefused | ExecutorFailed(error: Ex.Error)

  const TIMESTEP_TOLERANCE: real := 0.000000000001
  const TICK_MODULUS: nat := 0x1_0000_0000

  // The runtime's fields; `pendingTicks` is an unsigned 32-bit counter.
  datatype RuntimeState = RuntimeState(
    primary: Option<Sim>, baseline: Option<Sim>, exec: Option<Ex.Exec>, swapped: bool,
    pendingEvents: seq<RecordedEvent>, config: Config, executionState: ExecutionState, pendingTicks: nat,
    initialized: bool, lastError: RuntimeError)

  /** What holds between calls.  A scenario executor exists only while Running or
      Paused; swapped order exists only with an executor; Running means no pending
      ticks; only an initialized runtime leaves Stopped. */
  predicate Consistent(r: RuntimeState) {
    && (r.exec.Some? ==> !r.executionState.Stopped? && Ex.WellFormed(r.exec.value))
    && (r.swapped ==> r.exec.Some? && r.baseline.Some?)
    && (r.executionState.Running? ==> r.pendingTicks == 0)
    && (!r.executionState.Stopped? ==> r.initialized)
    && (r.initialized ==> r.primary.Some? && r.primary.value.initialized)
    && (r.initialized && r.baseline.Some? ==> r.baseline.value.initialized)
    && (r.executionState.Stopped? ==> r.pendingTicks == 0 || r.pendingTicks == TICK_MODULUS - 1)
    && r.pendingTicks < TICK_MODULUS
  }

  // The two simulations in the order the runtime was given them.
  function OriginalOrder(r: RuntimeState): (Option<Sim>, Option<Sim>) {
    if r.swapped then (r.baseline, r.primary) else (r.primary, r.baseline)
  }

  // What each operation does

  function InstancesInitialized(p: Sim, b: Option<Sim>, dtSec: real): (Sim, Option<Sim>, RuntimeError) {
    var (q, ok) := Initialized(p, dtSec);
    if !ok then (q, b, PrimaryInitializationFailed)
    else if b.None? then (q, b, NoError)
    else
      var (c, alsoOk) := Initialized(b.value, dtSec);
      if alsoOk then (q, Some(c), NoError) else (WithoutSession(q), Some(c), BaselineInitializationFailed)
  }

  function InstancesReset(p: Sim, b: Option<Sim>): (Sim, Option<Sim>, RuntimeError) {
    var (q, ok) := WasReset(p);
    if !ok then (q, b, PrimaryResetFailed)
    else if b.None? then (q, b, NoError)
    else
      var (c, alsoOk) := WasReset(b.value);
      (q, Some(c), if alsoOk then NoError else BaselineResetFailed)
  }

  function InstancesStepped(p: Sim, b: Option<Sim>, dtSec: real): (Sim, Option<Sim>, RuntimeError) {
    var (q, ok) := Stepped(p, dtSec);
    if !ok then (q, b, PrimaryStepFailed)
    else if b.None? then (q, b, NoError)
    else
      var (c, alsoOk) := Stepped(b.value, dtSec);
      (q, Some(c), if alsoOk then NoError else BaselineStepFailed)
  }

  function InstancesShutDown(b: Option<Sim>): Option<Sim> {
    if b.None? then None else Some(WithoutSession(b.value))
  }

  function AfterInitialize(r: RuntimeState, config: Config): (RuntimeState, bool) {
    if r.initialized then (r, true)
    else if r.primary.None? then (r.(lastError := PrimaryMissing), false)
    else
      var (p, b, error) := InstancesInitialized(r.primary.value, r.baseline, config.dtSec);
      var s := r.(primary := Some(p), baseline := b, config := config, lastError := error);
      if !error.NoError? then (s, false)
      else (s.(executionState := Stopped, pendingTicks := 0, initialized := true), true)
  }

  function Restored(r: RuntimeState): RuntimeState {
    if r.swapped then r.(primary := r.baseline, baseline := r.primary, swapped := false) else r
  }

  function AfterFinish(r: RuntimeState): RuntimeState
    requires r.exec.Some? ==> r.primary.Some?
  {
    var ended :=
      if r.exec.None? then r
      else
        var s := Ex.ExecStopped(r.exec.value, r.primary.value).1;
        r.(exec := None, primary := Some(s), pendingEvents := r.pendingEvents + [ScenarioEnd(r.primary.value.timeSec)]);
    Restored(ended).(pendingTicks := 0, executionState := Stopped)
  }

  function AfterShutdown(r: RuntimeState): RuntimeState
    requires r.exec.Some? ==> r.primary.Some?
  {
    if !r.initialized && r.primary.None? then r
    else
      var f := if r.exec.Some? then AfterFinish(r) else r;
      var g := f.(executionState := Stopped, pendingTicks := 0, initialized := false);
      if g.primary.None? then g
      else g.(primary := Some(WithoutSession(g.primary.value)), baseline := InstancesShutDown(g.baseline))
  }

  function AfterStart(r: RuntimeState): RuntimeState {
    if r.initialized && r.executionState.Stopped? then r.(pendingTicks := 0, executionState := Running) else r
  }

  function AfterStop(r: RuntimeState): RuntimeState
    requires r.exec.Some? ==> r.primary.Some?
  {
    if r.exec.Some? then AfterFinish(r) else r.(pendingTicks := 0, executionState := Stopped)
  }

  function AfterPause(r: RuntimeState): RuntimeState {
    if r.executionState.Running? then r.(executionState := Paused) else r
  }

  function AfterResume(r: RuntimeState): RuntimeState {
    if r.executionState.Paused? then r.(pendingTicks := 0, executionState := Running) else r
  }

  function AfterReset(r: RuntimeState): (RuntimeState, bool) {
    if r.exec.Some? || !r.initialized || r.primary.None? then (r, false)
    else
      var (p, b, error) := InstancesReset(r.primary.value, r.baseline);
      (r.(primary := Some(p), baseline := b, lastError := error), error.NoError?)
  }

  function AfterRequestTick(r: RuntimeState): RuntimeState {
    if r.executionState.Paused? then r.(pendingTicks := (r.pendingTicks + 1) % TICK_MODULUS) else r
  }

  function CommandEvent(activation: Ex.Activation): RecordedEvent {
    RollCommandChanged(activation.simulationTimeSec, activation.targetRollRad)
  }

  function CommandEvents(activations: seq<Ex.Activation>): (events: seq<RecordedEvent>)
    ensures |events| == |activations|
  {
    if activations == [] then [] else [CommandEvent(activations[0])] + CommandEvents(activations[1..])
  }

  function CommandsRecorded(r: RuntimeState): RuntimeState
    requires r.exec.Some?
  {
    r.(exec := Some(r.exec.value.(pending := [])),
       pendingEvents := r.pendingEvents + CommandEvents(r.exec.value.pending))
  }

  // Both ways of a tick that does something: with and without a scenario.
  function AdvancedScenario(r: RuntimeState): (RuntimeState, Ex.StepResult)
    requires r.exec.Some? && r.primary.Some? && Ex.WellFormed(r.exec.value)
  {
    var (e, s, result) := Ex.ExecStepped(r.exec.value, r.primary.value);
    var stepped := r.(exec := Some(e), primary := Some(s));
    if !result.succeeded then (stepped.(lastError := ExecutorFailed(e.lastError)), result)
    else
      var recorded := CommandsRecorded(stepped);
      (if result.completed then AfterFinish(recorded) else recorded, result)
  }

  function AdvancedInstances(r: RuntimeState): (RuntimeState, bool)
    requires r.primary.Some?
  {
    var (p, b, error) := InstancesStepped(r.primary.value, r.baseline, r.primary.value.tickSizeSec);
    (r.(primary := Some(p), baseline := b, lastError := error), error.NoError?)
  }

  function Advanced(r: RuntimeState): (RuntimeState, bool)
    requires r.primary.Some? && (r.exec.Some? ==> Ex.WellFormed(r.exec.value))
  {
    if r.exec.Some? then (AdvancedScenario(r).0, AdvancedScenario(r).1.succeeded) else AdvancedInstances(r)
  }

  // The end of a tick that did a step: a paused tick uses up one request.
  function Counted(r: RuntimeState, wasPaused: bool): RuntimeState {
    r.(lastError := NoError, pendingTicks := if wasPaused then (r.pendingTicks - 1) % TICK_MODULUS else r.pendingTicks)
  }

  function AfterTick(r: RuntimeState): (RuntimeState, bool)
    requires Consistent(r)
  {
    if r.executionState.Stopped? || (r.executionState.Paused? && r.pendingTicks == 0) then (r, true)
    else
      var (s, ok) := Advanced(r);
      if ok then (Counted(s, r.executionState.Paused?), true) else (s, false)
  }

  function AfterTakeEvents(r: RuntimeState): RuntimeState {
    r.(pendingEvents := [])
  }

  function Reinitialized(r: RuntimeState, scenario: SimulationScenario): (RuntimeState, bool)
    requires r.primary.Some?
  {
    var down := r.(primary := Some(WithoutSession(r.primary.value)), baseline := InstancesShutDown(r.baseline),
                   initialized := false);
    AfterInitialize(down, Config(scenario.aircraft, scenario.dtSec))
  }

  function VariantSelected(r: RuntimeState, variant: Variant): (RuntimeState, bool) {
    if r.primary.Some? && r.primary.value.variant == Some(variant) then (r, true)
    else if r.baseline.Some? && r.baseline.value.variant == Some(variant)
    then (r.(primary := r.baseline, baseline := r.primary, swapped := true), true)
    else (r.(lastError := VariantMissing), false)
  }

  // The last part of RunExecution: the chosen simulation starts the scenario.
  function ScenarioStarted(r: RuntimeState, spec: Spec): (RuntimeState, bool)
    requires r.primary.Some?
  {
    if !spec.parametersAccepted then (Restored(r.(lastError := ParametersRefused)), false)
    else
      var (e, s, ok) := Ex.Started(Ex.IDLE, r.primary.value, spec.scenario, r.primary.value.tickSizeSec);
      var t := r.(primary := Some(s));
      if !ok then (Restored(t.(lastError := ExecutorFailed(e.lastError))), false)
      else
        var recorded := CommandsRecorded(t.(exec := Some(e), pendingEvents := [ScenarioStart(s.timeSec)]));
        (recorded.(pendingTicks := 0, executionState := Running, lastError := NoError), true)
  }

  function MayRun(r: RuntimeState): bool {
    && r.initialized && r.executionState.Stopped? && r.primary.Some? && r.primary.value.initialized
    && (r.baseline.Some? ==> r.baseline.value.initialized)
  }

  // The middle of RunExecution: the configuration and the variant are chosen.
  function RunChoice(r: RuntimeState, spec: Spec): (RuntimeState, bool)
    requires r.primary.Some?
  {
    var fits := spec.scenario.aircraft == r.config.aircraft
             && Abs(spec.scenario.dtSec - r.config.dtSec) <= TIMESTEP_TOLERANCE;
    var (s, ok) := if fits then (r, true) else Reinitialized(r, spec.scenario);
    if ok then VariantSelected(s, spec.variant) else (s, false)
  }

  function AfterRun(r: RuntimeState, spec: Spec): (RuntimeState, bool) {
    if !MayRun(r) then (r, false)
    else if !Valid(spec.scenario) then (r.(lastError := InvalidScenario), false)
    else
      var (s, ok) := RunChoice(r, spec);
      if ok && s.primary.Some? then ScenarioStarted(s, spec) else (s, false)
  }

  // A new runtime.
  function Assembled(primary: Option<Sim>, baseline: Option<Sim>): (r: RuntimeState)
    ensures Consistent(r)
  {
    RuntimeState(primary, baseline, None, false, [], Config("c172x", 1.0 / 120.0), Stopped, 0, false, NoError)
  }

  function CreatedForExecution(s: Sim, scenario: SimulationScenario): (RuntimeState, bool) {
    if !Valid(scenario) then (Assembled(Some(s), None), false)
    else AfterInitialize(Assembled(Some(s), None), Config(scenario.aircraft, scenario.dtSec))
  }

  // Every operation keeps the runtime consistent

  lemma InitializeKeepsConsistent(r: RuntimeState, config: Config)
    requires Consistent(r)
    ensures Consistent(AfterInitialize(r, config).0)
  {
    hide Ex.WellFormed;
  }

  lemma FinishKeepsConsistent(r: RuntimeState)
    requires r.exec.Some? && r.initialized && r.primary.Some? && r.primary.value.initialized
    requires r.baseline.Some? ==> r.baseline.value.initialized
    requires r.swapped ==> r.baseline.Some?
    ensures AfterFinish(r).exec.None? && Consistent(AfterFinish(r))
  {
  }

  lemma AdvancedKeepsConsistent(r: RuntimeState)
    requires Consistent(r) && r.exec.Some?
    ensures var (s, result) := AdvancedScenario(r);
            && s.pendingTicks == (if result.completed then 0 else r.pendingTicks)
            && (if result.completed then s.executionState.Stopped? && s.exec.None?
                else s.executionState == r.executionState)
            && (result.completed ==> result.succeeded)
            && Consistent(s)
  {
    hide Ex.ActivateDue;
    var (e, t, result) := Ex.ExecStepped(r.exec.value, r.primary.value);
    assert t.initialized;
    if result.completed {
      var recorded := CommandsRecorded(r.(exec := Some(e), primary := Some(t)));
      FinishKeepsConsistent(recorded);
    }
  }

  lemma TickKeepsConsistent(r: RuntimeState)
    requires Consistent(r)
    ensures Consistent(AfterTick(r).0)
  {
    hide AdvancedScenario, Ex.WellFormed;
    if r.exec.Some? {
      AdvancedKeepsConsistent(r);
    }
  }

  lemma RunKeepsConsistent(r: RuntimeState, spec: Spec)
    requires Consistent(r)
    ensures Consistent(AfterRun(r, spec).0)
  {
    if MayRun(r) && Valid(spec.scenario) {
      RunChoosesWell(r, spec);
      if RunChoice(r, spec).1 {
        StartKeepsConsistent(RunChoice(r, spec).0, spec);
      }
    }
  }

  lemma RunChoosesWell(r: RuntimeState, spec: Spec)
    requires Consistent(r) && MayRun(r)
    ensures var (t, ok) := RunChoice(r, spec);
            && t.exec.None?
            && (if ok then Ready(t) else Consistent(t))
  {
    hide Ex.WellFormed;
  }

  // A stopped runtime about to start a scenario on its primary simulation.
  predicate Ready(r: RuntimeState) {
    && r.exec.None? && r.executionState.Stopped? && r.initialized
    && r.primary.Some? && r.primary.value.initialized
    && (r.baseline.Some? ==> r.baseline.value.initialized)
    && (r.swapped ==> r.baseline.Some?)
    && (r.pendingTicks == 0 || r.pendingTicks == TICK_MODULUS - 1)
  }

  lemma StartKeepsConsistent(r: RuntimeState, spec: Spec)
    requires Ready(r)
    ensures Consistent(ScenarioStarted(r, spec).0)
  {
    StartedKeepsSession(Ex.IDLE, r.primary.value, spec.scenario, r.primary.value.tickSizeSec);
    hide Ex.Started, Ex.WellFormed;
  }

  lemma StartedKeepsSession(e: Ex.Exec, s: Sim, scenario: SimulationScenario, dtSec: real)
    requires Ex.WellFormed(e)
    ensures Ex.Started(e, s, scenario, dtSec).1.initialized == s.initialized
  {
    hide Ex.ActivateDue, Ex.Prepared, Ex.StartRefusal;
  }

  lemma StoppedIsIdle(r: RuntimeState)
    requires Consistent(r) && r.executionState.Stopped?
    ensures r.exec.None?
  {
  }

  class Runtime {
    var primary: Simulation?
    var baseline: Simulation?
    var executor: Ex.Executor?
    var swapped: bool
    var pendingEvents: seq<RecordedEvent>
    var config: Config
    var executionState: ExecutionState
    var pendingTicks: nat
    var initialized: bool
    var lastError: RuntimeError

    ghost function Footprint(): (f: set<object>)
      reads this
      ensures this in f
    {
      {this} + (if primary == null then {} else {primary}) + (if baseline == null then {} else {baseline})
      + (if executor == null then {} else {executor})
    }

    ghost function View(): RuntimeState
      reads this, Footprint()
    {
      RuntimeState(
        if primary == null then None else Some(primary.View()),
        if baseline == null then None else Some(baseline.View()),
        if executor == null then None else Some(executor.View()),
        swapped, pendingEvents, config, executionState, pendingTicks, initialized, lastError)
    }

    // The executor drives the primary simulation, whichever of the two that is.
    ghost predicate Linked()
      reads this, Footprint()
    {
      && (executor != null ==> executor.Valid() && primary != null && executor.simulation == primary)
      && (primary != null ==> primary != baseline)
    }

    ghost predicate Valid()
      reads this, Footprint()
    {
      Linked() && Consistent(View())
    }

    constructor (primary: Simulation?, baseline: Simulation?)
      requires primary != null ==> primary != baseline
      ensures Valid() && this.primary == primary && this.baseline == baseline
      ensures View() == Assembled(if primary == null then None else Some(primary.View()),
                                  if baseline == null then None else Some(baseline.View()))
    {
      this.primary, this.baseline, executor, swapped := primary, baseline, null, false;
      pendingEvents, config, executionState, pendingTicks := [], Config("c172x", 1.0 / 120.0), Stopped, 0;
      initialized, lastError := false, NoError;
    }

    method InitializeInstances(dtSec: real) returns (ok: bool)
      requires Linked() && primary != null && executor == null
      modifies this`lastError, primary, baseline
      ensures Linked()
      ensures var (p, b, error) := InstancesInitialized(old(primary.View()), old(View()).baseline, dtSec);
              && ok == error.NoError?
              && View() == old(View()).(primary := Some(p), baseline := b, lastError := error)
    {
      ok := primary.Initialize(dtSec);
      if !ok {
        lastError := PrimaryInitializationFailed;
        return;
      }
      if baseline != null {
        ok := baseline.Initialize(dtSec);
        if !ok {
          lastError := BaselineInitializationFailed;
          primary.Shutdown();
          return;
        }
      }
      lastError := NoError;
    }

    method Initialize(newConfig: Config) returns (ok: bool)
      requires Linked() && executor == null
      modifies this, primary, baseline
      ensures Linked() && primary == old(primary) && baseline == old(baseline) && executor == null
      ensures (View(), ok) == AfterInitialize(old(View()), newConfig)
    {
      hide Initialized;
      if initialized {
        return true;
      }
      if primary == null {
        lastError := PrimaryMissing;
        return false;
      }
      config := newConfig;
      ok := InitializeInstances(newConfig.dtSec);
      if !ok {
        return;
      }
      executionState := Stopped;
      pendingTicks := 0;
      initialized := true;
      lastError := NoError;
    }

    method ShutdownInstances()
      requires Linked() && primary != null && executor == null
      modifies primary, baseline
      ensures Linked()
      ensures View() == old(View()).(primary := Some(WithoutSession(old(primary.View()))),
                                     baseline := InstancesShutDown(old(View()).baseline))
    {
      if baseline != null {
        baseline.Shutdown();
      }
      primary.Shutdown();
    }

    method RestoreInteractiveSimulationOrder()
      requires Linked() && executor == null
      modifies this`primary, this`baseline, this`swapped
      ensures Linked() && {primary, baseline} == old({primary, baseline})
      ensures View() == Restored(old(View()))
    {
      if swapped {
        primary, baseline := baseline, primary;
        swapped := false;
      }
    }

    method FinishScenario()
      requires Linked() && (swapped ==> baseline != null)
      modifies this, primary, executor
      ensures Linked() && {primary, baseline} == old({primary, baseline}) && executor == null
      ensures View() == AfterFinish(old(View()))
    {
      if executor != null {
        pendingEvents := pendingEvents + [ScenarioEnd(primary.timeSec)];
        executor.Stop();
        executor := null;
      }
      RestoreInteractiveSimulationOrder();
      pendingTicks := 0;
      executionState := Stopped;
    }

    method Shutdown()
      requires Valid()
      modifies Footprint()
      ensures Valid() && {primary, baseline} == old({primary, baseline}) && executor == null
      ensures Footprint() <= old(Footprint())
      ensures View() == AfterShutdown(old(View()))
    {
      if !initialized && primary == null {
        return;
      }
      if executor != null {
        FinishScenario();
      }
      executionState := Stopped;
      pendingTicks := 0;
      if primary != null {
        ShutdownInstances();
      }
      initialized := false;
    }

    method Start()
      requires Valid()
      modifies Footprint()
      ensures Valid() && primary == old(primary) && baseline == old(baseline) && executor == old(executor)
      ensures Footprint() <= old(Footprint())
      ensures View() == AfterStart(old(View()))
    {
      if initialized && executionState == Stopped {
        pendingTicks := 0;
        executionState := Running;
      }
    }

    method Stop()
      requires Valid()
      modifies Footprint()
      ensures Valid() && {primary, baseline} == old({primary, baseline}) && executor == null
      ensures Footprint() <= old(Footprint())
      ensures View() == AfterStop(old(View()))
    {
      if executor != null {
        FinishScenario();
        return;
      }
      pendingTicks := 0;
      executionState := Stopped;
    }

    method Pause()
      requires Valid()
      modifies Footprint()
      ensures Valid() && primary == old(primary) && baseline == old(baseline) && executor == old(executor)
      ensures Footprint() <= old(Footprint())
      ensures View() == AfterPause(old(View()))
    {
      if executionState == Running {
        executionState := Paused;
      }
    }

    method Resume()
      requires Valid()
      modifies Footprint()
      ensures Valid() && primary == old(primary) && baseline == old(baseline) && executor == old(executor)
      ensures Footprint() <= old(Footprint())
      ensures View() == AfterResume(old(View()))
    {
      if executionState == Paused {
        pendingTicks := 0;
        executionState := Running;
      }
    }

    method Reset() returns (ok: bool)
      requires Valid()
      modifies Footprint()
      ensures Valid() && primary == old(primary) && baseline == old(baseline) && executor == old(executor)
      ensures Footprint() <= old(Footprint())
      ensures (View(), ok) == AfterReset(old(View()))
    {
      if executor != null || !initialized || primary == null {
        return false;
      }
      ok := primary.Reset();
      if !ok {
        lastError := PrimaryResetFailed;
        return;
      }
      if baseline != null {
        ok := baseline.Reset();
        if !ok {
          lastError := BaselineResetFailed;
          return;
        }
      }
      lastError := NoError;
    }

    method RequestTick()
      requires Valid()
      modifies Footprint()
      ensures Valid() && primary == old(primary) && baseline == old(baseline) && executor == old(executor)
      ensures Footprint() <= old(Footprint())
      ensures View() == AfterRequestTick(old(View()))
    {
      if executionState == Paused {
        pendingTicks := (pendingTicks + 1) % TICK_MODULUS;
      }
    }

    method RecordPendingScenarioCommandEvent()
      requires Linked() && executor != null
      modifies this`pendingEvents, executor
      ensures Linked()
      ensures View() == CommandsRecorded(old(View()))
    {
      var activations := executor.TakeCommandActivations();
      ghost var before := pendingEvents;
      for i := 0 to |activations|
        modifies this`pendingEvents
        invariant pendingEvents + CommandEvents(activations[i..]) == before + CommandEvents(activations)
      {
        assert activations[i..][1..] == activations[i + 1..];
        pendingEvents := pendingEvents + [CommandEvent(activations[i])];
      }
    }

    method StepScenario() returns (result: Ex.StepResult)
      requires Valid() && executor != null
      modifies this, primary, executor
      ensures Linked() && {primary, baseline} == old({primary, baseline})
      ensures executor == (if result.succeeded && result.completed then null else old(executor))
      ensures (View(), result) == AdvancedScenario(old(View()))
    {
      hide Ex.ExecStepped;
      result := executor.Step();
      if !result.succeeded {
        lastError := ExecutorFailed(executor.lastError);
        return;
      }
      RecordPendingScenarioCommandEvent();
      if result.completed {
        FinishScenario();
      }
    }

    method StepInstances(dtSec: real) returns (ok: bool)
      requires Linked() && primary != null && executor == null && dtSec == primary.tickSizeSec
      modifies this`lastError, primary, baseline
      ensures Linked()
      ensures (View(), ok) == AdvancedInstances(old(View()))
    {
      ok := primary.Step(dtSec);
      if !ok {
        lastError := PrimaryStepFailed;
        return;
      }
      if baseline != null {
        ok := baseline.Step(dtSec);
        if !ok {
          lastError := BaselineStepFailed;
          return;
        }
      }
      lastError := NoError;
    }

    method Advance() returns (ok: bool)
      requires Valid() && primary != null
      modifies this, primary, baseline, executor
      ensures Linked() && {primary, baseline} == old({primary, baseline}) && executor in {null, old(executor)}
      ensures (View(), ok) == Advanced(old(View()))
    {
      hide AdvancedScenario, AdvancedInstances, Consistent;
      if executor != null {
        var result := StepScenario();
        ok := result.succeeded;
      } else {
        ok := StepInstances(primary.tickSizeSec);
      }
    }

    method Tick() returns (ok: bool)
      requires Valid()
      modifies Footprint()
      ensures Valid() && {primary, baseline} == old({primary, baseline}) && executor in {null, old(executor)}
      ensures Footprint() <= old(Footprint())
      ensures (View(), ok) == AfterTick(old(View()))
    {
      TickKeepsConsistent(View());
      assert executionState != Stopped ==> primary != null;
      hide Advanced, Consistent, Ex.WellFormed, Linked, Counted;
      var isPaused := executionState == Paused;
      if isPaused && pendingTicks == 0 {
        return true;
      }
      if executionState != Running && !isPaused {
        return true;
      }
      ok := Advance();
      if !ok {
        return;
      }
      CountTick(isPaused);
    }

    // The end of `Tick`: a paused tick is used up.
    method CountTick(isPaused: bool)
      requires Linked()
      modifies this`pendingTicks, this`lastError
      ensures Linked()
      ensures View() == Counted(old(View()), isPaused)
    {
      if isPaused {
        pendingTicks := (pendingTicks - 1) % TICK_MODULUS;
      }
      lastError := NoError;
    }

    method ReinitializeForScenario(scenario: SimulationScenario) returns (ok: bool)
      requires Linked() && primary != null && executor == null
      modifies this, primary, baseline
      ensures Linked() && primary == old(primary) && baseline == old(baseline) && executor == null
      ensures (View(), ok) == Reinitialized(old(View()), scenario)
    {
      ShutdownInstances();
      initialized := false;
      ok := Initialize(Config(scenario.aircraft, scenario.dtSec));
    }

    method SelectExecutionVariant(variant: Variant) returns (ok: bool)
      requires Linked() && executor == null
      modifies this`primary, this`baseline, this`swapped, this`lastError
      ensures Linked() && {primary, baseline} == old({primary, baseline})
      ensures ok ==> primary != null
      ensures (View(), ok) == VariantSelected(old(View()), variant)
    {
      if primary != null && primary.variant == Some(variant) {
        return true;
      }
      if baseline != null && baseline.variant == Some(variant) {
        primary, baseline := baseline, primary;
        swapped := true;
        return true;
      }
      lastError := VariantMissing;
      return false;
    }

    method StartScenario(spec: Spec) returns (ok: bool)
      requires Linked() && primary != null && executor == null
      modifies this, primary
      ensures Linked() && {primary, baseline} == old({primary, baseline}) && (executor != null ==> fresh(executor))
      ensures (View(), ok) == ScenarioStarted(old(View()), spec)
    {
      hide Ex.Started, Ex.WellFormed, CommandEvents;
      if !spec.parametersAccepted {
        lastError := ParametersRefused;
        RestoreInteractiveSimulationOrder();
        return false;
      }
      var newExecutor := new Ex.Executor(primary);
      ok := newExecutor.Start(spec.scenario, primary.tickSizeSec);
      if !ok {
        lastError := ExecutorFailed(newExecutor.lastError);
        RestoreInteractiveSimulationOrder();
        return;
      }
      executor := newExecutor;
      pendingEvents := [ScenarioStart(primary.timeSec)];
      assert Linked();
      RecordPendingScenarioCommandEvent();
      ghost var recorded := View();
      pendingTicks := 0;
      executionState := Running;
      lastError := NoError;
      assert View() == recorded.(pendingTicks := 0, executionState := Running, lastError := NoError);
    }

    method RunExecution(spec: Spec) returns (ok: bool)
      requires Valid()
      modifies Footprint()
      ensures Valid() && {primary, baseline} == old({primary, baseline})
      ensures fresh(Footprint() - old(Footprint()))
      ensures executor == old(executor) || fresh(executor)
      ensures (View(), ok) == AfterRun(old(View()), spec)
    {
      hide ScenarioStarted, RunChoice, Consistent, Ex.WellFormed;
      RunKeepsConsistent(View(), spec);
      if executionState == Stopped {
        StoppedIsIdle(View());
      }
      if !initialized || executionState != Stopped || primary == null || !primary.initialized
         || (baseline != null && !baseline.initialized)
      {
        return false;
      }
      if !Scenario.Valid(spec.scenario) {
        lastError := InvalidScenario;
        return false;
      }
      ok := ChooseSimulation(spec);
      if !ok {
        return;
      }
      ok := StartScenario(spec);
    }

    // The middle of `RunExecution`.
    method ChooseSimulation(spec: Spec) returns (ok: bool)
      requires Linked() && primary != null && executor == null
      modifies this, primary, baseline
      ensures Linked() && {primary, baseline} == old({primary, baseline}) && executor == null
      ensures ok ==> primary != null
      ensures (View(), ok) == RunChoice(old(View()), spec)
    {
      hide Reinitialized, VariantSelected;
      if spec.scenario.aircraft != config.aircraft || Abs(spec.scenario.dtSec - config.dtSec) > TIMESTEP_TOLERANCE {
        ok := ReinitializeForScenario(spec.scenario);
        if !ok {
          return;
        }
      }
      ok := SelectExecutionVariant(spec.variant);
    }

    static method CreateForExecution(simulation: Simulation, scenario: SimulationScenario) returns (runtime: Runtime?)
      modifies simulation
      ensures (runtime != null) == CreatedForExecution(old(simulation.View()), scenario).1
      ensures runtime != null ==>
          && fresh(runtime) && runtime.Valid() && fresh(runtime.Footprint() - {simulation})
          && runtime.View() == CreatedForExecution(old(simulation.View()), scenario).0
    {
      hide Initialized, Ex.WellFormed;
      if !Scenario.Valid(scenario) {
        return null;
      }
      runtime := new Runtime(simulation, null);
      ghost var assembled := runtime.View();
      InitializeKeepsConsistent(assembled, Config(scenario.aircraft, scenario.dtSec));
      var ok := runtime.Initialize(Config(scenario.aircraft, scenario.dtSec));
      if !ok {
        return null;
      }
    }

    method GetSimulationTimeSec() returns (timeSec: real)
      ensures timeSec == (if primary != null && primary.initialized then primary.timeSec else 0.0)
    {
      timeSec := if primary != null && primary.initialized then primary.timeSec else 0.0;
    }

    method TakeScenarioEvents() returns (events: seq<RecordedEvent>)
      requires Valid()
      modifies Footprint()
      ensures Valid() && primary == old(primary) && baseline == old(baseline) && executor == old(executor)
      ensures Footprint() <= old(Footprint())
      ensures events == old(pendingEvents) && View() == AfterTakeEvents(old(View()))
    {
      events := pendingEvents;
      pendingEvents := [];
    }
  }
}
