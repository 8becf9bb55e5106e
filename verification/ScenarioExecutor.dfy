/** The scenario executor: it drives one simulation through a fixed number of
    steps and applies the commands of the scenario when their step has come. */
module ScenarioExecutor {
  import opened Prelude
  import opened SimulationModel
  import opened Scenario

  datatype State = Idle | Running | Completed | Stopped | Failed

  // The message the source leaves in `lastError_`.
  datatype Error =
    | NoError | AlreadyRunning | NotInitialized | InvalidScenario | InvalidStepCount | TimestepMismatch
    | NoRollHold | ResetFailed | InitialControlFailed | NotRunning | ControlFailed | StepFailed

  // A command that was applied, with the simulation time at which it was.
  datatype Activation = Activation(simulationTimeSec: real, targetRollRad: real)

  datatype StepResult = StepResult(succeeded: bool, completed: bool)

  const TIMESTEP_TOLERANCE: real := 0.000000000001

  // The executor's fields.
  datatype Exec = Exec(
    state: State, scenario: SimulationScenario, dtSec: real, targetStepCount: nat, eventStepIndices: seq<nat>,
    stepCount: nat, nextEventIndex: nat, commandActive: bool, targetRollRad: real,
    pending: seq<Activation>, lastError: Error)

  predicate WellFormed(e: Exec) {
    |e.eventStepIndices| == |e.scenario.events| && e.nextEventIndex <= |e.scenario.events|
  }

  function EventSteps(events: seq<ScenarioEvent>, dtSec: real): (indices: seq<nat>)
    requires dtSec > 0.0 && forall i :: 0 <= i < |events| ==> events[i].timeSec >= 0.0
    ensures |indices| == |events|
    ensures forall i :: 0 <= i < |events| ==> indices[i] == EventStep(events[i].timeSec, dtSec)
  {
    seq(|events|, i requires 0 <= i < |events| => EventStep(events[i].timeSec, dtSec))
  }

  // What each operation does, on the executor's fields and its simulation

  function ActivateDue(e: Exec, timeSec: real): (f: Exec)
    requires WellFormed(e)
    ensures WellFormed(f)
    decreases |e.scenario.events| - e.nextEventIndex
  {
    if e.nextEventIndex < |e.scenario.events| && e.stepCount >= e.eventStepIndices[e.nextEventIndex] then
      var target := e.scenario.events[e.nextEventIndex].rollRad;
      ActivateDue(e.(targetRollRad := target, commandActive := true,
                     pending := e.pending + [Activation(timeSec, target)],
                     nextEventIndex := e.nextEventIndex + 1), timeSec)
    else
      e
  }

  function ControlApplied(e: Exec, s: Sim): (r: (Exec, Sim, bool))
    requires WellFormed(e)
    ensures WellFormed(r.0)
  {
    var f := ActivateDue(e, s.timeSec);
    var (t, ok) := Configured(s, f.targetRollRad, f.commandActive);
    (f, t, ok)
  }

  function RollHoldDisabled(e: Exec, s: Sim): Sim {
    Configured(s, e.targetRollRad, false).0
  }

  function Failing(e: Exec, s: Sim, error: Error): (Exec, Sim) {
    (e.(state := Failed, lastError := error), if e.state.Running? then RollHoldDisabled(e, s) else s)
  }

  // The error that `Start` reports before it touches the run state.
  function StartRefusal(s: Sim, scenario: SimulationScenario, dtSec: real): Error {
    if !s.initialized then NotInitialized
    else if !Valid(scenario) then InvalidScenario
    else if CalculateStepCount(scenario.durationSec, dtSec).None? then InvalidStepCount
    else if Abs(s.tickSizeSec - dtSec) > TIMESTEP_TOLERANCE then TimestepMismatch
    else if !s.supportsRollHold then NoRollHold
    else NoError
  }

  function Prepared(e: Exec, scenario: SimulationScenario, dtSec: real): (f: Exec)
    requires Valid(scenario) && CalculateStepCount(scenario.durationSec, dtSec).Some? && dtSec > 0.0
    ensures WellFormed(f)
  {
    Exec(e.state, scenario, dtSec, CalculateStepCount(scenario.durationSec, dtSec).value,
         EventSteps(scenario.events, dtSec), 0, 0, false, 0.0, [], NoError)
  }

  function Started(e: Exec, s: Sim, scenario: SimulationScenario, dtSec: real): (r: (Exec, Sim, bool))
    requires WellFormed(e)
    ensures WellFormed(r.0)
  {
    if e.state.Running? then
      var (f, t) := Failing(e, s, AlreadyRunning);
      (f, t, false)
    else
      var cleared := e.(lastError := NoError, pending := []);
      var refusal := StartRefusal(s, scenario, dtSec);
      if !refusal.NoError? then (cleared.(state := Failed, lastError := refusal), s, false)
      else
        var prepared := Prepared(cleared, scenario, dtSec);
        var (t, reset) := WasReset(s);
        if !reset then (prepared.(state := Failed, lastError := ResetFailed), t, false)
        else
          var (f, u, ok) := ControlApplied(prepared.(state := Running), t);
          if ok then (f, u, true)
          else
            var (g, v) := Failing(f, u, InitialControlFailed);
            (g, v, false)
  }

  function ExecStepped(e: Exec, s: Sim): (r: (Exec, Sim, StepResult))
    requires WellFormed(e)
    ensures WellFormed(r.0)
  {
    if !e.state.Running? then (e.(lastError := NotRunning), s, StepResult(false, false))
    else
      var (f, t, applied) := ControlApplied(e, s);
      if !applied then
        var (g, u) := Failing(f, t, ControlFailed);
        (g, u, StepResult(false, false))
      else
        var (u, stepped) := Stepped(t, f.dtSec);
        if !stepped then
          var (g, v) := Failing(f, u, StepFailed);
          (g, v, StepResult(false, false))
        else
          var g := f.(stepCount := f.stepCount + 1);
          if g.stepCount >= g.targetStepCount
          then (g.(state := Completed), RollHoldDisabled(g, u), StepResult(true, true))
          else (g, u, StepResult(true, false))
  }

  function ExecStopped(e: Exec, s: Sim): (Exec, Sim) {
    if e.state.Running? then (e.(state := Stopped), RollHoldDisabled(e, s)) else (e, s)
  }

  const BLANK_SCENARIO := SimulationScenario("c172x", 30.0, 1.0 / 120.0, [], true)
  const IDLE := Exec(Idle, BLANK_SCENARIO, 0.0, 0, [], 0, 0, false, 0.0, [], NoError)

  class Executor {
    const simulation: Simulation
    var state: State
    var scenario: SimulationScenario
    var dtSec: real
    var targetStepCount: nat
    var eventStepIndices: seq<nat>
    var stepCount: nat
    var nextEventIndex: nat
    var commandActive: bool
    var targetRollRad: real
    var pending: seq<Activation>
    var lastError: Error

    ghost function View(): Exec
      reads this
    {
      Exec(state, scenario, dtSec, targetStepCount, eventStepIndices, stepCount, nextEventIndex, commandActive,
           targetRollRad, pending, lastError)
    }

    ghost predicate Valid()
      reads this
    {
      WellFormed(View())
    }

    constructor (simulation: Simulation)
      ensures Valid() && this.simulation == simulation && View() == IDLE
    {
      this.simulation := simulation;
      state, scenario, dtSec, targetStepCount, eventStepIndices := Idle, BLANK_SCENARIO, 0.0, 0, [];
      stepCount, nextEventIndex, commandActive, targetRollRad, pending, lastError := 0, 0, false, 0.0, [], NoError;
    }

    method Fail(error: Error)
      requires Valid()
      modifies this, simulation
      ensures Valid()
      ensures (View(), simulation.View()) == Failing(old(View()), old(simulation.View()), error)
    {
      if state == Running {
        DisableRollHold();
      }
      state := Failed;
      lastError := error;
    }

    method DisableRollHold()
      requires Valid()
      modifies simulation
      ensures simulation.View() == RollHoldDisabled(View(), old(simulation.View()))
    {
      var _ := simulation.ConfigureRollHold(targetRollRad, false);
    }

    method ApplyControlState() returns (ok: bool)
      requires Valid()
      modifies this, simulation
      ensures Valid()
      ensures (View(), simulation.View(), ok) == ControlApplied(old(View()), old(simulation.View()))
    {
      ghost var before := View();
      while nextEventIndex < |scenario.events| && stepCount >= eventStepIndices[nextEventIndex]
        modifies this
        invariant Valid()
        invariant ActivateDue(View(), simulation.timeSec) == ActivateDue(before, simulation.timeSec)
        decreases |scenario.events| - nextEventIndex
      {
        targetRollRad := scenario.events[nextEventIndex].rollRad;
        commandActive := true;
        pending := pending + [Activation(simulation.timeSec, targetRollRad)];
        nextEventIndex := nextEventIndex + 1;
      }
      ok := simulation.ConfigureRollHold(targetRollRad, commandActive);
    }

    method Start(newScenario: SimulationScenario, newDtSec: real) returns (ok: bool)
      requires Valid()
      modifies this, simulation
      ensures Valid()
      ensures (View(), simulation.View(), ok) == Started(old(View()), old(simulation.View()), newScenario, newDtSec)
    {
      if state == Running {
        Fail(AlreadyRunning);
        return false;
      }
      lastError := NoError;
      pending := [];
      if !simulation.initialized {
        Fail(NotInitialized);
        return false;
      }
      if !Scenario.Valid(newScenario) {
        Fail(InvalidScenario);
        return false;
      }
      var targetSteps := CalculateStepCount(newScenario.durationSec, newDtSec);
      if targetSteps.None? {
        Fail(InvalidStepCount);
        return false;
      }
      if Abs(simulation.tickSizeSec - newDtSec) > TIMESTEP_TOLERANCE {
        Fail(TimestepMismatch);
        return false;
      }
      if !simulation.supportsRollHold {
        Fail(NoRollHold);
        return false;
      }
      ok := Begin(newScenario, newDtSec, targetSteps.value);
    }

    // The second half of `Start`: the run state is set, the simulation reset.
    method Begin(newScenario: SimulationScenario, newDtSec: real, targetSteps: nat) returns (ok: bool)
      requires Valid() && state != Running && newDtSec > 0.0 && Scenario.Valid(newScenario)
      requires lastError == NoError && pending == []
      requires CalculateStepCount(newScenario.durationSec, newDtSec) == Some(targetSteps)
      requires StartRefusal(simulation.View(), newScenario, newDtSec) == NoError
      modifies this, simulation
      ensures Valid()
      ensures (View(), simulation.View(), ok) == Started(old(View()), old(simulation.View()), newScenario, newDtSec)
    {
      hide StartRefusal, ControlApplied, WasReset, CalculateStepCount, EventSteps;
      scenario := newScenario;
      dtSec := newDtSec;
      targetStepCount := targetSteps;
      eventStepIndices := ComputeEventSteps(newScenario.events, newDtSec);
      stepCount, nextEventIndex, commandActive, targetRollRad := 0, 0, false, 0.0;
      assert View() == Prepared(old(View()), newScenario, newDtSec);
      ok := simulation.Reset();
      if !ok {
        Fail(ResetFailed);
        return;
      }
      state := Running;
      ok := ApplyControlState();
      if !ok {
        Fail(InitialControlFailed);
      }
    }

    static method ComputeEventSteps(events: seq<ScenarioEvent>, stepSec: real) returns (indices: seq<nat>)
      requires stepSec > 0.0 && forall i :: 0 <= i < |events| ==> events[i].timeSec >= 0.0
      ensures indices == EventSteps(events, stepSec)
    {
      indices := [];
      for i := 0 to |events|
        invariant |indices| == i
        invariant forall j :: 0 <= j < i ==> indices[j] == EventStep(events[j].timeSec, stepSec)
      {
        indices := indices + [EventStep(events[i].timeSec, stepSec)];
      }
    }

    method Step() returns (result: StepResult)
      requires Valid()
      modifies this, simulation
      ensures Valid()
      ensures (View(), simulation.View(), result) == ExecStepped(old(View()), old(simulation.View()))
    {
      hide ControlApplied, Stepped;
      result := StepResult(false, false);
      if state != Running {
        lastError := NotRunning;
        return;
      }
      var ok := ApplyControlState();
      if !ok {
        Fail(ControlFailed);
        return;
      }
      ok := simulation.Step(dtSec);
      if !ok {
        Fail(StepFailed);
        return;
      }
      stepCount := stepCount + 1;
      result := result.(succeeded := true);
      if stepCount >= targetStepCount {
        DisableRollHold();
        state := Completed;
        result := result.(completed := true);
      }
    }

    method Stop()
      requires Valid()
      modifies this, simulation
      ensures Valid()
      ensures (View(), simulation.View()) == ExecStopped(old(View()), old(simulation.View()))
    {
      if state == Running {
        DisableRollHold();
        state := Stopped;
      }
    }

    method TakeCommandActivations() returns (activations: seq<Activation>)
      requires Valid()
      modifies this
      ensures Valid()
      ensures activations == old(pending) && View() == old(View()).(pending := [])
    {
      activations := pending;
      pending := [];
    }
  }
}
