/** Whole runs of the scenario executor: which step each command comes into force
    at, what every physics step flies, and what a completed run has done. */
module ScenarioRun {
  import opened Prelude
  import opened SimulationModel
  import opened Scenario
  import opened ScenarioExecutor

  // The number of leading events whose steps are all at most `k`.
  function Fired(indices: seq<nat>, k: nat): (n: nat)
    ensures n <= |indices|
  {
    if indices == [] || indices[0] > k then 0 else 1 + Fired(indices[1..], k)
  }

  // The largest of the first i + 1 step indices.
  function PrefixMax(indices: seq<nat>, i: nat): nat
    requires i < |indices|
    decreases i
  {
    if i == 0 then indices[0]
    else if PrefixMax(indices, i - 1) < indices[i] then indices[i] else PrefixMax(indices, i - 1)
  }

  // The control in force at physics step `k`: that of the last event due by then.
  function ControlAt(events: seq<ScenarioEvent>, indices: seq<nat>, k: nat): Control
    requires |indices| == |events|
  {
    var n := Fired(indices, k);
    if n == 0 then Control(false, 0.0) else Control(true, events[n - 1].rollRad)
  }

  // Event `i` as it is recorded, at the time of the step it comes into force.
  function Recorded(events: seq<ScenarioEvent>, indices: seq<nat>, dtSec: real, i: nat): Activation
    requires i < |indices| == |events|
  {
    Activation(StepTime(PrefixMax(indices, i), dtSec), events[i].rollRad)
  }

  // The commands from..to as they are recorded.
  function Activations(events: seq<ScenarioEvent>, indices: seq<nat>, dtSec: real, from: nat,
                       to: nat): (a: seq<Activation>)
    requires from <= to <= |events| && |indices| == |events|
    ensures |a| == to - from
    decreases |events| - from
  {
    if from == to then []
    else [Recorded(events, indices, dtSec, from)] + Activations(events, indices, dtSec, from + 1, to)
  }

  lemma {:induction false} ActivationsAt(events: seq<ScenarioEvent>, indices: seq<nat>, dtSec: real, from: nat,
                                         to: nat, i: nat)
    requires from <= i < to <= |events| && |indices| == |events|
    ensures Activations(events, indices, dtSec, from, to)[i - from] == Recorded(events, indices, dtSec, i)
    decreases |events| - from
  {
    if from < i {
      ActivationsAt(events, indices, dtSec, from + 1, to, i);
    }
  }

  function FlownControls(events: seq<ScenarioEvent>, indices: seq<nat>, steps: nat): (f: seq<Control>)
    requires |indices| == |events|
    ensures |f| == steps && forall k :: 0 <= k < steps ==> f[k] == ControlAt(events, indices, k)
  {
    seq(steps, k requires 0 <= k < steps => ControlAt(events, indices, k))
  }

  lemma {:induction false} FiredMeaning(indices: seq<nat>, k: nat)
    ensures forall j :: 0 <= j < Fired(indices, k) ==> indices[j] <= k
    ensures Fired(indices, k) < |indices| ==> indices[Fired(indices, k)] > k
  {
    if indices != [] && indices[0] <= k {
      FiredMeaning(indices[1..], k);
      var n := Fired(indices[1..], k);
      forall j | 0 <= j < n + 1
        ensures indices[j] <= k
      {
        assert j == 0 || indices[j] == indices[1..][j - 1];
      }
      assert n < |indices[1..]| ==> indices[n + 1] == indices[1..][n];
    }
  }

  lemma {:induction false} PrefixMaxMeaning(indices: seq<nat>, i: nat)
    requires i < |indices|
    ensures forall j :: 0 <= j <= i ==> indices[j] <= PrefixMax(indices, i)
    ensures exists j :: 0 <= j <= i && indices[j] == PrefixMax(indices, i)
  {
    if i == 0 {
      assert indices[0] == PrefixMax(indices, 0);
    } else {
      PrefixMaxMeaning(indices, i - 1);
      var j :| 0 <= j <= i - 1 && indices[j] == PrefixMax(indices, i - 1);
      assert indices[i] == PrefixMax(indices, i) || indices[j] == PrefixMax(indices, i);
    }
  }

  /** Event `i` is among those applied by step `k` exactly when the largest of the
      first i + 1 step indices is at most `k`. */
  lemma FiredIffPrefixMax(indices: seq<nat>, i: nat, k: nat)
    requires i < |indices|
    ensures i < Fired(indices, k) <==> PrefixMax(indices, i) <= k
  {
    FiredMeaning(indices, k);
    PrefixMaxMeaning(indices, i);
  }

  lemma FiredMonotone(indices: seq<nat>, j: nat, k: nat)
    requires j <= k
    ensures Fired(indices, j) <= Fired(indices, k)
  {
    FiredMeaning(indices, j);
    FiredMeaning(indices, k);
  }

  // The largest stepCount at which the control state was applied before step `k`.
  function LastApplied(k: nat): nat {
    if k == 0 then 0 else k - 1
  }

  // The fields of a run of scenario `sc` that do not change while it runs.
  predicate Configured(e: Exec, sc: SimulationScenario, dtSec: real) {
    && Valid(sc) && dtSec > 0.0
    && e.scenario == sc && e.dtSec == dtSec
    && CalculateStepCount(sc.durationSec, dtSec) == Some(e.targetStepCount)
    && e.eventStepIndices == EventSteps(sc.events, dtSec)
  }

  // The command state once the first `n` events have been applied.
  predicate Commanded(e: Exec, n: nat)
    requires WellFormed(e)
  {
    && e.nextEventIndex == n
    && e.commandActive == (n > 0)
    && e.targetRollRad == (if n > 0 then e.scenario.events[n - 1].rollRad else 0.0)
  }

  /** A running executor after exactly `k` successful steps. */
  predicate Flying(e: Exec, s: Sim, sc: SimulationScenario, dtSec: real, k: nat) {
    && WellFormed(e) && Configured(e, sc, dtSec)
    && e.state.Running? && e.stepCount == k < e.targetStepCount
    && Commanded(e, Fired(e.eventStepIndices, LastApplied(k)))
    && s.initialized && s.supportsRollHold
    && s.timeSec == StepTime(k, dtSec)
    && s.flown == FlownControls(sc.events, e.eventStepIndices, k)
  }

  /** An executor that completed its run. */
  predicate Finished(e: Exec, s: Sim, sc: SimulationScenario, dtSec: real) {
    && WellFormed(e) && Configured(e, sc, dtSec)
    && e.state.Completed? && e.stepCount == e.targetStepCount
    && Commanded(e, Fired(e.eventStepIndices, e.targetStepCount - 1))
    && s.initialized && !s.control.enabled
    && s.timeSec == StepTime(e.targetStepCount, dtSec)
    && s.flown == FlownControls(sc.events, e.eventStepIndices, e.targetStepCount)
  }

  // Applying the due commands brings the command state from `n` events to Fired.
  lemma {:induction false} ActivateDueFires(e: Exec, timeSec: real, n: nat)
    requires WellFormed(e) && n <= Fired(e.eventStepIndices, e.stepCount) && Commanded(e, n)
    requires forall i :: n <= i < Fired(e.eventStepIndices, e.stepCount) ==>
        Recorded(e.scenario.events, e.eventStepIndices, e.dtSec, i) == Activation(timeSec, e.scenario.events[i].rollRad)
    ensures var f, m := ActivateDue(e, timeSec), Fired(e.eventStepIndices, e.stepCount);
            && Commanded(f, m)
            && f == e.(nextEventIndex := f.nextEventIndex, commandActive := f.commandActive,
                       targetRollRad := f.targetRollRad, pending := f.pending)
            && f.pending == e.pending + Activations(e.scenario.events, e.eventStepIndices, e.dtSec, n, m)
    decreases |e.scenario.events| - n
  {
    hide Fired, Recorded;
    var m := Fired(e.eventStepIndices, e.stepCount);
    FiredMeaning(e.eventStepIndices, e.stepCount);
    if n < m {
      var activation := Activation(timeSec, e.scenario.events[n].rollRad);
      var next := e.(targetRollRad := activation.targetRollRad, commandActive := true,
                     pending := e.pending + [activation], nextEventIndex := n + 1);
      ActivateDueFires(next, timeSec, n + 1);
      var rest := Activations(e.scenario.events, e.eventStepIndices, e.dtSec, n + 1, m);
      assert (e.pending + [activation]) + rest == e.pending + ([activation] + rest);
    } else {
      assert e.pending + [] == e.pending;
    }
  }

  lemma {:induction false} ActivationsJoin(events: seq<ScenarioEvent>, indices: seq<nat>, dtSec: real, from: nat,
                                           mid: nat, to: nat)
    requires from <= mid <= to <= |events| && |indices| == |events|
    ensures Activations(events, indices, dtSec, from, mid) + Activations(events, indices, dtSec, mid, to)
         == Activations(events, indices, dtSec, from, to)
    decreases |events| - from
  {
    hide Recorded;
    if from < mid {
      ActivationsJoin(events, indices, dtSec, from + 1, mid, to);
      var head := [Recorded(events, indices, dtSec, from)];
      var a, b := Activations(events, indices, dtSec, from + 1, mid), Activations(events, indices, dtSec, mid, to);
      assert (head + a) + b == head + (a + b);
    }
  }

  // What one application of the control state does at step `k` of a run.
  lemma ControlAppliedAt(e: Exec, s: Sim, sc: SimulationScenario, dtSec: real, k: nat)
    requires WellFormed(e) && Configured(e, sc, dtSec) && e.stepCount == k
    requires Commanded(e, Fired(e.eventStepIndices, LastApplied(k))) || (k == 0 && Commanded(e, 0))
    requires s.supportsRollHold && s.timeSec == StepTime(k, dtSec)
    ensures var (f, t, ok) := ControlApplied(e, s);
            && ok && e.nextEventIndex <= Fired(e.eventStepIndices, k) && Commanded(f, Fired(e.eventStepIndices, k))
            && f == e.(nextEventIndex := f.nextEventIndex, commandActive := f.commandActive,
                       targetRollRad := f.targetRollRad, pending := f.pending)
            && f.pending == e.pending
                            + Activations(sc.events, e.eventStepIndices, dtSec, e.nextEventIndex, f.nextEventIndex)
            && t == s.(control := ControlAt(sc.events, e.eventStepIndices, k))
  {
    hide Fired, PrefixMax, Recorded, Activations, ActivateDue;
    var indices := e.eventStepIndices;
    FiredMonotone(indices, LastApplied(k), k);
    var n := e.nextEventIndex;
    forall i | n <= i < Fired(indices, k)
      ensures Recorded(sc.events, indices, dtSec, i) == Activation(s.timeSec, sc.events[i].rollRad)
    {
      DueAt(sc.events, indices, dtSec, i, k);
    }
    ActivateDueFires(e, s.timeSec, n);
  }

  lemma DueAt(events: seq<ScenarioEvent>, indices: seq<nat>, dtSec: real, i: nat, k: nat)
    requires |indices| == |events|
    requires i < Fired(indices, k) && (k > 0 ==> Fired(indices, LastApplied(k)) <= i)
    ensures Recorded(events, indices, dtSec, i) == Activation(StepTime(k, dtSec), events[i].rollRad)
  {
    hide Fired;
    FiredIffPrefixMax(indices, i, k);
    FiredIffPrefixMax(indices, i, LastApplied(k));
    assert PrefixMax(indices, i) == k;
  }

  /** A successful start stands before step 0, with the commands of step 0 applied. */
  lemma StartFlies(e: Exec, s: Sim, sc: SimulationScenario, dtSec: real)
    requires WellFormed(e) && Started(e, s, sc, dtSec).2
    ensures dtSec > 0.0 && Valid(sc)
    ensures var (f, t, _) := Started(e, s, sc, dtSec);
            && Flying(f, t, sc, dtSec, 0)
            && f.pending == Activations(sc.events, f.eventStepIndices, dtSec, 0, Fired(f.eventStepIndices, 0))
            && t == s.(asked := s.asked + 1, timeSec := 0.0, flown := [], control := t.control)
  {
    hide ControlApplied;
    var prepared := Prepared(e.(lastError := NoError, pending := []), sc, dtSec).(state := Running);
    ControlAppliedAt(prepared, WasReset(s).0, sc, dtSec, 0);
    assert FlownControls(sc.events, prepared.eventStepIndices, 0) == [];
  }

  /** One step of a run.  It succeeds exactly when the simulation does; it applies
      the commands due at step `k`, flies the control in force, and completes the
      run at the target step count. */
  lemma StepFlies(e: Exec, s: Sim, sc: SimulationScenario, dtSec: real, k: nat)
    requires Flying(e, s, sc, dtSec, k)
    ensures var (f, t, r) := ExecStepped(e, s);
            && r.succeeded == s.answers(s.asked).Succeeds?
            && r.completed == (r.succeeded && k + 1 == e.targetStepCount)
            && f.nextEventIndex == Fired(e.eventStepIndices, k) >= e.nextEventIndex
            && f.pending == e.pending
                            + Activations(sc.events, e.eventStepIndices, dtSec, e.nextEventIndex, f.nextEventIndex)
            && t.asked == s.asked + 1 && t.answers == s.answers && t.id == s.id && t.variant == s.variant
            && t.tickSizeSec == s.tickSizeSec
            && (r.succeeded && !r.completed ==> Flying(f, t, sc, dtSec, k + 1))
            && (r.completed ==> Finished(f, t, sc, dtSec))
            && (!r.succeeded ==> f.state.Failed? && !t.control.enabled)
  {
    hide ControlApplied, ControlAt, Fired, PrefixMax, Configured;
    ControlAppliedAt(e, s, sc, dtSec, k);
    FiredMonotone(e.eventStepIndices, LastApplied(k), k);
    RunShape(e, sc, dtSec);
    assert FlownControls(sc.events, e.eventStepIndices, k + 1)
        == FlownControls(sc.events, e.eventStepIndices, k) + [ControlAt(sc.events, e.eventStepIndices, k)];
    var f := ExecStepped(e, s).0;
    SameRun(e, f, sc, dtSec);
  }

  lemma RunShape(e: Exec, sc: SimulationScenario, dtSec: real)
    requires Configured(e, sc, dtSec)
    ensures dtSec > 0.0 && e.dtSec == dtSec && |e.eventStepIndices| == |sc.events| && e.scenario == sc
  {
  }

  lemma SameRun(e: Exec, f: Exec, sc: SimulationScenario, dtSec: real)
    requires Configured(e, sc, dtSec)
    requires f.scenario == e.scenario && f.dtSec == e.dtSec && f.targetStepCount == e.targetStepCount
    requires f.eventStepIndices == e.eventStepIndices
    ensures Configured(f, sc, dtSec)
  {
  }

  // Runs of several steps

  function RunFor(e: Exec, s: Sim, steps: nat): (r: (Exec, Sim))
    requires WellFormed(e)
    ensures WellFormed(r.0)
    decreases steps
  {
    if steps == 0 then (e, s)
    else
      var (f, t) := RunFor(e, s, steps - 1);
      var (g, u, _) := ExecStepped(f, t);
      (g, u)
  }

  /** Every run, at every length: after a successful start and `steps` simulation
      steps that all succeed, the executor has flown exactly those steps, each with
      the control of the last event due, and has recorded each command once, in
      order, at the time of its step; it completes at the target step count. */
  lemma {:induction false} RunFlies(e: Exec, s: Sim, sc: SimulationScenario, dtSec: real, steps: nat)
    requires WellFormed(e) && Started(e, s, sc, dtSec).2
    requires steps <= Started(e, s, sc, dtSec).0.targetStepCount
    requires forall i :: s.asked < i <= s.asked + steps ==> s.answers(i).Succeeds?
    ensures var (f0, t0, _) := Started(e, s, sc, dtSec);
            var (f, t) := RunFor(f0, t0, steps);
            && (if steps < f0.targetStepCount then Flying(f, t, sc, dtSec, steps) else Finished(f, t, sc, dtSec))
            && f.eventStepIndices == f0.eventStepIndices && f.targetStepCount == f0.targetStepCount
            && f.pending == Activations(sc.events, f.eventStepIndices, dtSec, 0, f.nextEventIndex)
            && t.asked == s.asked + 1 + steps && t.answers == s.answers
    decreases steps
  {
    hide Started, ExecStepped, Fired, Activations, PrefixMax;
    StartFlies(e, s, sc, dtSec);
    var (f0, t0, _) := Started(e, s, sc, dtSec);
    if steps > 0 {
      RunFlies(e, s, sc, dtSec, steps - 1);
      var (g, u) := RunFor(f0, t0, steps - 1);
      StepFlies(g, u, sc, dtSec, steps - 1);
      RunShape(g, sc, dtSec);
      ActivationsJoin(sc.events, g.eventStepIndices, dtSec, 0, g.nextEventIndex, ExecStepped(g, u).0.nextEventIndex);
    }
  }

  /** The i-th command that such a run records is event i, at the time of the largest of
      the first i + 1 step indices. */
  lemma RunRecords(e: Exec, s: Sim, sc: SimulationScenario, dtSec: real, steps: nat, i: nat)
    requires WellFormed(e) && Started(e, s, sc, dtSec).2
    requires steps <= Started(e, s, sc, dtSec).0.targetStepCount
    requires forall k :: s.asked < k <= s.asked + steps ==> s.answers(k).Succeeds?
    ensures var (f0, t0, _) := Started(e, s, sc, dtSec);
            var f := RunFor(f0, t0, steps).0;
            && |f.pending| == f.nextEventIndex <= |sc.events| == |f.eventStepIndices|
            && (i < f.nextEventIndex ==>
                  f.pending[i] == Activation(StepTime(PrefixMax(f.eventStepIndices, i), dtSec), sc.events[i].rollRad))
  {
    hide Started, RunFor, Activations, PrefixMax, Flying, Finished, StepTime;
    RunFlies(e, s, sc, dtSec, steps);
    var (f0, t0, _) := Started(e, s, sc, dtSec);
    var (f, t) := RunFor(f0, t0, steps);
    RunBounds(f, t, sc, dtSec, steps);
    if i < f.nextEventIndex {
      ActivationsAt(sc.events, f.eventStepIndices, dtSec, 0, f.nextEventIndex, i);
    }
  }

  lemma RunBounds(e: Exec, s: Sim, sc: SimulationScenario, dtSec: real, k: nat)
    requires Flying(e, s, sc, dtSec, k) || Finished(e, s, sc, dtSec)
    ensures e.nextEventIndex <= |sc.events| == |e.eventStepIndices|
  {
    hide Fired;
  }

  /** A completed run: exactly the target number of simulation steps; exactly the
      events whose prefix-maximum step lies below it were applied; roll hold is off. */
  lemma CompletedRun(e: Exec, s: Sim, sc: SimulationScenario, dtSec: real)
    requires WellFormed(e) && Finished(e, s, sc, dtSec)
    ensures |s.flown| == e.targetStepCount
    ensures forall i :: 0 <= i < |sc.events| ==>
        (i < e.nextEventIndex <==> PrefixMax(e.eventStepIndices, i) < e.targetStepCount)
    ensures !s.control.enabled
  {
    forall i | 0 <= i < |sc.events|
      ensures i < e.nextEventIndex <==> PrefixMax(e.eventStepIndices, i) < e.targetStepCount
    {
      FiredIffPrefixMax(e.eventStepIndices, i, e.targetStepCount - 1);
    }
  }

  lemma RoundMonotone(a: real, b: real)
    requires a <= b
    ensures Round(a) <= Round(b)
  {
  }

  lemma RatioMonotone(a: real, b: real, c: real)
    requires a <= b && c > 0.0
    ensures a / c <= b / c
  {
    assert b / c - a / c == (b - a) / c;
    RatioNonNegative(b - a, c);
  }

  /** The events of a valid scenario are in step order, so each comes into force at
      its own step. */
  lemma {:induction false} ValidEventsInOrder(sc: SimulationScenario, dtSec: real, i: nat)
    requires Valid(sc) && dtSec > 0.0 && i < |sc.events|
    ensures PrefixMax(EventSteps(sc.events, dtSec), i) == EventSteps(sc.events, dtSec)[i]
    decreases i
  {
    if i > 0 {
      ValidEventsInOrder(sc, dtSec, i - 1);
      RatioMonotone(sc.events[i - 1].timeSec, sc.events[i].timeSec, dtSec);
      RoundMonotone(sc.events[i - 1].timeSec / dtSec, sc.events[i].timeSec / dtSec);
    }
  }

  /** Exactly when a completed run has applied every event: no event may round to
      the final step count or beyond. */
  lemma AllEventsFireIff(e: Exec, s: Sim, sc: SimulationScenario, dtSec: real)
    requires Finished(e, s, sc, dtSec)
    ensures e.nextEventIndex == |sc.events|
        <==> forall i :: 0 <= i < |sc.events| ==> EventStep(sc.events[i].timeSec, dtSec) < e.targetStepCount
  {
    var n := |sc.events|;
    CompletedRun(e, s, sc, dtSec);
    forall i | 0 <= i < n
      ensures PrefixMax(e.eventStepIndices, i) == EventStep(sc.events[i].timeSec, dtSec)
    {
      ValidEventsInOrder(sc, dtSec, i);
    }
    if e.nextEventIndex < n {
      assert !(PrefixMax(e.eventStepIndices, e.nextEventIndex) < e.targetStepCount);
    }
  }

  const LATE_EVENT := SimulationScenario("c172x", 2.0, 1.0, [ScenarioEvent(1.9999999995, 0.1)], true)

  lemma LateEventIsLate()
    ensures Valid(LATE_EVENT)
    ensures CalculateStepCount(LATE_EVENT.durationSec, LATE_EVENT.dtSec) == Some(2)
    ensures EventStep(LATE_EVENT.events[0].timeSec, LATE_EVENT.dtSec) == 2
  {
    assert 1.9999999995 / 1.0 == 1.9999999995;
    assert 2.0 / 1.0 == 2.0;
  }

  /** A valid scenario whose only event never fires: its time is within the alignment
      tolerance of the duration and rounds to the final step.  Every completed run of
      it has applied nothing, and a start with two successful steps is such a run. */
  lemma LateEventNeverFires(e: Exec, s: Sim)
    requires WellFormed(e)
    ensures Valid(LATE_EVENT)
    ensures Finished(e, s, LATE_EVENT, 1.0) ==> |s.flown| == 2 && e.nextEventIndex == 0
    ensures Started(e, s, LATE_EVENT, 1.0).2 && s.answers(s.asked + 1).Succeeds? && s.answers(s.asked + 2).Succeeds? ==>
      var (f0, t0, _) := Started(e, s, LATE_EVENT, 1.0);
      var (f, t) := RunFor(f0, t0, 2);
      Finished(f, t, LATE_EVENT, 1.0) && f.nextEventIndex == 0
  {
    LateEventIsLate();
    hide Started, RunFor, Valid, CalculateStepCount;
    if Finished(e, s, LATE_EVENT, 1.0) {
      LateRunAppliesNothing(e, s);
    }
    if Started(e, s, LATE_EVENT, 1.0).2 && s.answers(s.asked + 1).Succeeds? && s.answers(s.asked + 2).Succeeds? {
      var (f0, t0, _) := Started(e, s, LATE_EVENT, 1.0);
      StartFlies(e, s, LATE_EVENT, 1.0);
      RunFlies(e, s, LATE_EVENT, 1.0, 2);
      var (f, t) := RunFor(f0, t0, 2);
      LateRunAppliesNothing(f, t);
    }
  }

  lemma LateRunAppliesNothing(e: Exec, s: Sim)
    requires WellFormed(e) && Finished(e, s, LATE_EVENT, 1.0)
    ensures |s.flown| == 2 && e.nextEventIndex == 0
  {
    LateEventIsLate();
    CompletedRun(e, s, LATE_EVENT, 1.0);
    AllEventsFireIff(e, s, LATE_EVENT, 1.0);
    hide Valid, CalculateStepCount;
  }
}
