/** The comparison of two runtimes that run the same scenario in lockstep, one with
    the baseline and one with the primary autopilot. */
module SimulationComparison {
  import opened Prelude
  import opened SimulationModel
  import opened Scenario
  import SR = SimulationRuntime

  datatype ComparisonState = Running | Completed | Stopped | Failed

  // Why a variant failed.
  datatype Cause =
    | RuntimeFailure(error: SR.RuntimeError) | ClocksDiverged | SchedulesDiverged | EventsDiverged | CompletedApart

  datatype ComparisonError = NoError | NotRunning | VariantFailed(variant: Variant, cause: Cause)

  datatype VariantResult = VariantResult(state: ComparisonState, error: Option<Cause>)

  const CLOCK_TOLERANCE: real := 0.000000001

  // The comparison's fields; `events` is the observation waiting to be taken.
  datatype ComparisonView = ComparisonView(
    baseline: SR.RuntimeState, primary: SR.RuntimeState, dtSec: real, durationSec: real, stepCount: nat,
    state: ComparisonState, baselineResult: VariantResult, primaryResult: VariantResult,
    events: seq<SR.RecordedEvent>, lastError: ComparisonError)

  function Min(a: real, b: real): real {
    if a < b then a else b
  }

  function SharedTime(c: ComparisonView): real {
    Min(c.durationSec, StepTime(c.stepCount, c.dtSec))
  }

  function ClockOf(r: SR.RuntimeState): real {
    if r.primary.Some? && r.primary.value.initialized then r.primary.value.timeSec else 0.0
  }

  predicate SameEvent(left: SR.RecordedEvent, right: SR.RecordedEvent) {
    && left.ScenarioStart? == right.ScenarioStart? && left.ScenarioEnd? == right.ScenarioEnd?
    && Abs(left.simulationTimeSec - right.simulationTimeSec) <= CLOCK_TOLERANCE
    && (left.RollCommandChanged? ==> Abs(left.targetRollRad - right.targetRollRad) <= CLOCK_TOLERANCE)
  }

  function Divergence(left: seq<SR.RecordedEvent>, right: seq<SR.RecordedEvent>): Option<Cause> {
    if |left| != |right| then Some(SchedulesDiverged)
    else if forall i :: 0 <= i < |left| ==> SameEvent(left[i], right[i]) then None
    else Some(EventsDiverged)
  }

  /** Two event lists agree exactly when they are equally long and their events are of the
      same kinds, at the same times and with the same targets up to the tolerance. */
  lemma DivergenceMeans(left: seq<SR.RecordedEvent>, right: seq<SR.RecordedEvent>)
    ensures Divergence(left, right) == None
        <==> && |left| == |right|
             && forall i :: 0 <= i < |left| ==>
                  && (left[i].ScenarioStart? <==> right[i].ScenarioStart?)
                  && (left[i].RollCommandChanged? <==> right[i].RollCommandChanged?)
                  && -CLOCK_TOLERANCE <= left[i].simulationTimeSec - right[i].simulationTimeSec <= CLOCK_TOLERANCE
                  && (left[i].RollCommandChanged? && right[i].RollCommandChanged? ==>
                        -CLOCK_TOLERANCE <= left[i].targetRollRad - right[i].targetRollRad <= CLOCK_TOLERANCE)
    ensures Divergence(left, right) == Some(SchedulesDiverged) <==> |left| != |right|
  {
    if |left| == |right| {
      forall i | 0 <= i < |left|
        ensures SameEvent(left[i], right[i])
            <==> && (left[i].ScenarioStart? <==> right[i].ScenarioStart?)
                 && (left[i].RollCommandChanged? <==> right[i].RollCommandChanged?)
                 && -CLOCK_TOLERANCE <= left[i].simulationTimeSec - right[i].simulationTimeSec <= CLOCK_TOLERANCE
                 && (left[i].RollCommandChanged? && right[i].RollCommandChanged? ==>
                       -CLOCK_TOLERANCE <= left[i].targetRollRad - right[i].targetRollRad <= CLOCK_TOLERANCE)
      {
        SameEventMeans(left[i], right[i]);
      }
    }
  }

  lemma SameEventMeans(left: SR.RecordedEvent, right: SR.RecordedEvent)
    ensures SameEvent(left, right)
        <==> && (left.ScenarioStart? <==> right.ScenarioStart?)
             && (left.RollCommandChanged? <==> right.RollCommandChanged?)
             && -CLOCK_TOLERANCE <= left.simulationTimeSec - right.simulationTimeSec <= CLOCK_TOLERANCE
             && (left.RollCommandChanged? && right.RollCommandChanged? ==>
                   -CLOCK_TOLERANCE <= left.targetRollRad - right.targetRollRad <= CLOCK_TOLERANCE)
  {
  }

  // Both runtimes are consistent.
  predicate Sound(c: ComparisonView) {
    SR.Consistent(c.baseline) && SR.Consistent(c.primary)
  }

  function FailedWith(c: ComparisonView, variant: Variant, cause: Cause): ComparisonView
    requires Sound(c)
  {
    var failed, peer := VariantResult(Failed, Some(cause)), Stopped;
    c.(lastError := VariantFailed(variant, cause), state := Failed,
       baselineResult := if variant.BaselineVariant? then failed else c.baselineResult.(state := peer),
       primaryResult := if variant.PrimaryVariant? then failed else c.primaryResult.(state := peer),
       baseline := SR.AfterStop(c.baseline), primary := SR.AfterStop(c.primary))
  }

  function Collected(c: ComparisonView): (ComparisonView, bool)
    requires Sound(c)
  {
    var d := c.(baseline := SR.AfterTakeEvents(c.baseline), primary := SR.AfterTakeEvents(c.primary));
    match Divergence(c.baseline.pendingEvents, c.primary.pendingEvents)
    case Some(cause) => (FailedWith(d, PrimaryVariant, cause), false)
    case None => (d.(events := c.events + c.primary.pendingEvents), true)
  }

  function DivergedVariant(c: ComparisonView): Option<Variant> {
    if Abs(ClockOf(c.baseline) - SharedTime(c)) > CLOCK_TOLERANCE then Some(BaselineVariant)
    else if Abs(ClockOf(c.primary) - SharedTime(c)) > CLOCK_TOLERANCE then Some(PrimaryVariant)
    else None
  }

  /** The clocks agree exactly when both are the time of the comparison up to the tolerance,
      which is that of its steps but never more than the duration; else the first that is
      off is named. */
  lemma ClocksMean(c: ComparisonView)
    ensures var time := if StepTime(c.stepCount, c.dtSec) < c.durationSec then StepTime(c.stepCount, c.dtSec)
                        else c.durationSec;
            var baselineFits := time - CLOCK_TOLERANCE <= ClockOf(c.baseline) <= time + CLOCK_TOLERANCE;
            var primaryFits := time - CLOCK_TOLERANCE <= ClockOf(c.primary) <= time + CLOCK_TOLERANCE;
            && (DivergedVariant(c) == None <==> baselineFits && primaryFits)
            && (DivergedVariant(c) == Some(BaselineVariant) <==> !baselineFits)
  {
  }

  // The end of a tick: both runtimes must still run, or both have completed.
  function Settled(c: ComparisonView): (ComparisonView, bool)
    requires Sound(c)
  {
    if c.baseline.exec.Some? != c.primary.exec.Some?
    then (FailedWith(c, if c.baseline.exec.Some? then PrimaryVariant else BaselineVariant, CompletedApart), false)
    else if c.baseline.exec.Some? then (c.(lastError := NoError), true)
    else (c.(state := Completed, baselineResult := c.baselineResult.(state := Completed),
             primaryResult := c.primaryResult.(state := Completed), lastError := NoError), true)
  }

  // The middle of a tick, after both runtimes advanced.
  function Compared(c: ComparisonView): (ComparisonView, bool)
    requires Sound(c)
  {
    match DivergedVariant(c)
    case Some(variant) => (FailedWith(c, variant, ClocksDiverged), false)
    case None =>
      var (d, ok) := Collected(c);
      CollectedSound(c);
      if ok then Settled(d) else (d, false)
  }

  // A tick of both runtimes, the baseline first.
  function Ticked(c: ComparisonView): (ComparisonView, bool)
    requires Sound(c)
  {
    var (b, baselineOk) := SR.AfterTick(c.baseline);
    SR.TickKeepsConsistent(c.baseline);
    SR.TickKeepsConsistent(c.primary);
    var d := c.(baseline := b);
    if !baselineOk then (FailedWith(d, BaselineVariant, RuntimeFailure(b.lastError)), false)
    else
      var (p, primaryOk) := SR.AfterTick(c.primary);
      var e := d.(primary := p);
      if !primaryOk then (FailedWith(e, PrimaryVariant, RuntimeFailure(p.lastError)), false)
      else Compared(e.(stepCount := c.stepCount + 1))
  }

  function AfterTick(c: ComparisonView): (ComparisonView, bool)
    requires Sound(c)
  {
    if c.state.Running? then Ticked(c.(events := [])) else (c.(lastError := NotRunning), false)
  }

  function AfterStop(c: ComparisonView): ComparisonView
    requires Sound(c)
  {
    if !c.state.Running? then c
    else
      var d := c.(baseline := SR.AfterStop(c.baseline), primary := SR.AfterStop(c.primary));
      StopSound(c.baseline);
      StopSound(c.primary);
      var (e, ok) := Collected(d);
      if ok then e.(state := Stopped, baselineResult := e.baselineResult.(state := Stopped),
                    primaryResult := e.primaryResult.(state := Stopped))
      else e
  }

  // A comparison of two runtimes that have started their scenario.
  function Assembled(baseline: SR.RuntimeState, primary: SR.RuntimeState, dtSec: real,
                     durationSec: real): ComparisonView {
    ComparisonView(baseline, primary, dtSec, durationSec, 0, Running,
                   VariantResult(Running, None), VariantResult(Running, None), [], NoError)
  }

  // The variant that fails while the runtimes are made, and while they start.
  function CreationFailure(baseline: Sim, primary: Sim, scenario: SimulationScenario): Option<Variant> {
    if !Valid(scenario) || !SR.CreatedForExecution(baseline, scenario).1 then Some(BaselineVariant)
    else if !SR.CreatedForExecution(primary, scenario).1 then Some(PrimaryVariant)
    else None
  }

  function StartFailure(b: SR.RuntimeState, p: SR.RuntimeState, baselineSpec: SR.Spec,
                        primarySpec: SR.Spec): Option<Variant> {
    if !SR.AfterRun(b, baselineSpec).1 then Some(BaselineVariant)
    else if !SR.AfterRun(p, primarySpec).1 then Some(PrimaryVariant)
    else None
  }

  // Whether each variant accepts the controller parameters that it is given.
  datatype Acceptance = Acceptance(baseline: bool, primary: bool)

  /** The comparison that `Create` returns, or the variant that failed. */
  function Created(baseline: Sim, primary: Sim, scenario: SimulationScenario, parametersAccepted: Acceptance)
    : (r: (Option<ComparisonView>, Option<Variant>))
  {
    var creationFailure := CreationFailure(baseline, primary, scenario);
    if creationFailure.Some? then (None, creationFailure)
    else
      var b, p := SR.CreatedForExecution(baseline, scenario).0, SR.CreatedForExecution(primary, scenario).0;
      var baselineSpec := SR.Spec(scenario, BaselineVariant, parametersAccepted.baseline);
      var primarySpec := SR.Spec(scenario, PrimaryVariant, parametersAccepted.primary);
      var startFailure := StartFailure(b, p, baselineSpec, primarySpec);
      if startFailure.Some? then (None, startFailure)
      else
        CreatedSound(baseline, scenario, baselineSpec);
        CreatedSound(primary, scenario, primarySpec);
        var (c, ok) := Collected(Assembled(SR.AfterRun(b, baselineSpec).0, SR.AfterRun(p, primarySpec).0,
                                           scenario.dtSec, scenario.durationSec));
        if ok then (Some(c), None) else (None, Some(PrimaryVariant))
  }

  lemma CreatedSound(s: Sim, scenario: SimulationScenario, spec: SR.Spec)
    ensures SR.Consistent(SR.CreatedForExecution(s, scenario).0)
    ensures SR.Consistent(SR.AfterRun(SR.CreatedForExecution(s, scenario).0, spec).0)
  {
    hide SR.AfterInitialize, SR.AfterRun, SR.Consistent;
    SR.InitializeKeepsConsistent(SR.Assembled(Some(s), None), SR.Config(scenario.aircraft, scenario.dtSec));
    SR.RunKeepsConsistent(SR.CreatedForExecution(s, scenario).0, spec);
  }

  lemma StopSound(r: SR.RuntimeState)
    requires SR.Consistent(r)
    ensures SR.Consistent(SR.AfterStop(r))
  {
    hide SR.AfterFinish;
    if r.exec.Some? {
      SR.FinishKeepsConsistent(r);
    }
  }

  lemma FailedSound(c: ComparisonView, variant: Variant, cause: Cause)
    requires Sound(c)
    ensures Sound(FailedWith(c, variant, cause))
  {
    hide SR.AfterStop;
    StopSound(c.baseline);
    StopSound(c.primary);
  }

  lemma CollectedSound(c: ComparisonView)
    requires Sound(c)
    ensures Sound(Collected(c).0)
  {
    hide FailedWith;
    var d := c.(baseline := SR.AfterTakeEvents(c.baseline), primary := SR.AfterTakeEvents(c.primary));
    FailedSound(d, PrimaryVariant, SchedulesDiverged);
    FailedSound(d, PrimaryVariant, EventsDiverged);
  }

  lemma ComparedSound(c: ComparisonView)
    requires Sound(c)
    ensures Sound(Compared(c).0)
  {
    hide FailedWith, Collected;
    CollectedSound(c);
    FailedSound(c, BaselineVariant, ClocksDiverged);
    FailedSound(c, PrimaryVariant, ClocksDiverged);
    FailedSound(Collected(c).0, BaselineVariant, CompletedApart);
    FailedSound(Collected(c).0, PrimaryVariant, CompletedApart);
  }

  lemma TickSound(c: ComparisonView)
    requires Sound(c)
    ensures Sound(AfterTick(c).0)
  {
    hide FailedWith, Compared, SR.AfterTick, SR.Consistent;
    var (b, baselineOk) := SR.AfterTick(c.baseline);
    SR.TickKeepsConsistent(c.baseline);
    SR.TickKeepsConsistent(c.primary);
    var d := c.(events := [], baseline := b);
    FailedSound(d, BaselineVariant, RuntimeFailure(b.lastError));
    var (p, primaryOk) := SR.AfterTick(c.primary);
    FailedSound(d.(primary := p), PrimaryVariant, RuntimeFailure(p.lastError));
    ComparedSound(d.(primary := p, stepCount := c.stepCount + 1));
  }

  lemma ComparisonStopSound(c: ComparisonView)
    requires Sound(c)
    ensures Sound(AfterStop(c))
  {
    hide Collected, SR.AfterStop;
    StopSound(c.baseline);
    StopSound(c.primary);
    CollectedSound(c.(baseline := SR.AfterStop(c.baseline), primary := SR.AfterStop(c.primary)));
  }

  class Comparison {
    const baselineRuntime: SR.Runtime
    const primaryRuntime: SR.Runtime
    const dtSec: real
    const durationSec: real
    var stepCount: nat
    var state: ComparisonState
    var baselineResult: VariantResult
    var primaryResult: VariantResult
    var events: seq<SR.RecordedEvent>
    var lastError: ComparisonError

    // Every object this comparison may change; it never grows.
    ghost const frame: set<object>

    ghost predicate Valid()
      reads this, frame
    {
      && {this, baselineRuntime, primaryRuntime} <= frame
      && baselineRuntime.Footprint() + primaryRuntime.Footprint() <= frame
      && baselineRuntime.Valid() && primaryRuntime.Valid()
      && baselineRuntime.Footprint() !! primaryRuntime.Footprint()
      && this !in baselineRuntime.Footprint() + primaryRuntime.Footprint()
    }

    ghost function View(): (v: ComparisonView)
      reads this, frame
      requires Valid()
      ensures v.stepCount == stepCount && v.state == state && v.lastError == lastError
      ensures v.baselineResult == baselineResult && v.primaryResult == primaryResult
    {
      ComparisonView(baselineRuntime.View(), primaryRuntime.View(), dtSec, durationSec, stepCount, state,
                     baselineResult, primaryResult, events, lastError)
    }

    constructor (baseline: SR.Runtime, primary: SR.Runtime, dtSec: real, durationSec: real)
      requires baseline.Valid() && primary.Valid() && baseline.Footprint() !! primary.Footprint()
      ensures Valid() && baselineRuntime == baseline && primaryRuntime == primary
      ensures frame == {this} + baseline.Footprint() + primary.Footprint()
      ensures View() == Assembled(baseline.View(), primary.View(), dtSec, durationSec)
    {
      hide SR.Consistent, SR.Runtime.Linked, SR.Runtime.Footprint;
      assert allocated(baseline.Footprint()) && allocated(primary.Footprint());
      baselineRuntime, primaryRuntime, this.dtSec, this.durationSec := baseline, primary, dtSec, durationSec;
      frame := {this} + baseline.Footprint() + primary.Footprint();
      stepCount, state, events, lastError := 0, Running, [], NoError;
      baselineResult, primaryResult := VariantResult(Running, None), VariantResult(Running, None);
    }

    static method CreateRuntimes(baselineSimulation: Simulation, primarySimulation: Simulation,
                                 scenario: SimulationScenario)
      returns (baseline: SR.Runtime?, primary: SR.Runtime?, failedVariant: Option<Variant>)
      requires baselineSimulation != primarySimulation
      modifies baselineSimulation, primarySimulation
      ensures failedVariant == CreationFailure(old(baselineSimulation.View()), old(primarySimulation.View()), scenario)
      ensures failedVariant.None? ==>
          && baseline != null && fresh(baseline) && baseline.Valid()
          && fresh(baseline.Footprint() - {baselineSimulation})
          && primary != null && fresh(primary) && primary.Valid() && fresh(primary.Footprint() - {primarySimulation})
          && baseline.Footprint() !! primary.Footprint()
          && baseline.View() == SR.CreatedForExecution(old(baselineSimulation.View()), scenario).0
          && primary.View() == SR.CreatedForExecution(old(primarySimulation.View()), scenario).0
    {
      hide SR.Consistent, SR.Runtime.Linked, SR.CreatedForExecution, SR.Runtime.Footprint, SR.AfterShutdown,
           Scenario.Valid;
      baseline, primary := null, null;
      if !Scenario.Valid(scenario) {
        return null, null, Some(BaselineVariant);
      }
      baseline := SR.Runtime.CreateForExecution(baselineSimulation, scenario);
      if baseline == null {
        return null, null, Some(BaselineVariant);
      }
      assert allocated(baseline.Footprint());
      primary := SR.Runtime.CreateForExecution(primarySimulation, scenario);
      if primary == null {
        baseline.Shutdown();
        return null, null, Some(PrimaryVariant);
      }
      assert allocated(baseline.Footprint()) && allocated(primary.Footprint());
      failedVariant := None;
    }

    static method StartRuntimes(baseline: SR.Runtime, primary: SR.Runtime, baselineSpec: SR.Spec, primarySpec: SR.Spec)
      returns (failedVariant: Option<Variant>)
      requires baseline.Valid() && primary.Valid() && baseline.Footprint() !! primary.Footprint()
      modifies baseline.Footprint(), primary.Footprint()
      ensures failedVariant == StartFailure(old(baseline.View()), old(primary.View()), baselineSpec, primarySpec)
      ensures failedVariant.None? ==>
          && baseline.Valid() && primary.Valid() && baseline.Footprint() !! primary.Footprint()
          && fresh(baseline.Footprint() - old(baseline.Footprint()))
          && fresh(primary.Footprint() - old(primary.Footprint()))
          && baseline.View() == SR.AfterRun(old(baseline.View()), baselineSpec).0
          && primary.View() == SR.AfterRun(old(primary.View()), primarySpec).0
    {
      hide SR.Consistent, SR.Runtime.Linked, SR.AfterRun, SR.Runtime.Footprint, SR.AfterShutdown, SR.AfterStop;
      assert allocated(baseline.Footprint()) && allocated(primary.Footprint());
      var ok := baseline.RunExecution(baselineSpec);
      assert allocated(baseline.Footprint()) && allocated(primary.Footprint());
      if !ok {
        primary.Shutdown();
        assert allocated(baseline.Footprint()) && allocated(primary.Footprint());
        baseline.Shutdown();
        return Some(BaselineVariant);
      }
      ok := primary.RunExecution(primarySpec);
      assert allocated(baseline.Footprint()) && allocated(primary.Footprint());
      if !ok {
        StopAll(baseline, primary);
        return Some(PrimaryVariant);
      }
      failedVariant := None;
    }

    static method StopAll(baseline: SR.Runtime, primary: SR.Runtime)
      requires baseline.Valid() && primary.Valid() && baseline.Footprint() !! primary.Footprint()
      modifies baseline.Footprint(), primary.Footprint()
      ensures baseline.View() == SR.AfterShutdown(SR.AfterStop(old(baseline.View())))
      ensures primary.View() == SR.AfterShutdown(old(primary.View()))
    {
      hide SR.Consistent, SR.Runtime.Linked, SR.Runtime.Footprint, SR.AfterShutdown, SR.AfterStop;
      assert allocated(baseline.Footprint()) && allocated(primary.Footprint());
      baseline.Stop();
      assert allocated(baseline.Footprint()) && allocated(primary.Footprint());
      primary.Shutdown();
      assert allocated(baseline.Footprint()) && allocated(primary.Footprint());
      baseline.Shutdown();
      assert allocated(baseline.Footprint()) && allocated(primary.Footprint());
    }

    static method Create(baselineSimulation: Simulation, primarySimulation: Simulation, scenario: SimulationScenario,
                         parametersAccepted: Acceptance)
      returns (comparison: Comparison?, failedVariant: Option<Variant>)
      requires baselineSimulation != primarySimulation
      modifies baselineSimulation, primarySimulation
      ensures comparison != null ==>
          && fresh(comparison) && comparison.Valid()
          && fresh(comparison.frame - {baselineSimulation, primarySimulation})
      ensures Created(old(baselineSimulation.View()), old(primarySimulation.View()), scenario, parametersAccepted)
           == (if comparison == null then None else Some(comparison.View()), failedVariant)
    {
      hide SR.Consistent, SR.Runtime.Linked, SR.Runtime.Footprint, SR.AfterRun, SR.CreatedForExecution, Collected,
           CreationFailure, StartFailure;
      comparison := null;
      var baseline, primary;
      baseline, primary, failedVariant := CreateRuntimes(baselineSimulation, primarySimulation, scenario);
      if failedVariant.Some? {
        return;
      }
      ghost var b0, p0 := baseline.Footprint(), primary.Footprint();
      label Made:
      failedVariant := StartRuntimes(baseline, primary, SR.Spec(scenario, BaselineVariant, parametersAccepted.baseline),
                                     SR.Spec(scenario, PrimaryVariant, parametersAccepted.primary));
      if failedVariant.Some? {
        return;
      }
      ghost var b1, p1 := baseline.Footprint(), primary.Footprint();
      ghost var others := (b1 - {baselineSimulation}) + (p1 - {primarySimulation});
      forall o | o in others
        ensures fresh(o)
      {
        if o in (b1 - b0) + (p1 - p0) {
          assert !old@Made(allocated(o));
          assert !old(allocated(o));
        } else {
          assert o in (b0 - {baselineSimulation}) + (p0 - {primarySimulation});
        }
      }
      comparison := Join(baseline, primary, scenario.dtSec, scenario.durationSec);
      if comparison != null {
        ghost var own := comparison.frame - {baselineSimulation, primarySimulation};
        assert own <= {comparison} + others;
        forall o | o in comparison.frame
          ensures o == baselineSimulation || o == primarySimulation || fresh(o)
        {
          assert o in own + {baselineSimulation, primarySimulation};
        }
      }
      failedVariant := if comparison == null then Some(PrimaryVariant) else None;
    }

    static method Join(baseline: SR.Runtime, primary: SR.Runtime, dtSec: real, durationSec: real)
      returns (comparison: Comparison?)
      requires baseline.Valid() && primary.Valid() && baseline.Footprint() !! primary.Footprint()
      modifies baseline.Footprint(), primary.Footprint()
      ensures comparison != null ==>
          && fresh(comparison) && comparison.Valid()
          && comparison.frame <= {comparison} + old(baseline.Footprint()) + old(primary.Footprint())
      ensures var (c, ok) := Collected(Assembled(old(baseline.View()), old(primary.View()), dtSec, durationSec));
              (comparison != null) == ok && (ok ==> comparison.View() == c)
    {
      hide SR.Consistent, SR.Runtime.Linked, SR.Runtime.Footprint, Collected;
      assert allocated(baseline.Footprint()) && allocated(primary.Footprint());
      comparison := new Comparison(baseline, primary, dtSec, durationSec);
      var ok := comparison.CollectEvents();
      if !ok {
        comparison.Shutdown();
        comparison := null;
      }
    }

    method TakeObservation() returns (observed: seq<SR.RecordedEvent>)
      requires Valid()
      modifies frame
      ensures Valid()
      ensures observed == old(events) && View() == old(View()).(events := [])
    {
      hide SR.Consistent, SR.Runtime.Linked, SR.Runtime.Footprint;
      assert allocated(baselineRuntime.Footprint()) && allocated(primaryRuntime.Footprint());
      observed := events;
      events := [];
    }

    method Shutdown()
      requires Valid()
      modifies frame
      ensures Valid()
      ensures View() == old(View()).(baseline := SR.AfterShutdown(old(View()).baseline),
                                     primary := SR.AfterShutdown(old(View()).primary))
    {
      hide SR.Consistent, SR.AfterShutdown, SR.Runtime.Linked, SR.Runtime.Footprint;
      assert allocated(baselineRuntime.Footprint()) && allocated(primaryRuntime.Footprint());
      baselineRuntime.Shutdown();
      assert allocated(baselineRuntime.Footprint()) && allocated(primaryRuntime.Footprint());
      primaryRuntime.Shutdown();
      assert allocated(baselineRuntime.Footprint()) && allocated(primaryRuntime.Footprint());
    }

    method StopRuntimes()
      requires Valid()
      modifies baselineRuntime.Footprint(), primaryRuntime.Footprint()
      ensures Valid()
      ensures View() == old(View()).(baseline := SR.AfterStop(old(View()).baseline),
                                     primary := SR.AfterStop(old(View()).primary))
    {
      hide SR.Consistent, SR.AfterStop, SR.Runtime.Linked, SR.Runtime.Footprint;
      assert allocated(baselineRuntime.Footprint()) && allocated(primaryRuntime.Footprint());
      baselineRuntime.Stop();
      assert allocated(baselineRuntime.Footprint()) && allocated(primaryRuntime.Footprint());
      primaryRuntime.Stop();
      assert allocated(baselineRuntime.Footprint()) && allocated(primaryRuntime.Footprint());
    }

    method TakeFromRuntimes() returns (baselineEvents: seq<SR.RecordedEvent>, primaryEvents: seq<SR.RecordedEvent>)
      requires Valid()
      modifies baselineRuntime.Footprint(), primaryRuntime.Footprint()
      ensures Valid()
      ensures baselineEvents == old(View()).baseline.pendingEvents && primaryEvents == old(View()).primary.pendingEvents
      ensures View() == old(View()).(baseline := SR.AfterTakeEvents(old(View()).baseline),
                                     primary := SR.AfterTakeEvents(old(View()).primary))
    {
      hide SR.Consistent, SR.AfterTakeEvents, SR.Runtime.Linked, SR.Runtime.Footprint;
      assert allocated(baselineRuntime.Footprint()) && allocated(primaryRuntime.Footprint());
      baselineEvents := baselineRuntime.TakeScenarioEvents();
      assert allocated(baselineRuntime.Footprint()) && allocated(primaryRuntime.Footprint());
      primaryEvents := primaryRuntime.TakeScenarioEvents();
      assert allocated(baselineRuntime.Footprint()) && allocated(primaryRuntime.Footprint());
    }

    method TickBaseline() returns (ok: bool)
      requires Valid()
      modifies baselineRuntime.Footprint()
      ensures Valid()
      ensures ok == SR.AfterTick(old(View()).baseline).1
      ensures View() == old(View()).(baseline := SR.AfterTick(old(View()).baseline).0)
    {
      hide SR.Consistent, SR.AfterTick, SR.Runtime.Linked, SR.Runtime.Footprint;
      assert allocated(baselineRuntime.Footprint()) && allocated(primaryRuntime.Footprint());
      ok := baselineRuntime.Tick();
      assert allocated(baselineRuntime.Footprint()) && allocated(primaryRuntime.Footprint());
    }

    method TickPrimary() returns (ok: bool)
      requires Valid()
      modifies primaryRuntime.Footprint()
      ensures Valid()
      ensures ok == SR.AfterTick(old(View()).primary).1
      ensures View() == old(View()).(primary := SR.AfterTick(old(View()).primary).0)
    {
      hide SR.Consistent, SR.AfterTick, SR.Runtime.Linked, SR.Runtime.Footprint;
      assert allocated(baselineRuntime.Footprint()) && allocated(primaryRuntime.Footprint());
      ok := primaryRuntime.Tick();
      assert allocated(baselineRuntime.Footprint()) && allocated(primaryRuntime.Footprint());
    }

    method Fail(variant: Variant, cause: Cause)
      requires Valid()
      modifies frame
      ensures Valid()
      ensures View() == FailedWith(old(View()), variant, cause)
    {
      hide SR.Consistent, SR.AfterStop, SR.Runtime.Linked, SR.Runtime.Footprint;
      lastError := VariantFailed(variant, cause);
      state := Failed;
      if variant == BaselineVariant {
        baselineResult := VariantResult(Failed, Some(cause));
        primaryResult := primaryResult.(state := Stopped);
      } else {
        primaryResult := VariantResult(Failed, Some(cause));
        baselineResult := baselineResult.(state := Stopped);
      }
      StopRuntimes();
    }

    static method Compare(left: seq<SR.RecordedEvent>, right: seq<SR.RecordedEvent>) returns (cause: Option<Cause>)
      ensures cause == Divergence(left, right)
    {
      if |left| != |right| {
        return Some(SchedulesDiverged);
      }
      for index := 0 to |left|
        invariant forall i :: 0 <= i < index ==> SameEvent(left[i], right[i])
      {
        if !SameEvent(left[index], right[index]) {
          return Some(EventsDiverged);
        }
      }
      return None;
    }

    method CollectEvents() returns (ok: bool)
      requires Valid()
      modifies frame
      ensures Valid()
      ensures (View(), ok) == Collected(old(View()))
    {
      hide SR.Consistent, SR.AfterStop, SR.Runtime.Linked, SR.Runtime.Footprint, FailedWith, Divergence;
      var baselineEvents, primaryEvents := TakeFromRuntimes();
      assert allocated(baselineRuntime.Footprint()) && allocated(primaryRuntime.Footprint());
      var cause := Compare(baselineEvents, primaryEvents);
      assert allocated(baselineRuntime.Footprint()) && allocated(primaryRuntime.Footprint());
      if cause.Some? {
        Fail(PrimaryVariant, cause.value);
        return false;
      }
      events := events + primaryEvents;
      return true;
    }

    method FindDivergedClockVariant() returns (variant: Option<Variant>)
      requires Valid()
      ensures variant == DivergedVariant(View())
    {
      hide SR.Consistent, SR.Runtime.Linked, SR.Runtime.Footprint;
      var expected := Min(durationSec, StepTime(stepCount, dtSec));
      var baselineTime := baselineRuntime.GetSimulationTimeSec();
      if Abs(baselineTime - expected) > CLOCK_TOLERANCE {
        return Some(BaselineVariant);
      }
      var primaryTime := primaryRuntime.GetSimulationTimeSec();
      if Abs(primaryTime - expected) > CLOCK_TOLERANCE {
        return Some(PrimaryVariant);
      }
      return None;
    }

    method Tick() returns (ok: bool)
      requires Valid()
      modifies frame
      ensures Valid()
      ensures (View(), ok) == AfterTick(old(View()))
    {
      hide SR.Consistent, SR.Runtime.Linked, SR.Runtime.Footprint, Ticked;
      if state != Running {
        lastError := NotRunning;
        return false;
      }
      events := [];
      ok := TickRuntimes();
    }

    method TickRuntimes() returns (ok: bool)
      requires Valid()
      modifies frame
      ensures Valid()
      ensures (View(), ok) == Ticked(old(View()))
    {
      hide SR.Consistent, SR.AfterTick, SR.Runtime.Linked, SR.Runtime.Footprint, FailedWith, Compared;
      ok := TickBaseline();
      if !ok {
        Fail(BaselineVariant, RuntimeFailure(baselineRuntime.lastError));
        return;
      }
      ok := TickPrimary();
      if !ok {
        Fail(PrimaryVariant, RuntimeFailure(primaryRuntime.lastError));
        return;
      }
      stepCount := stepCount + 1;
      ok := CompareStep();
    }

    // The rest of `Tick`, once both runtimes have advanced.
    method CompareStep() returns (ok: bool)
      requires Valid()
      modifies frame
      ensures Valid()
      ensures (View(), ok) == Compared(old(View()))
    {
      hide SR.Consistent, SR.Runtime.Linked, SR.Runtime.Footprint, SR.Runtime.View, FailedWith, Collected,
           DivergedVariant, Settled;
      assert allocated(baselineRuntime.Footprint()) && allocated(primaryRuntime.Footprint());
      var divergedVariant := FindDivergedClockVariant();
      assert allocated(baselineRuntime.Footprint()) && allocated(primaryRuntime.Footprint());
      if divergedVariant.Some? {
        Fail(divergedVariant.value, ClocksDiverged);
        return false;
      }
      ok := CollectEvents();
      if !ok {
        return;
      }
      ok := Settle();
    }

    // The end of `Tick`.
    method Settle() returns (ok: bool)
      requires Valid()
      modifies frame
      ensures Valid()
      ensures (View(), ok) == Settled(old(View()))
    {
      hide SR.Consistent, SR.Runtime.Linked, SR.Runtime.Footprint, FailedWith;
      var baselineActive := baselineRuntime.executor != null;
      var primaryActive := primaryRuntime.executor != null;
      if baselineActive != primaryActive {
        Fail(if baselineActive then PrimaryVariant else BaselineVariant, CompletedApart);
        return false;
      }
      if !baselineActive {
        state := Completed;
        baselineResult := baselineResult.(state := Completed);
        primaryResult := primaryResult.(state := Completed);
      }
      lastError := NoError;
      return true;
    }

    method Stop()
      requires Valid()
      modifies frame
      ensures Valid()
      ensures View() == AfterStop(old(View()))
    {
      hide SR.Consistent, SR.AfterStop, SR.Runtime.Linked, SR.Runtime.Footprint, Collected;
      if state != Running {
        return;
      }
      StopRuntimes();
      var ok := CollectEvents();
      if !ok {
        return;
      }
      state := Stopped;
      baselineResult := baselineResult.(state := Stopped);
      primaryResult := primaryResult.(state := Stopped);
    }
  }
}
