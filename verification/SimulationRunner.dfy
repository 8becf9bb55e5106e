/** The headless runner: it drives a comparison to its end, tells its observers about
    it, and reports how the run went. */
module SimulationRunner {
  import opened Prelude
  import opened SimulationModel
  import opened Scenario
  import SC = SimulationComparison
  import Lockstep

  datatype ExitCode =
    | Success | GeneralFailure | ScenarioLoadFailure | SimulationInitializationFailure | SimulationExecutionFailure
    | OutputFailure

  // The status texts; `Unset` is the empty one.
  datatype Status = Unset | Failed | Interrupted | Completed

  datatype RunnerResult = RunnerResult(
    exitCode: ExitCode, status: Status, simulationTimeSec: real, steps: nat, error: string,
    baselineStatus: Status, baselineError: string, primaryStatus: Status, primaryError: string)

  const FRESH := RunnerResult(GeneralFailure, Failed, 0.0, 0, "", Unset, "", Unset, "")

  // How an observer answers a call; it may refuse without giving a reason.
  datatype Reply = Accepts | Refuses(error: string)

  datatype Observer = Observer(onStarted: Reply, onStep: nat -> Reply, onFinished: Reply)

  // A call to the observer registered at that index.
  datatype Call = Started(observer: nat) | Stepped(observer: nat, round: nat) | Finished(observer: nat)

  /** What comes before the comparison: output directory, files, scenario and
      parameters are ready, or the run is refused. */
  datatype Preparation =
    | NoOutputDirectory(error: string)
    | NotWritten(error: string)
    | NotLoaded(error: string)
    | Prepared(scenario: SimulationScenario, parametersAccepted: SC.Acceptance)

  /** The world of a run: `running(k)` is the signal flag at the k-th poll, and
      `manifestError` why the manifest cannot be written. */
  datatype World = World(preparation: Preparation, running: nat -> bool, manifestError: Option<string>)

  // The texts of errors that arise elsewhere.
  datatype Texts = Texts(creation: Option<Variant> -> string, lastError: SC.ComparisonError -> string,
                         cause: SC.Cause -> string)

  // The runner's own messages.
  datatype Message =
    | Interruption | StartRefusal | StepRefusal | FinishRefusal | PeerFailed(Variant) | PeerNotCreated(Variant)

  function TextFor(m: Message): (text: string)
    ensures text != ""
  {
    match m
    case Interruption => "interrupted by signal"
    case StartRefusal => "run observer failed to start"
    case StepRefusal => "run observer failed to consume simulation step"
    case FinishRefusal => "run observer failed to finalize"
    case PeerFailed(BaselineVariant) => "stopped because baseline failed"
    case PeerFailed(PrimaryVariant) => "stopped because primary failed"
    case PeerNotCreated(BaselineVariant) => "stopped because baseline initialization failed"
    case PeerNotCreated(PrimaryVariant) => "stopped because primary initialization failed"
  }

  function TextOf(reply: Reply, fallback: Message): (text: string)
    requires reply.Refuses?
    ensures text != ""
  {
    if reply.error == "" then TextFor(fallback) else reply.error
  }

  function WithOutputFailure(r: RunnerResult, error: string): RunnerResult {
    r.(status := Failed, exitCode := OutputFailure,
       error := if r.error == "" then error
                else if error != "" && r.error != error then r.error + "; " + error else r.error)
  }

  /** A failed output never hides the error before it: that stays in front, and the new one
      is told unless it is empty or the same. */
  lemma OutputFailureKeepsError(r: RunnerResult, error: string)
    ensures var s := WithOutputFailure(r, error);
            && s.exitCode.OutputFailure? && s.status.Failed?
            && |r.error| <= |s.error| && s.error[..|r.error|] == r.error
            && (error != r.error ==> |error| <= |s.error| && s.error[|s.error| - |error|..] == error)
            && (error == r.error || error == "" ==> s.error == r.error)
            && s == r.(exitCode := s.exitCode, status := s.status, error := s.error)
  {
  }

  function WithManifest(r: RunnerResult, world: World): RunnerResult {
    match world.manifestError
    case Some(error) => WithOutputFailure(r, error)
    case None => r
  }

  function ComparisonStatus(state: SC.ComparisonState, runStatus: Status): Status {
    match state
    case Completed => Status.Completed
    case Failed => Status.Failed
    case Stopped => if runStatus.Interrupted? then Interrupted else Status.Failed
    case Running => Status.Failed
  }

  function ErrorText(v: SC.VariantResult, texts: Texts): string {
    match v.error
    case Some(cause) => texts.cause(cause)
    case None => ""
  }

  // The error shown for one variant, given its peer.
  function VariantError(v: SC.VariantResult, peer: SC.VariantResult, peerFailed: Message, r: RunnerResult,
                        texts: Texts): string {
    var own := ErrorText(v, texts);
    if r.status.Completed? || own != "" then own
    else if v.state.Failed? then r.error
    else if v.state.Stopped? then (if peer.state.Failed? then TextFor(peerFailed) else r.error)
    else ""
  }

  function Populated(r: RunnerResult, baseline: SC.VariantResult, primary: SC.VariantResult,
                     texts: Texts): (s: RunnerResult)
    ensures s.status == r.status && s.exitCode == r.exitCode && s.error == r.error && s.steps == r.steps
    ensures s.simulationTimeSec == r.simulationTimeSec
    ensures s.baselineStatus == ComparisonStatus(baseline.state, r.status)
    ensures s.primaryStatus == ComparisonStatus(primary.state, r.status)
  {
    r.(baselineStatus := ComparisonStatus(baseline.state, r.status),
       baselineError := VariantError(baseline, primary, PeerFailed(PrimaryVariant), r, texts),
       primaryStatus := ComparisonStatus(primary.state, r.status),
       primaryError := VariantError(primary, baseline, PeerFailed(BaselineVariant), r, texts))
  }

  /** What is shown for the two variants after a run whose own error is told in `r`: each that
      failed shows its cause, its peer that it was stopped for that; without a failure both
      show the run's own end. */
  lemma PopulatedMeans(r: RunnerResult, baseline: SC.VariantResult, primary: SC.VariantResult, texts: Texts)
    ensures var s := Populated(r, baseline, primary, texts);
            && (r.status.Completed? && baseline == SC.VariantResult(SC.Completed, None) == primary ==>
                  && s.baselineStatus.Completed? && s.baselineError == ""
                  && s.primaryStatus.Completed? && s.primaryError == "")
            && (r.status.Failed? && FailedAs(baseline, texts) && primary == SC.VariantResult(SC.Stopped, None) ==>
                  && s.baselineStatus.Failed? && s.baselineError == texts.cause(baseline.error.value)
                  && s.primaryStatus.Failed? && s.primaryError == "stopped because baseline failed")
            && (r.status.Failed? && FailedAs(primary, texts) && baseline == SC.VariantResult(SC.Stopped, None) ==>
                  && s.primaryStatus.Failed? && s.primaryError == texts.cause(primary.error.value)
                  && s.baselineStatus.Failed? && s.baselineError == "stopped because primary failed")
            && (!r.status.Completed? && baseline == SC.VariantResult(SC.Stopped, None) == primary ==>
                  && s.baselineError == r.error && s.primaryError == r.error
                  && s.baselineStatus == s.primaryStatus
                  && s.baselineStatus == if r.status.Interrupted? then Interrupted else Status.Failed)
  {
  }

  // A variant that failed for a cause with a text.
  predicate FailedAs(v: SC.VariantResult, texts: Texts) {
    v.state.Failed? && v.error.Some? && texts.cause(v.error.value) != ""
  }

  // The fields that tell about the two variants are those of `Populated`.
  predicate ShowsVariants(result: RunnerResult, r: RunnerResult, baseline: SC.VariantResult, primary: SC.VariantResult,
                          texts: Texts) {
    var s := Populated(r, baseline, primary, texts);
    && result.baselineStatus == s.baselineStatus && result.baselineError == s.baselineError
    && result.primaryStatus == s.primaryStatus && result.primaryError == s.primaryError
  }

  lemma ShowsPopulated(r: RunnerResult, before: RunnerResult, baseline: SC.VariantResult, primary: SC.VariantResult,
                       texts: Texts)
    requires r.status == before.status && r.error == before.error
    ensures ShowsVariants(Populated(r, baseline, primary, texts), before, baseline, primary, texts)
  {
  }

  function CreationFailed(failedVariant: Option<Variant>, texts: Texts): RunnerResult {
    var error := texts.creation(failedVariant);
    var r := FRESH.(exitCode := SimulationInitializationFailure, error := error, baselineStatus := Status.Failed,
                    primaryStatus := Status.Failed);
    match failedVariant
    case Some(BaselineVariant) =>
      r.(baselineError := error, primaryError := TextFor(PeerNotCreated(BaselineVariant)))
    case Some(PrimaryVariant) =>
      r.(baselineError := TextFor(PeerNotCreated(PrimaryVariant)), primaryError := error)
    case None => r.(baselineError := error, primaryError := error)
  }

  /** A runtime that cannot be made is told with its error, and its peer as stopped for it. */
  lemma CreationBlames(v: Variant, texts: Texts)
    ensures var r := CreationFailed(Some(v), texts);
            && r.error == texts.creation(Some(v)) && r.baselineStatus.Failed? && r.primaryStatus.Failed?
            && (v.BaselineVariant? ==>
                  r.baselineError == r.error && r.primaryError == "stopped because baseline initialization failed")
            && (v.PrimaryVariant? ==>
                  r.primaryError == r.error && r.baselineError == "stopped because primary initialization failed")
  {
  }

  // The calls of a run

  /** `asked` observers were told of the start and `accepted` of them agreed; then
      came `rounds` full rounds of steps and `partial` calls of one more. */
  datatype Transcript = Transcript(asked: nat, accepted: nat, rounds: nat, partial: nat)

  function Starts(n: nat): (calls: seq<Call>)
    ensures |calls| == n
  {
    if n == 0 then [] else Starts(n - 1) + [Started(n - 1)]
  }

  function StepRound(n: nat, round: nat): (calls: seq<Call>)
    ensures |calls| == n
  {
    if n == 0 then [] else StepRound(n - 1, round) + [Stepped(n - 1, round)]
  }

  function StepRounds(n: nat, rounds: nat): seq<Call> {
    if rounds == 0 then [] else StepRounds(n, rounds - 1) + StepRound(n, rounds - 1)
  }

  function Finishes(n: nat): (calls: seq<Call>)
    ensures |calls| == n
  {
    if n == 0 then [] else Finishes(n - 1) + [Finished(n - 1)]
  }

  function Calls(t: Transcript): seq<Call> {
    Starts(t.asked) + (StepRounds(t.accepted, t.rounds) + StepRound(t.partial, t.rounds)) + Finishes(t.accepted)
  }

  // The calls that one observer saw.
  function Seen(calls: seq<Call>, i: nat): seq<Call> {
    if calls == [] then []
    else Seen(calls[..|calls| - 1], i) + (if calls[|calls| - 1].observer == i then [calls[|calls| - 1]] else [])
  }

  lemma {:induction false} SeenJoins(a: seq<Call>, b: seq<Call>, i: nat)
    ensures Seen(a + b, i) == Seen(a, i) + Seen(b, i)
  {
    if b == [] {
      assert a + b == a;
    } else {
      var last := |b| - 1;
      assert (a + b)[..|a + b| - 1] == a + b[..last];
      SeenJoins(a, b[..last], i);
    }
  }

  lemma {:induction false} SeenStarts(n: nat, i: nat)
    ensures Seen(Starts(n), i) == if i < n then [Started(i)] else []
  {
    if n > 0 {
      SeenStarts(n - 1, i);
      assert Starts(n)[..n - 1] == Starts(n - 1);
    }
  }

  lemma {:induction false} SeenRound(n: nat, round: nat, i: nat)
    ensures i < n ==> Seen(StepRound(n, round), i) == [Stepped(i, round)]
    ensures i >= n ==> Seen(StepRound(n, round), i) == []
  {
    if n > 0 {
      SeenRound(n - 1, round, i);
      assert StepRound(n, round)[..n - 1] == StepRound(n - 1, round);
    }
  }

  lemma {:induction false} SeenFinishes(n: nat, i: nat)
    ensures Seen(Finishes(n), i) == if i < n then [Finished(i)] else []
  {
    if n > 0 {
      SeenFinishes(n - 1, i);
      assert Finishes(n)[..n - 1] == Finishes(n - 1);
    }
  }

  function StepsOf(i: nat, rounds: nat): seq<Call> {
    if rounds == 0 then [] else StepsOf(i, rounds - 1) + [Stepped(i, rounds - 1)]
  }

  lemma {:induction false} SeenRounds(n: nat, rounds: nat, i: nat)
    ensures i < n ==> Seen(StepRounds(n, rounds), i) == StepsOf(i, rounds)
    ensures i >= n ==> Seen(StepRounds(n, rounds), i) == []
  {
    if rounds > 0 {
      hide Seen, StepRound;
      SeenRounds(n, rounds - 1, i);
      SeenJoins(StepRounds(n, rounds - 1), StepRound(n, rounds - 1), i);
      SeenRound(n, rounds - 1, i);
    }
  }

  /** What every observer sees: nothing, or a start it refused, or its start, its
      steps in order, and then exactly one finish. */
  lemma ObserverSees(t: Transcript, i: nat)
    requires t.accepted <= t.asked && t.partial <= t.accepted
    ensures Seen(Calls(t), i) ==
        if i >= t.asked then []
        else if i >= t.accepted then [Started(i)]
        else [Started(i)] + StepsOf(i, if i < t.partial then t.rounds + 1 else t.rounds) + [Finished(i)]
  {
    hide Seen, Starts, StepRounds, StepRound, Finishes;
    var steps := StepRounds(t.accepted, t.rounds) + StepRound(t.partial, t.rounds);
    SeenJoins(Starts(t.asked) + steps, Finishes(t.accepted), i);
    SeenJoins(Starts(t.asked), steps, i);
    SeenJoins(StepRounds(t.accepted, t.rounds), StepRound(t.partial, t.rounds), i);
    SeenStarts(t.asked, i);
    SeenRounds(t.accepted, t.rounds, i);
    SeenRound(t.partial, t.rounds, i);
    SeenFinishes(t.accepted, i);
  }

  // What a flawless run needs

  predicate RoundAccepted(observers: seq<Observer>, round: nat) {
    forall j :: 0 <= j < |observers| ==> observers[j].onStep(round).Accepts?
  }

  // No signal and no refusal in the first `rounds` rounds.
  ghost predicate Smooth(observers: seq<Observer>, world: World, rounds: nat) {
    forall r :: 0 <= r < rounds ==> world.running(r) && RoundAccepted(observers, r)
  }

  // A comparison as `Create` returns it, and the number of its steps.
  ghost predicate FreshSession(c: SC.ComparisonView, sc: SimulationScenario, n: nat) {
    && Lockstep.Locked(c, sc, c.events) && c.stepCount == 0
    && CalculateStepCount(sc.durationSec, sc.dtSec) == Some(n)
  }

  lemma FreshShape(c: SC.ComparisonView, sc: SimulationScenario, n: nat)
    requires FreshSession(c, sc, n)
    ensures SC.Sound(c) && c.baseline.primary.Some? && c.primary.primary.Some? && c.state.Running? && n > 0
    ensures c.stepCount == 0
  {
    Lockstep.LockedShape(c, sc, c.events, n);
  }

  ghost predicate Flawless(observers: seq<Observer>, world: World, c: SC.ComparisonView, sc: SimulationScenario, n: nat)
    requires FreshSession(c, sc, n)
  {
    FreshShape(c, sc, n);
    && Smooth(observers, world, n)
    && Lockstep.StepsSucceed(c, n) && Lockstep.Overshoot(sc, n) <= SC.CLOCK_TOLERANCE
  }

  function AfterFinishes(r: RunnerResult, observers: seq<Observer>, n: nat): (s: RunnerResult)
    requires n <= |observers|
    ensures (forall i :: 0 <= i < n ==> observers[i].onFinished.Accepts?) ==> s == r
    ensures (exists i :: 0 <= i < n && observers[i].onFinished.Refuses?) ==>
              s.exitCode.OutputFailure? && s.status.Failed? && s.error != ""
    ensures s == r || (s.exitCode.OutputFailure? && s.status.Failed? && s.error != "")
    ensures s == r.(status := s.status, exitCode := s.exitCode, error := s.error)
  {
    if n == 0 then r
    else
      var s := AfterFinishes(r, observers, n - 1);
      match observers[n - 1].onFinished
      case Accepts => s
      case Refuses(_) => WithOutputFailure(s, TextOf(observers[n - 1].onFinished, FinishRefusal))
  }

  // Where a run of the comparison stands after `k` ticks.
  lemma RunStands(c: SC.ComparisonView, sc: SimulationScenario, n: nat, k: nat)
    requires FreshSession(c, sc, n) && k <= n
    ensures SC.Sound(c)
    ensures var d := Lockstep.Run(c, k);
            && (d.state.Running? ==> k < n && Lockstep.ResultsMatch(d) && d.stepCount == k)
            && (d.state.Completed? ==> k == n && Lockstep.ResultsMatch(d))
            && !d.state.Stopped?
    ensures var o, d := Observed(c, k), Lockstep.Run(c, k);
            o.state == d.state && o.baselineResult == d.baselineResult && o.primaryResult == d.primaryResult
  {
    FreshShape(c, sc, n);
    if k < n {
      Lockstep.RunLocks(c, sc, n, k);
      if Lockstep.StepsSucceed(c, k) {
        Lockstep.LockedShape(Lockstep.Run(c, k), sc, Lockstep.Emitted(c, k), n);
      }
      hide SC.Sound, Lockstep.Locked, Lockstep.Run, Lockstep.StepsSucceed;
    } else {
      RunEnds(c, sc, n);
    }
  }

  lemma RunEnds(c: SC.ComparisonView, sc: SimulationScenario, n: nat)
    requires FreshSession(c, sc, n)
    ensures SC.Sound(c)
    ensures var d := Lockstep.Run(c, n); (d.state.Completed? || d.state.Failed?) && Lockstep.ResultsMatch(d)
  {
    FreshShape(c, sc, n);
    Lockstep.CompletesIff(c, sc, n);
    RunMatches(c, sc, n);
  }

  lemma {:induction false} RunMatches(c: SC.ComparisonView, sc: SimulationScenario, k: nat)
    requires SC.Sound(c) && Lockstep.ResultsMatch(c)
    ensures Lockstep.ResultsMatch(Lockstep.Run(c, k))
    decreases k
  {
    hide Lockstep.ResultsMatch, SC.AfterTick;
    if k > 0 {
      RunMatches(c, sc, k - 1);
      Lockstep.OneOutcome(Lockstep.Run(c, k - 1), Lockstep.Tick);
    }
  }

  // Once failed, a run stays failed.
  lemma {:induction false} FailedStays(c: SC.ComparisonView, k: nat, n: nat)
    requires SC.Sound(c) && k <= n && Lockstep.Run(c, k).state.Failed?
    ensures Lockstep.Run(c, n).state.Failed?
    decreases n
  {
    hide SC.Sound, SC.AfterTick;
    if k < n {
      FailedStays(c, k, n - 1);
      Lockstep.TickOfFailed(Lockstep.Run(c, n - 1));
    }
  }

  // A failing tick leaves the error of the variant that failed.
  lemma FailingTickExplains(c: SC.ComparisonView)
    requires SC.Sound(c) && c.state.Running? && !SC.AfterTick(c).1
    ensures SC.AfterTick(c).0.lastError.VariantFailed?
  {
    hide SC.SR.Consistent, SC.SR.AfterTick, SC.SR.AfterStop, SC.Divergence, SC.DivergedVariant;
    SC.SR.TickKeepsConsistent(c.baseline);
    SC.SR.TickKeepsConsistent(c.primary);
    var e := c.(events := [], baseline := SC.SR.AfterTick(c.baseline).0, primary := SC.SR.AfterTick(c.primary).0,
                stepCount := c.stepCount + 1);
    SC.CollectedSound(e);
  }

  // The session after `k` ticks whose observations were taken.
  ghost function Observed(c: SC.ComparisonView, k: nat): (d: SC.ComparisonView)
    requires SC.Sound(c)
    ensures SC.Sound(d)
  {
    TakingKeepsSound(Lockstep.Run(c, k));
    Lockstep.Run(c, k).(events := [])
  }

  lemma TakingKeepsSound(c: SC.ComparisonView)
    requires SC.Sound(c)
    ensures SC.Sound(c.(events := []))
  {
    hide SC.SR.Consistent;
  }

  // A session tick: the comparison's, and its observation taken when it succeeds.
  ghost function SessionTick(c: SC.ComparisonView): (SC.ComparisonView, bool)
    requires SC.Sound(c)
  {
    var (d, ok) := SC.AfterTick(c);
    (if ok then d.(events := []) else d, ok)
  }

  /** One tick of the loop: it succeeds and moves the run on, or it fails for good. */
  lemma LoopTick(c: SC.ComparisonView, sc: SimulationScenario, n: nat, k: nat)
    requires FreshSession(c, sc, n) && k <= n && SC.Sound(c) && Observed(c, k).state.Running?
    ensures k < n
    ensures var (d, ok) := SessionTick(Observed(c, k));
            && (ok ==> d == Observed(c, k + 1) && !d.state.Failed? && d.stepCount == k + 1)
            && (!ok ==> d.lastError.VariantFailed? && CannotComplete(c, sc, n) && d == Lockstep.Run(c, k + 1))
            && (!ok <==> Lockstep.Run(c, k + 1).state.Failed?)
  {
    hide SC.AfterTick, SC.Sound, Lockstep.StepsSucceed, Lockstep.Overshoot, Lockstep.ResultsMatch, Lockstep.Run,
         FreshSession;
    FreshShape(c, sc, n);
    RunStands(c, sc, n, k);
    RunStands(c, sc, n, k + 1);
    Lockstep.RunLast(c, k + 1);
    var d := Lockstep.Run(c, k);
    TickForgetsEvents(d);
    Lockstep.TickMatches(d);
    if SC.AfterTick(d).1 {
      TickCounts(d);
    } else {
      FailingTickExplains(d);
      FailedStays(c, k + 1, n);
      FailedRun(c, sc, n);
    }
  }

  // Some simulation step fails, or the last one overshoots the duration.
  ghost predicate CannotComplete(c: SC.ComparisonView, sc: SimulationScenario, n: nat) {
    && c.baseline.primary.Some? && c.primary.primary.Some?
    && !(Lockstep.StepsSucceed(c, n) && Lockstep.Overshoot(sc, n) <= SC.CLOCK_TOLERANCE)
  }

  lemma TickForgetsEvents(c: SC.ComparisonView)
    requires SC.Sound(c) && c.state.Running?
    ensures SC.Sound(c.(events := [])) && SC.AfterTick(c.(events := [])) == SC.AfterTick(c)
  {
    hide SC.Ticked, SC.SR.Consistent;
  }

  lemma FailedRun(c: SC.ComparisonView, sc: SimulationScenario, n: nat)
    requires FreshSession(c, sc, n) && SC.Sound(c) && Lockstep.Run(c, n).state.Failed?
    ensures CannotComplete(c, sc, n)
  {
    hide SC.Sound, Lockstep.StepsSucceed, Lockstep.Overshoot, Lockstep.Run, Lockstep.Locked, Lockstep.WholeRun,
         Lockstep.Emitted;
    Lockstep.CompletesIff(c, sc, n);
  }

  lemma TickCounts(c: SC.ComparisonView)
    requires SC.Sound(c) && c.state.Running? && SC.AfterTick(c).1
    ensures SC.AfterTick(c).0.stepCount == c.stepCount + 1
  {
    hide SC.SR.Consistent, SC.SR.AfterTick, SC.SR.AfterStop, SC.Divergence, SC.DivergedVariant;
  }

  ghost predicate Explained(texts: Texts) {
    && (forall v: Variant, cause: SC.Cause :: texts.lastError(SC.VariantFailed(v, cause)) != "")
    && (forall v: Option<Variant> :: texts.creation(v) != "")
  }

  lemma ExplainedError(texts: Texts, e: SC.ComparisonError)
    requires Explained(texts) && e.VariantFailed?
    ensures texts.lastError(e) != ""
  {
    assert e == SC.VariantFailed(e.variant, e.cause);
  }

  // One round of step calls, until an observer refuses.
  method NotifyStep(observers: seq<Observer>, round: nat) returns (refusal: Option<string>, calls: seq<Call>)
    ensures |calls| <= |observers| && calls == StepRound(|calls|, round)
    ensures refusal.None? == RoundAccepted(observers, round)
    ensures if refusal.None? then |calls| == |observers|
            else refusal.value != "" && RefusedWith(observers, round, refusal.value)
  {
    calls := [];
    for i := 0 to |observers|
      invariant |calls| == i && calls == StepRound(i, round)
      invariant forall j :: 0 <= j < i ==> observers[j].onStep(round).Accepts?
    {
      calls := calls + [Stepped(i, round)];
      assert calls == StepRound(i + 1, round);
      if observers[i].onStep(round).Refuses? {
        refusal := Some(TextOf(observers[i].onStep(round), StepRefusal));
        return;
      }
    }
    refusal := None;
  }

  // The finish calls to the first `started` observers.
  method NotifyFinished(observers: seq<Observer>, before: RunnerResult, started: nat)
    returns (result: RunnerResult, calls: seq<Call>)
    requires started <= |observers|
    ensures calls == Finishes(started)
    ensures result == AfterFinishes(before, observers, started)
  {
    result, calls := before, [];
    for i := 0 to started
      invariant calls == Finishes(i)
      invariant result == AfterFinishes(before, observers, i)
    {
      calls := calls + [Finished(i)];
      assert calls == Finishes(i + 1);
      if observers[i].onFinished.Refuses? {
        result := WithOutputFailure(result, TextOf(observers[i].onFinished, FinishRefusal));
      }
    }
  }

  method TickSession(session: SC.Comparison) returns (ok: bool)
    requires session.Valid()
    modifies session.frame
    ensures session.Valid()
    ensures (session.View(), ok) == SessionTick(old(session.View()))
  {
    hide SC.Comparison.Valid, SC.Comparison.View, SC.AfterTick;
    ok := session.Tick();
    if ok {
      var _ := session.TakeObservation();
    }
  }

  // The text of a refusal: the observer's own, or the given one where it has none.
  predicate Says(reply: Reply, fallback: Message, text: string) {
    && reply.Refuses?
    && (reply.error != "" ==> text == reply.error)
    && (reply.error == "" ==> text == TextFor(fallback))
  }

  // The first refusal of a round.
  ghost predicate RefusedWith(observers: seq<Observer>, round: nat, text: string) {
    exists i :: 0 <= i < |observers|
      && (forall j :: 0 <= j < i ==> observers[j].onStep(round).Accepts?)
      && Says(observers[i].onStep(round), StepRefusal, text)
  }

  /** What ended the loop at round `k`, and how it is reported: a signal, else a tick at
      which the comparison fails, else an observer that refuses the step. */
  ghost predicate LoopEnds(observers: seq<Observer>, world: World, texts: Texts, c: SC.ComparisonView, k: nat,
                           result: RunnerResult)
    requires SC.Sound(c)
  {
    var next := Lockstep.Run(c, k + 1);
    if !world.running(k) then
      result.status.Interrupted? && result.exitCode.GeneralFailure? && result.error == TextFor(Interruption)
    else if next.state.Failed? then
      && result.status.Failed? && result.exitCode.SimulationExecutionFailure?
      && result.error == texts.lastError(next.lastError)
    else
      result.status.Failed? && result.exitCode.OutputFailure? && RefusedWith(observers, k, result.error)
  }

  // The reported fields decide.
  lemma LoopEndsBy(observers: seq<Observer>, world: World, texts: Texts, c: SC.ComparisonView, k: nat, r: RunnerResult,
                   s: RunnerResult)
    requires SC.Sound(c) && LoopEnds(observers, world, texts, c, k, r)
    requires s.status == r.status && s.exitCode == r.exitCode && s.error == r.error
    ensures LoopEnds(observers, world, texts, c, k, s)
  {
    hide Lockstep.Run, SC.Sound, RefusedWith;
  }

  /** What one pass of the loop does at round `k`: it makes one round of calls and
      moves the run on, or there is an error and the run cannot be flawless. */
  ghost predicate Advanced(observers: seq<Observer>, world: World, texts: Texts, c: SC.ComparisonView,
                           sc: SimulationScenario, n: nat, k: nat,
                           view: SC.ComparisonView, result: RunnerResult, calls: seq<Call>)
    requires SC.Sound(c)
  {
    && |calls| <= |observers| && k < n && calls == StepRound(|calls|, k)
    && (result.error == "" ==>
          && view == Observed(c, k + 1) && view.stepCount == k + 1 && !view.state.Failed?
          && |calls| == |observers| && result.exitCode.GeneralFailure?
          && world.running(k) && RoundAccepted(observers, k))
    && (result.error != "" ==>
          && !result.status.Completed? && !result.exitCode.Success?
          && LoopEnds(observers, world, texts, c, k, result)
          && (!world.running(k) || !RoundAccepted(observers, k) || CannotComplete(c, sc, n)))
  }

  // One pass of the loop of `Run`; an error means that the loop ends.
  method Advance(observers: seq<Observer>, session: SC.Comparison, world: World, texts: Texts, before: RunnerResult,
                 ghost c: SC.ComparisonView, ghost sc: SimulationScenario, ghost n: nat, ghost k: nat)
    returns (result: RunnerResult, calls: seq<Call>)
    requires session.Valid() && Explained(texts) && before.error == "" && before.exitCode.GeneralFailure?
    requires FreshSession(c, sc, n) && SC.Sound(c) && k <= n && session.state.Running?
    requires k == session.stepCount && session.View() == Observed(c, k)
    modifies session.frame
    ensures session.Valid()
    ensures Advanced(observers, world, texts, c, sc, n, k, session.View(), result, calls)
  {
    hide *;
    LoopTick(c, sc, n, k);
    if !world.running(session.stepCount) {
      result, calls := before.(status := Interrupted, exitCode := GeneralFailure, error := TextFor(Interruption)), [];
      session.Stop();
      EndedBySignal(observers, world, texts, c, k, result);
      NotAdvanced(observers, world, texts, c, sc, n, k, session.View(), result, calls);
      return;
    }
    var ok := TickSession(session);
    if !ok {
      ExplainedError(texts, session.lastError);
      result, calls := before.(status := Status.Failed, exitCode := SimulationExecutionFailure,
                               error := texts.lastError(session.lastError)), [];
      session.Stop();
      EndedByTick(observers, world, texts, c, k, result);
      NotAdvanced(observers, world, texts, c, sc, n, k, session.View(), result, calls);
      return;
    }
    result := before.(steps := session.stepCount);
    var refusal;
    refusal, calls := NotifyStepOf(observers, session);
    if refusal.Some? {
      result := result.(status := Status.Failed, exitCode := OutputFailure, error := refusal.value);
      EndedByObserver(observers, world, texts, c, k, result);
      NotAdvanced(observers, world, texts, c, sc, n, k, session.View(), result, calls);
    } else {
      HasAdvanced(observers, world, texts, c, sc, n, k, result, calls);
    }
  }

  lemma EndedBySignal(observers: seq<Observer>, world: World, texts: Texts, c: SC.ComparisonView, k: nat,
                      result: RunnerResult)
    requires SC.Sound(c) && !world.running(k)
    requires result.status.Interrupted? && result.exitCode.GeneralFailure? && result.error == TextFor(Interruption)
    ensures LoopEnds(observers, world, texts, c, k, result)
  {
    hide SC.Sound, Lockstep.Run, TextFor;
  }

  lemma EndedByTick(observers: seq<Observer>, world: World, texts: Texts, c: SC.ComparisonView, k: nat,
                    result: RunnerResult)
    requires SC.Sound(c) && world.running(k) && Lockstep.Run(c, k + 1).state.Failed?
    requires result.status.Failed? && result.exitCode.SimulationExecutionFailure?
    requires result.error == texts.lastError(Lockstep.Run(c, k + 1).lastError)
    ensures LoopEnds(observers, world, texts, c, k, result)
  {
    hide SC.Sound, Lockstep.Run;
  }

  lemma EndedByObserver(observers: seq<Observer>, world: World, texts: Texts, c: SC.ComparisonView, k: nat,
                        result: RunnerResult)
    requires SC.Sound(c) && world.running(k) && !Lockstep.Run(c, k + 1).state.Failed?
    requires result.status.Failed? && result.exitCode.OutputFailure? && RefusedWith(observers, k, result.error)
    ensures LoopEnds(observers, world, texts, c, k, result)
  {
    hide SC.Sound, Lockstep.Run, RefusedWith;
  }

  lemma NotAdvanced(observers: seq<Observer>, world: World, texts: Texts, c: SC.ComparisonView, sc: SimulationScenario,
                    n: nat, k: nat, view: SC.ComparisonView, result: RunnerResult, calls: seq<Call>)
    requires SC.Sound(c) && k < n && result.error != "" && !result.status.Completed? && !result.exitCode.Success?
    requires calls == [] || (|calls| <= |observers| && calls == StepRound(|calls|, k))
    requires !world.running(k) || !RoundAccepted(observers, k) || CannotComplete(c, sc, n)
    requires LoopEnds(observers, world, texts, c, k, result)
    ensures Advanced(observers, world, texts, c, sc, n, k, view, result, calls)
  {
    assert StepRound(0, k) == [];
    hide SC.Sound, RoundAccepted, CannotComplete, StepRound, LoopEnds;
  }

  lemma HasAdvanced(observers: seq<Observer>, world: World, texts: Texts, c: SC.ComparisonView, sc: SimulationScenario,
                    n: nat, k: nat, result: RunnerResult, calls: seq<Call>)
    requires SC.Sound(c) && k < n && result.error == "" && result.exitCode.GeneralFailure?
    requires Observed(c, k + 1).stepCount == k + 1 && !Observed(c, k + 1).state.Failed?
    requires |calls| == |observers| && calls == StepRound(|calls|, k)
    requires world.running(k) && RoundAccepted(observers, k)
    ensures Advanced(observers, world, texts, c, sc, n, k, Observed(c, k + 1), result, calls)
  {
    hide SC.Sound, RoundAccepted, Observed, StepRound, LoopEnds;
  }

  // A round of step calls; the session is stopped when an observer refuses.
  method NotifyStepOf(observers: seq<Observer>, session: SC.Comparison)
      returns (refusal: Option<string>, calls: seq<Call>)
    requires session.Valid() && session.stepCount > 0
    modifies session.frame
    ensures session.Valid()
    ensures var round := old(session.stepCount) - 1;
            && |calls| <= |observers| && calls == StepRound(|calls|, round)
            && refusal.None? == RoundAccepted(observers, round)
    ensures if refusal.None? then |calls| == |observers| && session.View() == old(session.View())
            else refusal.value != "" && RefusedWith(observers, old(session.stepCount) - 1, refusal.value)
    ensures refusal.None? ==> session.stepCount == old(session.stepCount) && session.state == old(session.state)
  {
    hide *;
    refusal, calls := NotifyStep(observers, session.stepCount - 1);
    if refusal.Some? {
      session.Stop();
    }
  }

  // The loop of `Run` after `rounds` full rounds and `partial` calls of another.
  ghost predicate Driving(observers: seq<Observer>, world: World, texts: Texts, c: SC.ComparisonView,
                          sc: SimulationScenario, n: nat,
                          view: SC.ComparisonView, result: RunnerResult, calls: seq<Call>, rounds: nat, partial: nat) {
    var m := |observers|;
    && FreshSession(c, sc, n) && SC.Sound(c)
    && partial <= m && rounds <= n
    && (result.error == "" ==>
          && partial == 0 && rounds == view.stepCount && !view.state.Failed? && result.exitCode.GeneralFailure?
          && view == Observed(c, rounds) && Smooth(observers, world, rounds) && calls == StepRounds(m, rounds))
    && (result.error != "" ==>
          && !result.status.Completed? && !result.exitCode.Success? && !Flawless(observers, world, c, sc, n)
          && Smooth(observers, world, rounds) && LoopEnds(observers, world, texts, c, rounds, result)
          && calls == StepRounds(m, rounds) + StepRound(partial, rounds))
  }

  lemma DrivingStarts(observers: seq<Observer>, world: World, texts: Texts, c: SC.ComparisonView,
                      sc: SimulationScenario, n: nat)
    requires FreshSession(c, sc, n) && SC.Sound(c)
    ensures Driving(observers, world, texts, c, sc, n, Observed(c, 0), FRESH, [], 0, 0)
  {
    hide FreshSession, SC.Sound;
    FreshShape(c, sc, n);
    assert Lockstep.Run(c, 0) == c;
  }

  lemma DrivingMoves(observers: seq<Observer>, world: World, texts: Texts, c: SC.ComparisonView,
                     sc: SimulationScenario, n: nat,
                     view: SC.ComparisonView, before: RunnerResult, calls: seq<Call>, rounds: nat,
                     later: SC.ComparisonView, result: RunnerResult, more: seq<Call>)
    requires Driving(observers, world, texts, c, sc, n, view, before, calls, rounds, 0) && before.error == ""
    requires Advanced(observers, world, texts, c, sc, n, rounds, later, result, more)
    ensures rounds < n
    ensures result.error == "" ==>
        Driving(observers, world, texts, c, sc, n, later, result, calls + more, rounds + 1, 0)
    ensures result.error != "" ==>
        Driving(observers, world, texts, c, sc, n, later, result, calls + more, rounds, |more|)
  {
    hide FreshSession, SC.Sound, Observed, Flawless, Smooth, RoundAccepted, CannotComplete, StepRound, LoopEnds;
    RoundsGrow(|observers|, rounds);
    if result.error == "" {
      SmoothGrows(observers, world, rounds);
    } else {
      SpoiledRun(observers, world, c, sc, n, rounds);
    }
  }

  lemma DrivingEnds(observers: seq<Observer>, world: World, texts: Texts, c: SC.ComparisonView, sc: SimulationScenario,
                    n: nat, view: SC.ComparisonView, result: RunnerResult, calls: seq<Call>, rounds: nat, partial: nat)
    requires Driving(observers, world, texts, c, sc, n, view, result, calls, rounds, partial)
    requires result.error == "" ==> !view.state.Running?
    ensures FreshSession(c, sc, n) && partial <= |observers|
    ensures calls == StepRounds(|observers|, rounds) + StepRound(partial, rounds)
    ensures (result.error == "") == Flawless(observers, world, c, sc, n)
    ensures result.error == "" ==>
        rounds == n && partial == 0 && view == Observed(c, n) && view.state.Completed? && view.stepCount == n
    ensures SC.Sound(c)
    ensures result.error != "" ==>
        && !result.status.Completed? && !result.exitCode.Success?
        && Smooth(observers, world, rounds) && LoopEnds(observers, world, texts, c, rounds, result)
  {
    hide FreshSession, SC.Sound, Flawless, Smooth, StepRound, Lockstep.Run, LoopEnds;
    if result.error == "" {
      RoundsGrow(|observers|, rounds);
      RunStands(c, sc, n, rounds);
      SmoothSuffices(observers, world, c, sc, n);
    }
  }

  /** The loop of `Run`: tick until the comparison ends, something fails, or the
      run is interrupted. */
  method Drive(observers: seq<Observer>, session: SC.Comparison, world: World, texts: Texts,
               ghost c: SC.ComparisonView, ghost sc: SimulationScenario, ghost n: nat)
    returns (result: RunnerResult, calls: seq<Call>, ghost rounds: nat, ghost partial: nat)
    requires session.Valid() && Explained(texts)
    requires FreshSession(c, sc, n) && SC.Sound(c) && session.View() == Observed(c, 0)
    modifies session.frame
    ensures session.Valid()
    ensures partial <= |observers|
    ensures calls == StepRounds(|observers|, rounds) + StepRound(partial, rounds)
    ensures (result.error == "") == Flawless(observers, world, c, sc, n)
    ensures result.error == "" ==>
        && rounds == n && partial == 0 && session.View() == Observed(c, n) && session.state.Completed?
        && session.stepCount == n
    ensures result.error != "" ==>
        && !result.status.Completed? && !result.exitCode.Success?
        && Smooth(observers, world, rounds) && LoopEnds(observers, world, texts, c, rounds, result)
  {
    hide *;
    result, calls, rounds, partial := FRESH, [], 0, 0;
    DrivingStarts(observers, world, texts, c, sc, n);
    var failed := false;
    FreshHasNoError();
    while session.state == SC.Running && !failed
      invariant session.Valid() && failed == (result.error != "")
      invariant Driving(observers, world, texts, c, sc, n, session.View(), result, calls, rounds, partial)
      invariant !failed ==> partial == 0
      decreases n - rounds, !failed
    {
      DrivingReady(observers, world, texts, c, sc, n, session.View(), result, calls, rounds);
      ghost var view, before := session.View(), result;
      var more;
      result, more := Advance(observers, session, world, texts, result, c, sc, n, rounds);
      DrivingMoves(observers, world, texts, c, sc, n, view, before, calls, rounds, session.View(), result, more);
      calls := calls + more;
      failed := result.error != "";
      if failed {
        partial := |more|;
      } else {
        rounds := rounds + 1;
      }
    }
    DrivingEnds(observers, world, texts, c, sc, n, session.View(), result, calls, rounds, partial);
  }

  lemma FreshHasNoError()
    ensures FRESH.error == ""
  {
  }

  lemma DrivingReady(observers: seq<Observer>, world: World, texts: Texts, c: SC.ComparisonView,
                     sc: SimulationScenario, n: nat,
                     view: SC.ComparisonView, result: RunnerResult, calls: seq<Call>, rounds: nat)
    requires Driving(observers, world, texts, c, sc, n, view, result, calls, rounds, 0) && result.error == ""
    ensures result.exitCode.GeneralFailure? && SC.Sound(c) && rounds == view.stepCount <= n
        && view == Observed(c, rounds)
  {
  }

  method NotifyStarted(observers: seq<Observer>) returns (accepted: nat, refusal: Option<string>, calls: seq<Call>)
    ensures accepted <= |observers| && forall i :: 0 <= i < accepted ==> observers[i].onStarted.Accepts?
    ensures refusal.None? ==> accepted == |observers| && calls == Starts(accepted)
    ensures refusal.Some? ==>
        && accepted < |observers| && observers[accepted].onStarted.Refuses?
        && calls == Starts(accepted + 1) && refusal.value != ""
        && Says(observers[accepted].onStarted, StartRefusal, refusal.value)
  {
    calls := [];
    for i := 0 to |observers|
      invariant calls == Starts(i)
      invariant forall j :: 0 <= j < i ==> observers[j].onStarted.Accepts?
    {
      calls := calls + [Started(i)];
      assert calls == Starts(i + 1);
      if observers[i].onStarted.Refuses? {
        return i, Some(TextOf(observers[i].onStarted, StartRefusal)), calls;
      }
    }
    return |observers|, None, calls;
  }

  predicate AllStart(observers: seq<Observer>) {
    forall i :: 0 <= i < |observers| ==> observers[i].onStarted.Accepts?
  }

  predicate AllFinish(observers: seq<Observer>) {
    forall i :: 0 <= i < |observers| ==> observers[i].onFinished.Accepts?
  }

  // The observers that were asked are the first ones, up to one that refused.
  predicate Fits(t: Transcript, observers: seq<Observer>) {
    && t.accepted <= t.asked <= |observers| && t.partial <= t.accepted
    && (forall i :: 0 <= i < t.accepted ==> observers[i].onStarted.Accepts?)
    && (t.accepted < t.asked ==> t.asked == t.accepted + 1 && observers[t.accepted].onStarted.Refuses?)
  }

  // Status, exit code and error of a run agree.
  predicate Coherent(r: RunnerResult) {
    r.status.Completed? <==> r.exitCode.Success? && r.error == ""
  }

  lemma FinishesShape(r: RunnerResult, observers: seq<Observer>)
    requires Coherent(r)
    ensures var s := AfterFinishes(r, observers, |observers|);
            && Coherent(s) && (s.status.Completed? <==> r.status.Completed? && AllFinish(observers))
            && (s.status.Completed? ==> s == r)
            && (if AllFinish(observers) then s == r else s.exitCode.OutputFailure? && s.status.Failed?)
  {
    if !AllFinish(observers) {
      var i :| 0 <= i < |observers| && !observers[i].onFinished.Accepts?;
      assert observers[i].onFinished.Refuses?;
    }
  }

  // The end of `Run` after the loop.
  method Conclude(observers: seq<Observer>, session: SC.Comparison, texts: Texts, driven: RunnerResult)
    returns (result: RunnerResult, calls: seq<Call>)
    requires session.Valid()
    requires driven.error != "" ==> !driven.status.Completed? && !driven.exitCode.Success?
    modifies session.frame
    ensures calls == Finishes(|observers|) && Coherent(result)
    ensures result.status.Completed? <==> driven.error == "" && AllFinish(observers)
    ensures AllFinish(observers) && driven.error != "" ==>
        result.status == driven.status && result.exitCode == driven.exitCode && result.error == driven.error
    ensures !AllFinish(observers) ==> result.exitCode.OutputFailure? && result.status.Failed?
    ensures result.steps == old(session.stepCount)
    ensures result.simulationTimeSec
         == SC.Min(session.durationSec, StepTime(old(session.stepCount), session.dtSec))
    ensures ShowsVariants(result, if driven.error == "" then driven.(status := Status.Completed) else driven,
                          old(session.baselineResult), old(session.primaryResult), texts)
    ensures result.status.Completed? ==>
        && result.steps == old(session.stepCount)
        && result.baselineStatus == ComparisonStatus(old(session.baselineResult.state), Status.Completed)
        && result.primaryStatus == ComparisonStatus(old(session.primaryResult.state), Status.Completed)
  {
    hide SC.Comparison.Valid, SC.Comparison.View, Populated, AfterFinishes, Finishes;
    result := driven.(steps := session.stepCount,
                      simulationTimeSec := SC.Min(session.durationSec, StepTime(session.stepCount, session.dtSec)));
    if result.error == "" {
      result := result.(status := Status.Completed, exitCode := ExitCode.Success);
    }
    ShowsPopulated(result, if driven.error == "" then driven.(status := Status.Completed) else driven,
                   session.baselineResult, session.primaryResult, texts);
    result := Populated(result, session.baselineResult, session.primaryResult, texts);
    FinishesShape(result, observers);
    result, calls := NotifyFinished(observers, result, |observers|);
    session.Shutdown();
  }

  // The end of `Run` when an observer refuses the start.
  method Refuse(observers: seq<Observer>, session: SC.Comparison, texts: Texts, accepted: nat, error: string)
    returns (result: RunnerResult, calls: seq<Call>)
    requires session.Valid() && accepted <= |observers|
    modifies session.frame
    ensures calls == Finishes(accepted) && !result.status.Completed? && Coherent(result)
    ensures result.exitCode.OutputFailure? && result.status.Failed?
  {
    hide SC.Comparison.Valid, SC.Comparison.View, Populated, AfterFinishes, Finishes;
    result := FRESH.(exitCode := OutputFailure, error := error);
    session.Stop();
    result := Populated(result, session.baselineResult, session.primaryResult, texts);
    result, calls := NotifyFinished(observers, result, accepted);
    session.Shutdown();
  }

  /** `Run` from the moment the session exists: observers are told of the start, the
      comparison is driven, and those that were started are told of the end. */
  method Execute(observers: seq<Observer>, session: SC.Comparison, world: World, texts: Texts,
                 ghost c: SC.ComparisonView, ghost sc: SimulationScenario, ghost n: nat)
    returns (result: RunnerResult, calls: seq<Call>, ghost t: Transcript)
    requires session.Valid() && Explained(texts)
    requires FreshSession(c, sc, n) && SC.Sound(c) && session.View() == Observed(c, 0)
    modifies session.frame
    ensures calls == Calls(t) && Fits(t, observers)
    ensures Coherent(result)
    ensures result.status.Completed?
        <==> AllStart(observers) && Flawless(observers, world, c, sc, n) && AllFinish(observers)
    ensures !AllStart(observers) || !AllFinish(observers) ==> result.exitCode.OutputFailure? && result.status.Failed?
    ensures AllStart(observers) && AllFinish(observers) && !result.status.Completed? ==>
        Smooth(observers, world, t.rounds) && LoopEnds(observers, world, texts, c, t.rounds, result)
    ensures result.status.Completed? ==>
        && result.steps == n && t == Transcript(|observers|, |observers|, n, 0)
        && result.baselineStatus.Completed? && result.primaryStatus.Completed?
  {
    hide *;
    var accepted, refusal, startCalls := NotifyStarted(observers);
    if refusal.Some? {
      var finishCalls;
      result, finishCalls := Refuse(observers, session, texts, accepted, refusal.value);
      calls := startCalls + finishCalls;
      t := Transcript(accepted + 1, accepted, 0, 0);
      RefusedRun(observers, accepted);
      return;
    }
    var driven, stepCalls, finishCalls;
    ghost var rounds, partial;
    driven, stepCalls, rounds, partial := Drive(observers, session, world, texts, c, sc, n);
    if driven.error == "" {
      CompletedResults(c, sc, n);
    }
    result, finishCalls := Conclude(observers, session, texts, driven);
    if driven.error != "" && AllFinish(observers) {
      LoopEndsBy(observers, world, texts, c, rounds, driven, result);
    }
    calls := startCalls + stepCalls + finishCalls;
    t := Transcript(accepted, accepted, rounds, partial);
    DrivenRun(observers, t);
  }

  lemma RefusedRun(observers: seq<Observer>, accepted: nat)
    requires accepted < |observers| && observers[accepted].onStarted.Refuses?
    requires forall i :: 0 <= i < accepted ==> observers[i].onStarted.Accepts?
    ensures var t := Transcript(accepted + 1, accepted, 0, 0);
            Fits(t, observers) && Calls(t) == Starts(accepted + 1) + Finishes(accepted)
    ensures !AllStart(observers)
  {
    assert Starts(accepted + 1) + ([] + []) == Starts(accepted + 1);
  }

  lemma DrivenRun(observers: seq<Observer>, t: Transcript)
    requires t.asked == t.accepted == |observers| && t.partial <= |observers|
    requires forall i :: 0 <= i < t.accepted ==> observers[i].onStarted.Accepts?
    ensures Fits(t, observers) && AllStart(observers)
    ensures Calls(t) == Starts(t.asked) + (StepRounds(t.accepted, t.rounds) + StepRound(t.partial, t.rounds))
        + Finishes(t.accepted)
  {
  }

  lemma CompletedResults(c: SC.ComparisonView, sc: SimulationScenario, n: nat)
    requires FreshSession(c, sc, n) && SC.Sound(c) && Observed(c, n).state.Completed?
    ensures Observed(c, n).baselineResult.state.Completed? && Observed(c, n).primaryResult.state.Completed?
    ensures forall s: Status :: ComparisonStatus(SC.Completed, s) == Status.Completed
  {
    hide Lockstep.Run, SC.Sound, FreshSession;
    RunStands(c, sc, n, n);
  }

  lemma CreatedIsFresh(baseline: Sim, primary: Sim, sc: SimulationScenario, parametersAccepted: SC.Acceptance)
    requires !baseline.initialized && !primary.initialized
    requires SC.Created(baseline, primary, sc, parametersAccepted).0.Some?
    ensures var c := SC.Created(baseline, primary, sc, parametersAccepted).0.value;
            && CalculateStepCount(sc.durationSec, sc.dtSec).Some?
            && FreshSession(c, sc, CalculateStepCount(sc.durationSec, sc.dtSec).value)
            && SC.Sound(c) && c.(events := []) == Observed(c, 0)
  {
    hide SC.Created, CalculateStepCount, SC.Sound;
    Lockstep.CreatedIsLocked(baseline, primary, sc, parametersAccepted);
    var c := SC.Created(baseline, primary, sc, parametersAccepted).0.value;
    Lockstep.LockedHasSteps(c, sc, c.events);
    assert Lockstep.Run(c, 0) == c;
    hide Lockstep.Locked, Lockstep.Run;
  }

  /** Everything goes well: the inputs are ready, both runtimes start, every observer
      agrees to everything, no signal comes before the last step, all simulation
      steps succeed, the last does not overshoot, and the manifest is written. */
  ghost predicate FlawlessRun(observers: seq<Observer>, world: World, baseline: Sim, primary: Sim)
    requires !baseline.initialized && !primary.initialized
  {
    && world.preparation.Prepared? && world.manifestError.None? && AllStart(observers) && AllFinish(observers)
    && (var sc, accepted := world.preparation.scenario, world.preparation.parametersAccepted;
        && SC.Created(baseline, primary, sc, accepted).0.Some?
        && (CreatedIsFresh(baseline, primary, sc, accepted);
            Flawless(observers, world, SC.Created(baseline, primary, sc, accepted).0.value, sc,
                     CalculateStepCount(sc.durationSec, sc.dtSec).value)))
  }

  /** Which failure is reported how: by exit code and status, and for the loop by the first
      round that something spoils. */
  ghost predicate Reports(observers: seq<Observer>, world: World, texts: Texts, baseline: Sim, primary: Sim,
                          t: Transcript, result: RunnerResult)
    requires !baseline.initialized && !primary.initialized
  {
    && (result.exitCode.Success? <==> result.status.Completed?)
    && (result.exitCode.GeneralFailure? <==> result.status.Interrupted?)
    && match world.preparation
       case NoOutputDirectory(error) => result.exitCode.OutputFailure? && result.error == error
       case NotWritten(_) => result.exitCode.OutputFailure?
       case NotLoaded(_) =>
         if world.manifestError.Some? then result.exitCode.OutputFailure? else result.exitCode.ScenarioLoadFailure?
       case Prepared(sc, accepted) =>
         if world.manifestError.Some? then result.exitCode.OutputFailure?
         else if SC.Created(baseline, primary, sc, accepted).0.None? then
           result.exitCode.SimulationInitializationFailure?
         else if !AllStart(observers) || !AllFinish(observers) then result.exitCode.OutputFailure?
         else
           CreatedIsFresh(baseline, primary, sc, accepted);
           result.status.Completed?
           || (Smooth(observers, world, t.rounds)
               && LoopEnds(observers, world, texts, SC.Created(baseline, primary, sc, accepted).0.value, t.rounds,
                           result))
  }

  class Runner {
    var observers: seq<Observer>

    constructor ()
      ensures observers == []
    {
      observers := [];
    }

    method AddObserver(observer: Observer)
      modifies this
      ensures observers == old(observers) + [observer]
    {
      observers := observers + [observer];
    }

    /** The run is "completed" exactly when everything went well, and exactly when the
        exit code is Success and the error is empty; the calls of the observers are
        those of a transcript, so each sees what `ObserverSees` says. */
    method Run(world: World, baseline: Simulation, primary: Simulation, texts: Texts)
      returns (result: RunnerResult, calls: seq<Call>, ghost t: Transcript)
      requires baseline != primary && !baseline.initialized && !primary.initialized && Explained(texts)
      modifies baseline, primary
      ensures calls == Calls(t) && Fits(t, observers) && Coherent(result)
      ensures result.status.Completed? <==> FlawlessRun(observers, world, old(baseline.View()), old(primary.View()))
      ensures result.status.Completed? ==> result.baselineStatus.Completed? && result.primaryStatus.Completed?
      ensures Reports(observers, world, texts, old(baseline.View()), old(primary.View()), t, result)
    {
      assert Calls(Transcript(0, 0, 0, 0)) == [];
      hide SC.Created, SC.Comparison.Valid, SC.Comparison.View, FreshSession, Flawless, Explained, Calls,
           CalculateStepCount;
      calls, t := [], Transcript(0, 0, 0, 0);
      match world.preparation
      case NoOutputDirectory(error) =>
        result := FRESH.(exitCode := OutputFailure, error := error);
      case NotWritten(error) =>
        result := WithManifest(FRESH.(exitCode := OutputFailure, error := error), world);
      case NotLoaded(error) =>
        result := WithManifest(FRESH.(exitCode := ScenarioLoadFailure, error := error), world);
      case Prepared(scenario, parametersAccepted) =>
        result, calls, t := Compare(observers, world, baseline, primary, texts);
        result := WithManifest(result, world);
    }
  }

  // The part of `Run` that makes the session and executes it.
  method Compare(observers: seq<Observer>, world: World, baseline: Simulation, primary: Simulation, texts: Texts)
    returns (result: RunnerResult, calls: seq<Call>, ghost t: Transcript)
    requires baseline != primary && !baseline.initialized && !primary.initialized && Explained(texts)
    requires world.preparation.Prepared?
    modifies baseline, primary
    ensures calls == Calls(t) && Fits(t, observers) && Coherent(result)
    ensures result.status.Completed?
        <==> FlawlessRun(observers, world.(manifestError := None), old(baseline.View()), old(primary.View()))
    ensures result.status.Completed? ==> result.baselineStatus.Completed? && result.primaryStatus.Completed?
    ensures Reports(observers, world.(manifestError := None), texts, old(baseline.View()), old(primary.View()), t,
                    result)
  {
    assert Calls(Transcript(0, 0, 0, 0)) == [];
    hide SC.Created, SC.Sound, SC.Comparison.Valid, SC.Comparison.View, FreshSession, Flawless, Explained, Calls,
         Observed, CalculateStepCount, TextFor, Reports, LoopEnds, AfterFinishes, AllStart, AllFinish, Smooth;
    var scenario, parametersAccepted := world.preparation.scenario, world.preparation.parametersAccepted;
    ghost var b, p := baseline.View(), primary.View();
    var session, failedVariant := SC.Comparison.Create(baseline, primary, scenario, parametersAccepted);
    if session == null {
      result, calls, t := CreationFailed(failedVariant, texts), [], Transcript(0, 0, 0, 0);
      NotCreatedReports(observers, world, texts, b, p, t, result);
    } else {
      CreatedIsFresh(b, p, scenario, parametersAccepted);
      ghost var c, n := session.View(), CalculateStepCount(scenario.durationSec, scenario.dtSec).value;
      var _ := session.TakeObservation();
      result, calls, t := Execute(observers, session, world, texts, c, scenario, n);
      ManifestIsLater(observers, world, c, scenario, n);
      ExecutedReports(observers, world, texts, b, p, t, result);
    }
  }

  lemma NotCreatedReports(observers: seq<Observer>, world: World, texts: Texts, baseline: Sim, primary: Sim,
                          t: Transcript, result: RunnerResult)
    requires !baseline.initialized && !primary.initialized && world.preparation.Prepared?
    requires SC.Created(baseline, primary, world.preparation.scenario, world.preparation.parametersAccepted).0.None?
    requires result.exitCode.SimulationInitializationFailure? && result.status.Failed?
    ensures Reports(observers, world.(manifestError := None), texts, baseline, primary, t, result)
  {
    hide SC.Created, LoopEnds, Smooth;
  }

  lemma ExecutedReports(observers: seq<Observer>, world: World, texts: Texts, baseline: Sim, primary: Sim,
                        t: Transcript, result: RunnerResult)
    requires !baseline.initialized && !primary.initialized && world.preparation.Prepared?
    requires var sc, accepted := world.preparation.scenario, world.preparation.parametersAccepted;
             && SC.Created(baseline, primary, sc, accepted).0.Some?
             && var c := SC.Created(baseline, primary, sc, accepted).0.value;
                && SC.Sound(c)
                && (!AllStart(observers) || !AllFinish(observers) ==>
                      result.exitCode.OutputFailure? && result.status.Failed?)
                && (AllStart(observers) && AllFinish(observers) && !result.status.Completed? ==>
                      Smooth(observers, world, t.rounds) && LoopEnds(observers, world, texts, c, t.rounds, result))
    requires Coherent(result) && (result.status.Completed? ==> AllStart(observers) && AllFinish(observers))
    ensures Reports(observers, world.(manifestError := None), texts, baseline, primary, t, result)
  {
    hide SC.Created, AllStart, AllFinish, RefusedWith, Lockstep.Run, SC.Sound, TextFor;
    var later := world.(manifestError := None);
    assert Smooth(observers, world, t.rounds) ==> Smooth(observers, later, t.rounds);
  }

  lemma ManifestIsLater(observers: seq<Observer>, world: World, c: SC.ComparisonView, sc: SimulationScenario, n: nat)
    requires FreshSession(c, sc, n)
    ensures Flawless(observers, world.(manifestError := None), c, sc, n) == Flawless(observers, world, c, sc, n)
  {
    hide FreshSession, Lockstep.StepsSucceed, Lockstep.Overshoot;
    assert Smooth(observers, world.(manifestError := None), n) == Smooth(observers, world, n);
  }

  lemma SmoothGrows(observers: seq<Observer>, world: World, k: nat)
    requires Smooth(observers, world, k) && world.running(k) && RoundAccepted(observers, k)
    ensures Smooth(observers, world, k + 1)
  {
    hide RoundAccepted;
  }

  lemma RoundsGrow(m: nat, k: nat)
    ensures StepRounds(m, k) + StepRound(m, k) == StepRounds(m, k + 1)
    ensures StepRounds(m, k) + StepRound(0, k) == StepRounds(m, k)
  {
    assert StepRound(0, k) == [];
  }

  // A signal, a refusal or a failing step before the end spoils the run.
  lemma SpoiledRun(observers: seq<Observer>, world: World, c: SC.ComparisonView, sc: SimulationScenario, n: nat, k: nat)
    requires FreshSession(c, sc, n) && k < n
    requires !world.running(k) || !RoundAccepted(observers, k) || CannotComplete(c, sc, n)
    ensures !Flawless(observers, world, c, sc, n)
  {
    hide RoundAccepted, FreshSession, Lockstep.StepsSucceed, Lockstep.Overshoot;
  }

  lemma SmoothSuffices(observers: seq<Observer>, world: World, c: SC.ComparisonView, sc: SimulationScenario, n: nat)
    requires FreshSession(c, sc, n) && SC.Sound(c) && Smooth(observers, world, n) && Lockstep.Run(c, n).state.Completed?
    ensures Flawless(observers, world, c, sc, n)
  {
    hide SC.Sound, Lockstep.StepsSucceed, Lockstep.Overshoot, Lockstep.Run, Lockstep.Locked, Lockstep.WholeRun,
         Lockstep.Emitted,
         Smooth;
    Lockstep.CompletesIff(c, sc, n);
  }
}
