/** Scenarios and the arithmetic of their step clock.  Times are real numbers, so
    the tolerances below are the source's own and not rounding. */
module Scenario {
  import opened Prelude

  datatype ScenarioEvent = ScenarioEvent(timeSec: real, rollRad: real)

  /** `otherwiseValid` stands for the checks of `ValidateSimulationScenario` on the
      fields that the execution code does not use. */
  datatype SimulationScenario = SimulationScenario(
    aircraft: string, durationSec: real, dtSec: real, events: seq<ScenarioEvent>, otherwiseValid: bool)

  const ALIGNMENT_TOLERANCE: real := 0.000000001
  const EPSILON: real := 1.0 / 4503599627370496.0
  const MAX_STEP_COUNT: real := 18446744073709551616.0

  function Abs(x: real): real {
    if x < 0.0 then -x else x
  }

  // std::round and std::llround: to nearest, halves away from zero.
  function Round(x: real): int {
    if x < 0.0 then -((-x + 0.5).Floor) else (x + 0.5).Floor
  }

  function Ceil(x: real): int {
    -((-x).Floor)
  }

  lemma RoundIsNearest(x: real)
    ensures Abs(x - Round(x) as real) <= 0.5
    ensures x >= 0.0 ==> Round(x) >= 0
  {
  }

  // The simulation clock after `k` steps.
  function StepTime(k: nat, dtSec: real): real {
    k as real * dtSec
  }

  // A time is a whole number of steps, up to the tolerance.
  predicate Aligned(timeSec: real, dtSec: real)
    requires dtSec > 0.0
  {
    Abs(timeSec / dtSec - Round(timeSec / dtSec) as real) <= ALIGNMENT_TOLERANCE
  }

  predicate Valid(s: SimulationScenario) {
    && s.otherwiseValid
    && s.durationSec > 0.0
    && s.dtSec > 0.0
    && Aligned(s.durationSec, s.dtSec)
    && |s.events| > 0
    && (forall i :: 0 <= i < |s.events| ==> 0.0 <= s.events[i].timeSec < s.durationSec)
    && (forall i :: 0 <= i < |s.events| ==> Aligned(s.events[i].timeSec, s.dtSec))
    && (forall i :: 0 < i < |s.events| ==> s.events[i - 1].timeSec <= s.events[i].timeSec)
  }

  // The time of a whole number of steps, which may be negative.
  function TimeOf(k: int, dtSec: real): real {
    k as real * dtSec
  }

  // A scenario whose times are whole numbers of steps.
  predicate InSteps(s: SimulationScenario, steps: int, events: seq<int>) {
    && s.dtSec > 0.0 && s.durationSec == TimeOf(steps, s.dtSec) && |s.events| == |events|
    && forall i :: 0 <= i < |events| ==> s.events[i].timeSec == TimeOf(events[i], s.dtSec)
  }

  lemma WholeIsAligned(k: int, dtSec: real)
    requires dtSec > 0.0
    ensures Aligned(TimeOf(k, dtSec), dtSec)
  {
    TimesRatio(k as real, dtSec);
    assert TimeOf(k, dtSec) / dtSec == k as real;
    RoundOfWhole(k);
  }

  lemma RoundOfWhole(k: int)
    ensures Round(k as real) == k
  {
  }

  lemma TimesCompare(j: int, k: int, dtSec: real)
    requires dtSec > 0.0
    ensures TimeOf(j, dtSec) < TimeOf(k, dtSec) <==> j < k
    ensures TimeOf(0, dtSec) == 0.0
  {
    assert TimeOf(k, dtSec) - TimeOf(j, dtSec) == (k - j) as real * dtSec;
    if j < k {
      Scale(0.0, (k - j) as real, dtSec);
    } else if j > k {
      Scale(0.0, (j - k) as real, dtSec);
    }
  }

  /** Such a scenario is valid exactly if it has a step and an event, and its events come in
      order, none before the first step and each before the end. */
  lemma ValidIff(s: SimulationScenario, steps: int, events: seq<int>)
    requires InSteps(s, steps, events) && s.otherwiseValid
    ensures Valid(s)
        <==> && steps >= 1 && |events| > 0
             && (forall i :: 0 <= i < |events| ==> 0 <= events[i] < steps)
             && (forall i :: 0 < i < |events| ==> events[i - 1] <= events[i])
  {
    hide Aligned, TimeOf;
    WholeIsAligned(steps, s.dtSec);
    TimesCompare(0, steps, s.dtSec);
    forall i | 0 <= i < |events|
      ensures Aligned(s.events[i].timeSec, s.dtSec)
      ensures 0.0 <= s.events[i].timeSec < s.durationSec <==> 0 <= events[i] < steps
    {
      WholeIsAligned(events[i], s.dtSec);
      TimesCompare(events[i], steps, s.dtSec);
      TimesCompare(events[i], 0, s.dtSec);
    }
    forall i | 0 < i < |events|
      ensures s.events[i - 1].timeSec <= s.events[i].timeSec <==> events[i - 1] <= events[i]
    {
      TimesCompare(events[i], events[i - 1], s.dtSec);
    }
  }

  // A ratio that is a whole number up to rounding counts as that number.
  function WholeSteps(ratio: real): int {
    var nearest := Round(ratio);
    var tolerance := EPSILON * (if ratio < 1.0 then 1.0 else ratio) * 8.0;
    if Abs(ratio - nearest as real) <= tolerance then nearest else Ceil(ratio)
  }

  /** The number of steps that covers a duration. */
  function CalculateStepCount(durationSec: real, dtSec: real): (n: Option<nat>)
    ensures n.Some? ==> n.value >= 1
  {
    if durationSec <= 0.0 || dtSec <= 0.0 then None
    else
      var ratio := durationSec / dtSec;
      if ratio > MAX_STEP_COUNT then None
      else if WholeSteps(ratio) < 1 then None
      else Some(WholeSteps(ratio))
  }

  lemma WholeStepsCover(ratio: real)
    requires 0.0 < ratio <= MAX_STEP_COUNT && WholeSteps(ratio) >= 1
    ensures (WholeSteps(ratio) - 1) as real < ratio
    ensures ratio <= WholeSteps(ratio) as real + 8.0 * EPSILON * (ratio + 1.0)
  {
    RoundIsNearest(ratio);
  }

  /** Fewer steps never reach the duration, and the count itself does, up to the
      relative tolerance of eight rounding units. */
  lemma StepCountCovers(durationSec: real, dtSec: real)
    requires CalculateStepCount(durationSec, dtSec).Some?
    ensures durationSec > 0.0 && dtSec > 0.0
    ensures StepTime(CalculateStepCount(durationSec, dtSec).value - 1, dtSec) < durationSec
    ensures durationSec <= StepTime(CalculateStepCount(durationSec, dtSec).value, dtSec)
                         + 8.0 * EPSILON * (durationSec + dtSec)
  {
    hide WholeSteps, StepTime;
    var n, ratio := CalculateStepCount(durationSec, dtSec).value, durationSec / dtSec;
    PositiveRatio(durationSec, dtSec);
    WholeStepsCover(ratio);
    RatioTimes(durationSec, dtSec);
    StepsBelow(n - 1, ratio, durationSec, dtSec);
    StepsAbove(n, ratio, 8.0 * EPSILON, durationSec, dtSec);
  }

  lemma StepsBelow(k: nat, ratio: real, durationSec: real, dtSec: real)
    requires k as real < ratio && dtSec > 0.0 && ratio * dtSec == durationSec
    ensures StepTime(k, dtSec) < durationSec
  {
    assert durationSec - StepTime(k, dtSec) == (ratio - k as real) * dtSec;
  }

  lemma StepsAbove(k: nat, ratio: real, e: real, durationSec: real, dtSec: real)
    requires ratio <= k as real + e * (ratio + 1.0) && dtSec > 0.0 && ratio * dtSec == durationSec
    ensures durationSec <= StepTime(k, dtSec) + e * (durationSec + dtSec)
  {
    var slack := k as real + e * (ratio + 1.0) - ratio;
    assert slack * dtSec >= 0.0;
    calc {
      slack * dtSec;
      k as real * dtSec + e * (ratio + 1.0) * dtSec - ratio * dtSec;
      { assert e * (ratio + 1.0) * dtSec == e * (ratio * dtSec + dtSec); }
      StepTime(k, dtSec) + e * (durationSec + dtSec) - durationSec;
    }
  }

  lemma StepTimeMonotone(j: nat, k: nat, dtSec: real)
    requires j <= k && dtSec > 0.0
    ensures StepTime(j, dtSec) <= StepTime(k, dtSec)
  {
    assert StepTime(k, dtSec) - StepTime(j, dtSec) == (k - j) as real * dtSec;
  }

  lemma RatioTimes(a: real, b: real)
    requires b > 0.0
    ensures a / b * b == a
  {
  }

  lemma TimesRatio(a: real, b: real)
    requires b > 0.0
    ensures a * b / b == a
  {
  }

  lemma Scale(a: real, b: real, c: real)
    requires a < b && c > 0.0
    ensures a * c < b * c
  {
  }

  lemma PositiveRatio(a: real, b: real)
    requires a > 0.0 && b > 0.0
    ensures a / b > 0.0
  {
  }

  lemma WholeStepsExact(n: nat)
    requires n >= 1
    ensures WholeSteps(n as real) == n
  {
    assert Round(n as real) == n;
    PositiveTolerance(n as real);
  }

  lemma PositiveTolerance(x: real)
    requires x >= 1.0
    ensures EPSILON * x * 8.0 >= 0.0
  {
  }

  /** On an exact multiple of the step the count is that multiple. */
  lemma ExactStepCount(n: nat, dtSec: real)
    requires n >= 1 && dtSec > 0.0 && n as real <= MAX_STEP_COUNT
    ensures CalculateStepCount(StepTime(n, dtSec), dtSec) == Some(n)
  {
    hide WholeSteps;
    WholeStepsExact(n);
    var durationSec := n as real * dtSec;
    TimesRatio(n as real, dtSec);
    assert durationSec / dtSec == n as real;
    assert WholeSteps(n as real) == WholeSteps(durationSec / dtSec);
    Scale(0.0, n as real, dtSec);
  }

  // The step at which an event is due.
  function EventStep(timeSec: real, dtSec: real): (k: nat)
    requires timeSec >= 0.0 && dtSec > 0.0
  {
    RatioNonNegative(timeSec, dtSec);
    RoundIsNearest(timeSec / dtSec);
    Round(timeSec / dtSec)
  }

  lemma RatioNonNegative(a: real, b: real)
    requires a >= 0.0 && b > 0.0
    ensures a / b >= 0.0
  {
  }
}
