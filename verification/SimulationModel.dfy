/** A JSBSim simulation seen from the scenario code: an oracle whose calls succeed
    or fail, and a clock that a successful step advances by the step size. */
module SimulationModel {
  import opened Prelude

  datatype Variant = BaselineVariant | PrimaryVariant

  // How a call into the flight-dynamics code ends.
  datatype Answer = Succeeds | StopsBeforeAdvancing | StopsAfterAdvancing

  // What the flight controls are set to: roll hold on or off, and its target.
  datatype Control = Control(enabled: bool, targetRollRad: real)

  /** `answers(k)` is how the k-th call ends; `flown` records the control in force
      at each successful step since the last reset. */
  datatype Sim = Sim(
    id: nat, variant: Option<Variant>, supportsRollHold: bool, answers: nat -> Answer,
    asked: nat, tickSizeSec: real, initialized: bool, timeSec: real, control: Control, flown: seq<Control>)

  function Asked(s: Sim): (Sim, Answer) {
    (s.(asked := s.asked + 1), s.answers(s.asked))
  }

  function Initialized(s: Sim, dtSec: real): (Sim, bool) {
    if s.initialized then (s, true)
    else
      var (t, answer) := Asked(s);
      if answer.Succeeds?
      then (t.(tickSizeSec := dtSec, initialized := true, timeSec := 0.0, flown := []), true)
      else (t.(tickSizeSec := dtSec), false)
  }

  function WithoutSession(s: Sim): Sim {
    s.(initialized := false)
  }

  // Both a trimmed and an untrimmed reset set the clock to zero.
  function WasReset(s: Sim): (Sim, bool) {
    if !s.initialized then (s, false)
    else
      var (t, answer) := Asked(s);
      if answer.Succeeds? then (t.(timeSec := 0.0, flown := []), true) else (t, false)
  }

  function Stepped(s: Sim, dtSec: real): (Sim, bool) {
    if !s.initialized || dtSec <= 0.0 then (s, false)
    else
      var (t, answer) := Asked(s);
      match answer
      case Succeeds => (t.(timeSec := s.timeSec + dtSec, flown := s.flown + [s.control]), true)
      case StopsBeforeAdvancing => (t, false)
      case StopsAfterAdvancing => (t.(timeSec := s.timeSec + dtSec), false)
  }

  function Configured(s: Sim, targetRollRad: real, enabled: bool): (Sim, bool) {
    if s.supportsRollHold then (s.(control := Control(enabled, targetRollRad)), true) else (s, false)
  }

  class Simulation {
    const id: nat
    const variant: Option<Variant>
    const supportsRollHold: bool
    const answers: nat -> Answer
    var asked: nat
    var tickSizeSec: real
    var initialized: bool
    var timeSec: real
    var control: Control
    ghost var flown: seq<Control>

    constructor (id: nat, variant: Option<Variant>, supportsRollHold: bool, answers: nat -> Answer)
      ensures !initialized && this.id == id && this.variant == variant
      ensures this.supportsRollHold == supportsRollHold && this.answers == answers
    {
      this.id, this.variant, this.supportsRollHold, this.answers := id, variant, supportsRollHold, answers;
      asked, tickSizeSec, initialized, timeSec := 0, 0.0, false, 0.0;
      control, flown := Control(false, 0.0), [];
    }

    ghost function View(): Sim
      reads this
    {
      Sim(id, variant, supportsRollHold, answers, asked, tickSizeSec, initialized, timeSec, control, flown)
    }

    method Ask() returns (answer: Answer)
      modifies this
      ensures (View(), answer) == Asked(old(View()))
    {
      answer := answers(asked);
      asked := asked + 1;
    }

    method Initialize(dtSec: real) returns (ok: bool)
      modifies this
      ensures (View(), ok) == Initialized(old(View()), dtSec)
    {
      if initialized {
        return true;
      }
      tickSizeSec := dtSec;
      var answer := Ask();
      if answer != Succeeds {
        return false;
      }
      timeSec := 0.0;
      flown := [];
      initialized := true;
      return true;
    }

    method Shutdown()
      modifies this
      ensures View() == WithoutSession(old(View()))
    {
      initialized := false;
    }

    method Reset() returns (ok: bool)
      modifies this
      ensures (View(), ok) == WasReset(old(View()))
    {
      if !initialized {
        return false;
      }
      var answer := Ask();
      if answer != Succeeds {
        return false;
      }
      timeSec := 0.0;
      flown := [];
      return true;
    }

    method Step(dtSec: real) returns (ok: bool)
      modifies this
      ensures (View(), ok) == Stepped(old(View()), dtSec)
    {
      if !initialized || dtSec <= 0.0 {
        return false;
      }
      var answer := Ask();
      if answer == StopsBeforeAdvancing {
        return false;
      }
      timeSec := timeSec + dtSec;
      if answer == StopsAfterAdvancing {
        return false;
      }
      flown := flown + [control];
      return true;
    }

    method ConfigureRollHold(targetRollRad: real, enabled: bool) returns (ok: bool)
      modifies this
      ensures (View(), ok) == Configured(old(View()), targetRollRad, enabled)
    {
      if !supportsRollHold {
        return false;
      }
      control := Control(enabled, targetRollRad);
      return true;
    }
  }
}
