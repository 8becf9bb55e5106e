/** Request correlation: a client's tables of pending requests and their results, and the
    adapter that answers commands. */
module RequestCorrelation {
  import opened Prelude

  datatype Outcome = Outcome(succeeded: bool, error: string)

  // The client's error texts: its own three, or the one that came with a result.
  datatype CommandError = NoDetails | NoMatch | BadState | FromAdapter(text: string)

  // A client's correlation tables and its last command error.
  datatype Tables = Tables(pending: set<nat>, results: map<nat, Outcome>, lastError: Option<CommandError>)

  // What TakeRequestResult reports; a missing result is an error of its own.
  datatype Reply = Returned(outcome: Outcome) | NoResult | NotPending

  function Registered(t: Tables, id: nat): Tables {
    t.(pending := t.pending + {id})
  }

  function Received(t: Tables, id: nat, outcome: Outcome): Tables {
    if id in t.pending then t.(results := t.results[id := outcome]) else t
  }

  function ErrorAfter(outcome: Outcome): Option<CommandError> {
    if outcome.succeeded then None
    else Some(if outcome.error == "" then NoDetails else FromAdapter(outcome.error))
  }

  function Taken(t: Tables, id: nat): (Tables, Reply) {
    if id !in t.pending then (t.(lastError := Some(BadState)), NotPending)
    else
      var u := t.(pending := t.pending - {id});
      if id !in t.results then (u.(lastError := Some(NoMatch)), NoResult)
      else (u.(results := t.results - {id}, lastError := ErrorAfter(t.results[id])), Returned(t.results[id]))
  }

  /** What the runtime made of a command.  The adapter reports the runtime's error, or the
      text of its handler if there is none. */
  datatype Work = Work(succeeded: bool, runtimeError: string, fallback: string)

  function Reported(work: Work): Outcome {
    Outcome(work.succeeded,
            if work.succeeded then "" else if work.runtimeError == "" then work.fallback else work.runtimeError)
  }

  /** The outcome says what became of the work: whether it succeeded, no error if it did, and
      else the runtime's own text, or the handler's where the runtime has none. */
  predicate Conveys(outcome: Outcome, work: Work) {
    && (outcome.succeeded <==> work.succeeded)
    && (work.succeeded ==> outcome.error == "")
    && (!work.succeeded && work.runtimeError != "" ==> outcome.error == work.runtimeError)
    && (!work.succeeded && work.runtimeError == "" ==> outcome.error == work.fallback)
  }

  lemma ReportConveys(outcome: Outcome, work: Work)
    ensures Conveys(outcome, work) <==> outcome == Reported(work)
  {
  }

  // The source's objects

  class IdCounter {
    var next: nat

    constructor ()
      ensures next == 1
    {
      next := 1;
    }

    method FetchAdd() returns (id: nat)
      modifies this
      ensures id == old(next) && next == id + 1
    {
      id := next;
      next := next + 1;
    }
  }

  class SimulationMessageClient {
    var pending: set<nat>
    var results: map<nat, Outcome>
    var lastError: Option<CommandError>

    constructor ()
      ensures View() == Tables({}, map[], None)
    {
      pending, results, lastError := {}, map[], None;
    }

    ghost function View(): Tables
      reads this
    {
      Tables(pending, results, lastError)
    }

    method NextRequestId(counter: IdCounter) returns (id: nat)
      modifies this, counter
      ensures id == old(counter.next) && counter.next == id + 1
      ensures View() == Registered(old(View()), id)
    {
      id := counter.FetchAdd();
      pending := pending + {id};
    }

    // The handler of the result events.
    method ReceiveOperationResult(id: nat, succeeded: bool, error: string)
      modifies this
      ensures View() == Received(old(View()), id, Outcome(succeeded, error))
    {
      if id in pending {
        results := results[id := Outcome(succeeded, error)];
      }
    }

    method TakeRequestResult(id: nat) returns (succeeded: bool, ghost reply: Reply)
      modifies this
      ensures (View(), reply) == Taken(old(View()), id)
      ensures succeeded <==> reply.Returned? && reply.outcome.succeeded
      ensures succeeded <==> lastError == None
      ensures pending == old(pending) - {id} && (id in old(pending) ==> id !in results)
      ensures id !in old(pending) ==> reply.NotPending? && lastError == Some(BadState)
      ensures id in old(pending) && id !in old(results) ==> reply.NoResult? && lastError == Some(NoMatch)
    {
      var known := id in pending;
      pending := pending - {id};
      if !known {
        assert pending == old(pending);
        lastError := Some(BadState);
        return false, NotPending;
      }
      if id !in results {
        lastError := Some(NoMatch);
        return false, NoResult;
      }
      var result := results[id];
      results := results - {id};
      lastError := if result.succeeded then None
          else Some(if result.error == "" then NoDetails else FromAdapter(result.error));
      return result.succeeded, Returned(result);
    }
  }

  datatype Slot = PrimarySlot | BaselineSlot

  datatype AdapterEvent = ResultEvent(id: nat, outcome: Outcome) | StatusEvents | FrameEvent(slot: Slot, version: nat)

  // The results that a handler publishes.
  function Results(events: seq<AdapterEvent>): seq<AdapterEvent> {
    if events == [] then []
    else Results(events[..|events| - 1]) + (if events[|events| - 1].ResultEvent? then [events[|events| - 1]] else [])
  }

  /** The adapter's handlers: one result per request id, then the state, then the frame
      of each slot whose telemetry version has changed. */
  class SimulationMessageAdapter {
    var primaryVersion: nat
    var baselineVersion: nat

    constructor ()
      ensures primaryVersion == 0 && baselineVersion == 0
    {
      primaryVersion, baselineVersion := 0, 0;
    }

    method PublishState(primary: nat, baseline: nat) returns (events: seq<AdapterEvent>)
      modifies this
      ensures primaryVersion == primary && baselineVersion == baseline
      ensures Results(events) == []
      ensures forall slot, version :: FrameEvent(slot, version) in events <==>
          (slot.PrimarySlot? && version == primary != old(primaryVersion))
          || (slot.BaselineSlot? && version == baseline != old(baselineVersion))
    {
      events := [StatusEvents];
      assert Results(events) == Results([]);
      if primary != primaryVersion {
        events := events + [FrameEvent(PrimarySlot, primary)];
        assert events[..|events| - 1] == [StatusEvents];
        primaryVersion := primary;
      }
      if baseline != baselineVersion {
        ghost var before := events;
        events := events + [FrameEvent(BaselineSlot, baseline)];
        assert events[..|events| - 1] == before;
        baselineVersion := baseline;
      }
    }

    /** The handlers of all request commands: one result is published, for the request's
        own id and before the state; it succeeds exactly when the runtime did, and its
        error is the runtime's, or the handler's where the runtime has none. */
    method HandleRequest(id: nat, work: Work, primary: nat, baseline: nat)
      returns (events: seq<AdapterEvent>, ghost outcome: Outcome)
      modifies this
      ensures outcome == Reported(work)
      ensures events != [] && events[0] == ResultEvent(id, outcome) && Results(events) == [ResultEvent(id, outcome)]
      ensures outcome.succeeded == work.succeeded
      ensures work.succeeded ==> outcome.error == ""
      ensures !work.succeeded && work.runtimeError != "" ==> outcome.error == work.runtimeError
      ensures !work.succeeded && work.runtimeError == "" ==> outcome.error == work.fallback
      ensures primaryVersion == primary && baselineVersion == baseline
    {
      var error := if work.succeeded then "" else if work.runtimeError == "" then work.fallback else work.runtimeError;
      outcome := Outcome(work.succeeded, error);
      var result := [ResultEvent(id, Outcome(work.succeeded, error))];
      var state := PublishState(primary, baseline);
      ResultsJoin(result, state);
      assert result[..0] == [];
      events := result + state;
    }
  }

  lemma {:induction false} ResultsJoin(a: seq<AdapterEvent>, b: seq<AdapterEvent>)
    ensures Results(a + b) == Results(a) + Results(b)
  {
    if b == [] {
      assert a + b == a;
    } else {
      assert (a + b)[..|a + b| - 1] == a + b[..|b| - 1];
      ResultsJoin(a, b[..|b| - 1]);
    }
  }
}
