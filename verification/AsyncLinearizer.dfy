/** The asynchronous linearizer: one caller and one worker thread that share a single
    slot under a mutex and a condition variable.  Each critical section, and the work
    between two of them, is one atomic step; runs are arbitrary interleavings. */
module AsyncLinearizer {
  import opened Prelude

  datatype Config = Config(aircraftName: string, simulationHz: real)

  datatype Request = Request(generation: nat, config: Config, initialCondition: int, sourceState: int)

  // A linearizer, with what it was initialized for.
  datatype Linearizer = Linearizer(config: Config, initialCondition: int)

  // A result records what the linearizer was initialized for and the state it linearizes.
  datatype Linearization = Linearization(config: Config, initialCondition: int, sourceState: int)

  datatype Completion = Completion(generation: nat, linearization: Option<Linearization>, errorMessage: string)

  // How the numerical code answers: initialization first, then linearization.
  datatype Outcome =
    | InitializationFails | InitializationThrows(what: string) | LinearizationThrows(what: string) | Linearizes

  /** Where the worker stands: about to take the mutex and test the wait condition,
      blocked in the wait, processing a request, holding a finished one, or gone. */
  datatype Worker = Awake | Asleep | Working(request: Request) | Holding(completion: Completion) | Gone

  // How far the destructor has come.
  datatype Owner = Using | StopSet | Notified | Joined

  datatype State = State(
    stopRequested: bool, running: bool, pending: Option<Request>, completion: Option<Completion>,
    linearizer: Option<Linearizer>, linearizerConfig: Option<Config>, worker: Worker, owner: Owner)

  const INITIAL := State(false, false, None, None, None, None, Awake, Using)

  datatype Event =
    | Submit(request: Request) | Take | Check | SpuriousWake | Process(outcome: Outcome) | Finish
    | RequestStop | NotifyStop | Join

  predicate Enabled(s: State, e: Event) {
    match e
    case Submit(_) => !s.owner.Joined?
    case Take => !s.owner.Joined?
    case Check => s.worker.Awake?
    case SpuriousWake => s.worker.Asleep?
    case Process(_) => s.worker.Working?
    case Finish => s.worker.Holding?
    case RequestStop => s.owner.Using?
    case NotifyStop => s.owner.StopSet?
    case Join => s.owner.Notified? && s.worker.Gone?
  }

  function Woken(s: State): State {
    if s.worker.Asleep? then s.(worker := Awake) else s
  }

  predicate Accepts(s: State) {
    !s.stopRequested && s.pending.None? && !s.running && s.completion.None?
  }

  function LinearizedBy(l: Linearizer, sourceState: int): Linearization {
    Linearization(l.config, l.initialCondition, sourceState)
  }

  // The cache after a request was processed, and its completion.
  function Processed(s: State, r: Request, outcome: Outcome): (State, Completion) {
    var needed := s.linearizerConfig != Some(r.config);
    if needed && outcome.InitializationFails?
    then (s, Completion(r.generation, None, "Failed to initialize asynchronous aircraft linearizer"))
    else if needed && outcome.InitializationThrows? then (s, Completion(r.generation, None, outcome.what))
    else
      var t := if needed then s.(linearizer := Some(Linearizer(r.config, r.initialCondition)),
                                 linearizerConfig := Some(r.config))
               else s;
      match outcome
      case LinearizationThrows(what) => (t, Completion(r.generation, None, what))
      case _ =>
        (t, Completion(r.generation,
                       if t.linearizer.Some? then Some(LinearizedBy(t.linearizer.value, r.sourceState)) else None,
                       ""))
  }

  function Next(s: State, e: Event): State
    requires Enabled(s, e)
  {
    match e
    case Submit(r) => if Accepts(s) then Woken(s.(pending := Some(r))) else s
    case Take => s.(completion := None)
    case Check =>
      if s.stopRequested then s.(worker := Gone)
      else if s.pending.Some? then s.(worker := Working(s.pending.value), pending := None, running := true)
      else s.(worker := Asleep)
    case SpuriousWake => Woken(s)
    case Process(outcome) =>
      var (t, c) := Processed(s, s.worker.request, outcome);
      t.(worker := Holding(c))
    case Finish =>
      var t := s.(running := false, worker := Awake);
      if s.stopRequested then t else t.(completion := Some(s.worker.completion))
    case RequestStop => s.(stopRequested := true, pending := None, owner := StopSet)
    case NotifyStop => Woken(s).(owner := Notified)
    case Join => s.(owner := Joined)
  }

  // Runs, with what was accepted and what was handed out

  datatype Run = Run(state: State, accepted: seq<Request>, taken: seq<Completion>)

  function After(t: Run, e: Event): Run
    requires Enabled(t.state, e)
  {
    Run(Next(t.state, e),
        if e.Submit? && Accepts(t.state) then t.accepted + [e.request] else t.accepted,
        if e.Take? && t.state.completion.Some? then t.taken + [t.state.completion.value] else t.taken)
  }

  predicate Possible(t: Run, events: seq<Event>)
    decreases |events|
  {
    events == [] || (Enabled(t.state, events[0]) && Possible(After(t, events[0]), events[1..]))
  }

  function AfterAll(t: Run, events: seq<Event>): Run
    requires Possible(t, events)
    decreases |events|
  {
    if events == [] then t else AfterAll(After(t, events[0]), events[1..])
  }

  // A completion that answers a request: by its generation, and with a result for
  // exactly the configuration and the state that were asked for.
  predicate Answers(c: Completion, r: Request) {
    && c.generation == r.generation
    && (c.linearization.Some? ==>
          c.linearization.value.config == r.config && c.linearization.value.sourceState == r.sourceState)
    && (c.linearization.None? || c.errorMessage == "")
  }

  /** The linearizer that is cached is always the one its configuration says. */
  predicate CacheMatches(s: State) {
    && s.linearizer.Some? == s.linearizerConfig.Some?
    && (s.linearizer.Some? ==> s.linearizer.value.config == s.linearizerConfig.value)
  }

  function Count(b: bool): nat {
    if b then 1 else 0
  }

  // At most one of pending, running and completion is set.
  predicate OneSlot(s: State) {
    Count(s.pending.Some?) + Count(s.running) + Count(s.completion.Some?) <= 1
  }

  /** Nobody sleeps through a notification: a sleeping worker has nothing to do, or
      the destructor's notification is still to come. */
  predicate NoLostWakeup(s: State) {
    s.worker.Asleep? ==> s.pending.None? && (s.stopRequested ==> s.owner.StopSet?)
  }

  predicate ThreadsAgree(s: State) {
    && s.running == (s.worker.Working? || s.worker.Holding?)
    && s.stopRequested == !s.owner.Using?
    && (s.stopRequested ==> s.pending.None?)
    && (s.worker.Gone? ==> s.stopRequested)
    && (s.owner.Joined? ==> s.worker.Gone?)
  }

  // The last accepted request is the one in flight, wherever it is.
  predicate InFlight(s: State, r: Request) {
    && (s.pending.Some? ==> s.pending.value == r)
    && (s.worker.Working? ==> s.worker.request == r)
    && (s.worker.Holding? ==> Answers(s.worker.completion, r))
    && (s.completion.Some? ==> Answers(s.completion.value, r))
  }

  predicate Busy(s: State) {
    s.pending.Some? || s.running || s.completion.Some?
  }

  /** Exactly-once delivery: what was taken answers the accepted requests in order,
      at most one behind; until shutdown nothing but the request in flight is missing. */
  predicate Delivers(t: Run) {
    && |t.taken| <= |t.accepted| <= |t.taken| + 1
    && (forall i :: 0 <= i < |t.taken| ==> Answers(t.taken[i], t.accepted[i]))
    && (Busy(t.state) ==> |t.accepted| == |t.taken| + 1 && InFlight(t.state, t.accepted[|t.taken|]))
    && (!t.state.stopRequested ==> Busy(t.state) == (|t.accepted| == |t.taken| + 1))
  }

  predicate Safe(t: Run) {
    && OneSlot(t.state) && CacheMatches(t.state) && NoLostWakeup(t.state) && ThreadsAgree(t.state) && Delivers(t)
  }

  /** The completion of a request.  A cached linearizer is kept while the configuration is
      the same, so its result is for the initial condition of the request that made it. */
  lemma ProcessedAnswers(s: State, r: Request, outcome: Outcome)
    requires CacheMatches(s)
    ensures var (t, c) := Processed(s, r, outcome);
            && CacheMatches(t) && Answers(c, r)
            && t == s.(linearizer := t.linearizer, linearizerConfig := t.linearizerConfig)
            && c.linearization.Some? ==
                 (outcome.Linearizes? || (s.linearizerConfig == Some(r.config) && !outcome.LinearizationThrows?))
            && (c.linearization.Some? ==>
                  c.linearization.value.initialCondition
                  == (if s.linearizerConfig == Some(r.config) then s.linearizer.value.initialCondition
                      else r.initialCondition))
            && (outcome.LinearizationThrows? ==> c.errorMessage == outcome.what)
            && (s.linearizerConfig != Some(r.config) ==>
                  && (outcome.InitializationThrows? ==> c.errorMessage == outcome.what && t == s)
                  && (outcome.InitializationFails? ==> c.errorMessage != "" && t == s))
  {
  }

  lemma StepKeepsSafe(t: Run, e: Event)
    requires Safe(t) && Enabled(t.state, e)
    ensures Safe(After(t, e))
  {
    if e.Process? {
      ProcessedAnswers(t.state, t.state.worker.request, e.outcome);
    }
    hide Processed, Answers;
  }

  /** Over all interleavings: safety holds in every reachable state. */
  lemma {:induction false} RunsAreSafe(t: Run, events: seq<Event>)
    requires Safe(t) && Possible(t, events)
    ensures Safe(AfterAll(t, events))
    decreases |events|
  {
    hide Safe, After, Enabled;
    if events != [] {
      StepKeepsSafe(t, events[0]);
      RunsAreSafe(After(t, events[0]), events[1..]);
    }
  }

  lemma InitiallySafe()
    ensures Safe(Run(INITIAL, [], []))
  {
  }

  function Generations(requests: seq<Request>): (g: seq<nat>)
    ensures |g| == |requests| && forall i :: 0 <= i < |g| ==> g[i] == requests[i].generation
  {
    seq(|requests|, i requires 0 <= i < |requests| => requests[i].generation)
  }

  function TakenGenerations(completions: seq<Completion>): (g: seq<nat>)
    ensures |g| == |completions| && forall i :: 0 <= i < |g| ==> g[i] == completions[i].generation
  {
    seq(|completions|, i requires 0 <= i < |completions| => completions[i].generation)
  }

  /** The generations handed out are a prefix, in order, of the generations accepted,
      at most one behind; a completion waiting to be taken is never overwritten. */
  lemma DeliveredExactlyOnce(events: seq<Event>)
    requires Possible(Run(INITIAL, [], []), events)
    ensures var t := AfterAll(Run(INITIAL, [], []), events);
            && TakenGenerations(t.taken) <= Generations(t.accepted)
            && |t.accepted| <= |t.taken| + 1
            && OneSlot(t.state) && CacheMatches(t.state)
  {
    var start := Run(INITIAL, [], []);
    InitiallySafe();
    RunsAreSafe(start, events);
    var t := AfterAll(start, events);
    assert TakenGenerations(t.taken) == Generations(t.accepted)[..|t.taken|];
  }

  /** A completion stays until it is taken. */
  lemma CompletionsAreKept(t: Run, e: Event)
    requires Safe(t) && Enabled(t.state, e) && t.state.completion.Some?
    ensures Next(t.state, e).completion == (if e.Take? then None else t.state.completion)
  {
    hide Processed;
  }

  // Progress

  // The worker's steps until the request in flight is a completion.
  function StepsToCompletion(s: State): nat {
    if s.completion.Some? then 0
    else if s.worker.Holding? then 1
    else if s.worker.Working? then 2
    else 3
  }

  predicate WorkerStep(e: Event) {
    e.Check? || e.Process? || e.Finish?
  }

  /** Until shutdown a request that was accepted is a completion after three worker
      steps, whatever else happens between them: there always is an enabled worker
      step, it brings the completion one nearer, and no other step pushes it back. */
  lemma RequestsProgress(t: Run, e: Event)
    requires Safe(t) && Enabled(t.state, e) && Busy(t.state) && t.state.completion.None?
    requires !t.state.stopRequested && !e.RequestStop?
    ensures Enabled(t.state, Check) || Enabled(t.state, Process(Linearizes)) || Enabled(t.state, Finish)
    ensures var s := Next(t.state, e);
            Busy(s) && StepsToCompletion(s) == StepsToCompletion(t.state) - Count(WorkerStep(e))
  {
    if e.Process? {
      ProcessedAnswers(t.state, t.state.worker.request, e.outcome);
    }
    hide Processed, Answers;
  }

  // The worker's steps until it is gone, once it was told to stop and notified.
  function StepsToExit(s: State): nat {
    match s.worker
    case Gone => 0
    case Awake => 1
    case Asleep => 2
    case Holding(_) => 2
    case Working(_) => 3
  }

  /** After stop no completion appears, nothing is accepted, and the worker exits in
      boundedly many of its own steps: each of them brings the exit nearer and nothing
      pushes it back; once notified, it is never stuck. */
  lemma StopEndsWorker(t: Run, e: Event)
    requires Safe(t) && Enabled(t.state, e) && t.state.stopRequested
    ensures var s := Next(t.state, e);
            && s.stopRequested && After(t, e).accepted == t.accepted
            && (s.completion.Some? ==> s.completion == t.state.completion)
            && StepsToExit(s) <= StepsToExit(t.state) - Count(WorkerStep(e))
    ensures t.state.owner.Notified? && !t.state.worker.Gone? ==>
        Enabled(t.state, Check) || Enabled(t.state, Process(Linearizes)) || Enabled(t.state, Finish)
    ensures t.state.owner.Notified? && t.state.worker.Gone? ==> Enabled(t.state, Join)
  {
    if e.Process? {
      ProcessedAnswers(t.state, t.state.worker.request, e.outcome);
    }
    hide Processed, Answers;
  }

  function WorkerSteps(events: seq<Event>): nat {
    if events == [] then 0 else Count(WorkerStep(events[0])) + WorkerSteps(events[1..])
  }

  /** Every run after stop contains at most three worker steps, accepts nothing more,
      and hands out at most the one completion that was waiting. */
  lemma {:induction false} StoppedRunsAreShort(t: Run, events: seq<Event>)
    requires Safe(t) && t.state.stopRequested && Possible(t, events)
    ensures WorkerSteps(events) + StepsToExit(AfterAll(t, events).state) <= StepsToExit(t.state) <= 3
    ensures AfterAll(t, events).accepted == t.accepted
    ensures |AfterAll(t, events).taken| <= |t.taken| + Count(t.state.completion.Some?)
    decreases |events|
  {
    hide Safe, Next, Enabled;
    if events != [] {
      StepKeepsSafe(t, events[0]);
      StopEndsWorker(t, events[0]);
      TakesOnce(t, events[0]);
      StoppedRunsAreShort(After(t, events[0]), events[1..]);
    }
  }

  lemma TakesOnce(t: Run, e: Event)
    requires Safe(t) && t.state.stopRequested && Enabled(t.state, e)
    ensures var u := After(t, e);
            u.state.stopRequested
            && |u.taken| + Count(u.state.completion.Some?) <= |t.taken| + Count(t.state.completion.Some?)
  {
    if e.Process? {
      ProcessedAnswers(t.state, t.state.worker.request, e.outcome);
    }
    hide Processed, Answers;
  }

  /** The source's class, its operations being the atomic steps. */
  class Impl {
    var stopRequested: bool
    var running: bool
    var pending: Option<Request>
    var completion: Option<Completion>
    var linearizer: Option<Linearizer>
    var linearizerConfig: Option<Config>
    var worker: Worker
    ghost var owner: Owner

    ghost function View(): State
      reads this
    {
      State(stopRequested, running, pending, completion, linearizer, linearizerConfig, worker, owner)
    }

    constructor ()
      ensures View() == INITIAL
    {
      stopRequested, running, pending, completion := false, false, None, None;
      linearizer, linearizerConfig, worker, owner := None, None, Awake, Using;
    }

    method NotifyOne()
      modifies this`worker
      ensures View() == Woken(old(View()))
    {
      if worker == Asleep {
        worker := Awake;
      }
    }

    method SubmitRequest(request: Request) returns (accepted: bool)
      requires Enabled(View(), Submit(request))
      modifies this
      ensures View() == Next(old(View()), Submit(request)) && accepted == Accepts(old(View()))
    {
      if stopRequested || pending.Some? || running || completion.Some? {
        return false;
      }
      pending := Some(request);
      NotifyOne();
      return true;
    }

    method TakeCompletion() returns (taken: Option<Completion>)
      requires Enabled(View(), Take)
      modifies this
      ensures View() == Next(old(View()), Take) && taken == old(completion)
    {
      taken := completion;
      completion := None;
    }

    // The worker's first critical section, with one test of the wait condition.
    method CheckForWork()
      requires Enabled(View(), Check)
      modifies this
      ensures View() == Next(old(View()), Check)
    {
      if !(stopRequested || pending.Some?) {
        worker := Asleep;
        return;
      }
      if stopRequested {
        worker := Gone;
        return;
      }
      worker := Working(pending.value);
      pending := None;
      running := true;
    }

    method ProcessRequest(outcome: Outcome)
      requires Enabled(View(), Process(outcome)) && CacheMatches(View())
      modifies this
      ensures View() == Next(old(View()), Process(outcome))
    {
      var request := worker.request;
      if linearizerConfig.None? || linearizerConfig.value != request.config {
        if outcome.InitializationFails? {
          worker := Holding(Completion(request.generation, None,
                                       "Failed to initialize asynchronous aircraft linearizer"));
          return;
        }
        if outcome.InitializationThrows? {
          worker := Holding(Completion(request.generation, None, outcome.what));
          return;
        }
        linearizer := Some(Linearizer(request.config, request.initialCondition));
        linearizerConfig := Some(request.config);
      }
      if outcome.LinearizationThrows? {
        worker := Holding(Completion(request.generation, None, outcome.what));
        return;
      }
      worker := Holding(Completion(request.generation,
                                   Some(LinearizedBy(linearizer.value, request.sourceState)), ""));
    }

    method FinishRequest()
      requires Enabled(View(), Finish)
      modifies this
      ensures View() == Next(old(View()), Finish)
    {
      running := false;
      if !stopRequested {
        completion := Some(worker.completion);
      }
      worker := Awake;
    }

    // The destructor up to the join.
    method SetStop()
      requires Enabled(View(), RequestStop)
      modifies this
      ensures View() == Next(old(View()), RequestStop)
    {
      stopRequested := true;
      pending := None;
      owner := StopSet;
    }

    method NotifyStopped()
      requires Enabled(View(), NotifyStop)
      modifies this
      ensures View() == Next(old(View()), NotifyStop)
    {
      NotifyOne();
      owner := Notified;
    }
  }
}
