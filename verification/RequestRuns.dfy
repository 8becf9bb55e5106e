/** Runs of requests: several clients share a synchronous bus with other subscribers.  A
    request publishes its command; an adapter's handler publishes the result, which the
    clients' handlers store.  Any other handler may make requests of its own, subscribe and
    unsubscribe, so a run is a sequence of atomic steps over a stack of what is in flight. */
module RequestRuns {
  import opened Prelude
  import opened RequestCorrelation
  import MB = MessageBus

  datatype Handler = AdapterHandler | ClientHandler(client: nat) | OtherHandler

  // An entry of a channel, with whose handler it is.
  datatype Entry = Entry(id: nat, handler: Handler)

  // What the adapter told about a request, and the handlers that its result has reached.
  datatype Told = Told(work: Work, served: seq<Handler>)

  /** What is in flight: a client's request with the publish of its command, the adapter's
      publish of a result, or code of any other subscriber.  A publish works on its copy
      of the channel and serves the entries that are active at their turn; `begin` counts
      the deliveries before a request. */
  datatype Frame =
    | Request(client: nat, id: nat, begin: nat, channel: seq<Entry>, turn: nat, served: seq<Handler>,
              told: Option<Told>)
    | Report(id: nat, work: Work, channel: seq<Entry>, turn: nat, served: seq<Handler>)
    | Callback

  // A result event that reaches the handler of a client.
  datatype Delivery = Delivery(client: nat, id: nat, outcome: Outcome)

  datatype Finished = Finished(request: Frame, end: nat, reply: Reply)

  /** `who(k)` is whose handler the k-th subscription of the bus is. */
  datatype System = System(
    who: nat -> Handler, bus: MB.Bus, nextId: nat, clients: seq<Tables>, stack: seq<Frame>, log: seq<Delivery>,
    finished: seq<Finished>)

  function Fresh(who: nat -> Handler, bus: MB.Bus, clients: nat): System {
    System(who, bus, 1, seq(clients, i => Tables({}, map[], None)), [], [], [])
  }

  /** A client publishes a command; the innermost publish takes its next turn, in which an
      adapter does the work and publishes a result; it returns; somebody subscribes or
      unsubscribes, or delivers a result event of any id. */
  datatype Step =
    | Ask(client: nat, command: MB.MessageType)
    | TakeTurn(work: Work, result: MB.MessageType)
    | Return
    | Subscribe(messageType: MB.MessageType)
    | Unsubscribe(id: nat, messageType: MB.MessageType)
    | Stray(delivery: Delivery)

  function Top(s: System): Frame
    requires s.stack != []
  {
    s.stack[|s.stack| - 1]
  }

  // Foreign code runs when nothing is in flight, and in callbacks.
  predicate IsFree(s: System) {
    s.stack == [] || Top(s).Callback?
  }

  predicate Enabled(s: System, step: Step) {
    match step
    case Ask(client, _) => IsFree(s) && client < |s.clients|
    case TakeTurn(_, _) => !IsFree(s) && Top(s).turn < |Top(s).channel|
    case Return => s.stack != [] && (Top(s).Callback? || Top(s).turn == |Top(s).channel|)
    case Subscribe(_) => IsFree(s)
    case Unsubscribe(id, messageType) => IsFree(s) && MB.Enabled(s.bus, MB.Unsubscribe(id, messageType))
    case Stray(d) => IsFree(s) && d.client < |s.clients|
  }

  // The copy of a channel that a publish takes.
  function Copy(s: System, messageType: MB.MessageType): (entries: seq<Entry>)
    ensures |entries| == |MB.Channel(s.bus, messageType)|
    ensures forall i :: 0 <= i < |entries| ==>
              entries[i] == Entry(MB.Channel(s.bus, messageType)[i], s.who(MB.Channel(s.bus, messageType)[i]))
  {
    var ids := MB.Channel(s.bus, messageType);
    seq(|ids|, i requires 0 <= i < |ids| => Entry(ids[i], s.who(ids[i])))
  }

  function Delivered(s: System, d: Delivery): System
    requires d.client < |s.clients|
  {
    s.(clients := s.clients[d.client := Received(s.clients[d.client], d.id, d.outcome)], log := s.log + [d])
  }

  function WithTop(s: System, frames: seq<Frame>): System
    requires s.stack != []
  {
    s.(stack := s.stack[..|s.stack| - 1] + frames)
  }

  function Asked(s: System, client: nat, channel: seq<Entry>): System
    requires client < |s.clients|
  {
    s.(nextId := s.nextId + 1, clients := s.clients[client := Registered(s.clients[client], s.nextId)],
       stack := s.stack + [Request(client, s.nextId, |s.log|, channel, 0, [], None)])
  }

  // The turn of one entry has come, and its handler was served or skipped.
  function Turned(f: Frame, served: seq<Handler>): Frame {
    match f
    case Request(client, id, begin, channel, turn, before, told) =>
      Request(client, id, begin, channel, turn + 1, before + served, told)
    case Report(id, work, channel, turn, before) => Report(id, work, channel, turn + 1, before + served)
    case Callback => Callback
  }

  // The next entry of the innermost publish.
  function TurnTaken(s: System, work: Work, results: seq<Entry>): System
    requires s.stack != [] && !Top(s).Callback? && Top(s).turn < |Top(s).channel|
  {
    var top, e := Top(s), Top(s).channel[Top(s).turn];
    var next := Turned(top, [e.handler]);
    if e.id !in s.bus.active then WithTop(s, [Turned(top, [])])
    else
      match e.handler
      case OtherHandler => WithTop(s, [next, Callback])
      case AdapterHandler =>
        if top.Request? then WithTop(s, [next, Report(top.id, work, results, 0, [])]) else WithTop(s, [next])
      case ClientHandler(client) =>
        if top.Report? && client < |s.clients|
        then Delivered(WithTop(s, [next]), Delivery(client, top.id, Reported(top.work)))
        else WithTop(s, [next])
  }

  function Ended(s: System): System
    requires s.stack != [] && Top(s).Request? && Top(s).client < |s.clients|
  {
    var f := Top(s);
    var (t, reply) := Taken(s.clients[f.client], f.id);
    WithTop(s, []).(clients := s.clients[f.client := t], finished := s.finished + [Finished(f, |s.log|, reply)])
  }

  // The adapter's publish of a result is over; it goes on to publish the state, to anybody.
  function Reporting(s: System): System
    requires s.stack != [] && Top(s).Report?
  {
    var n := |s.stack| - 1;
    if n > 0 && s.stack[n - 1].Request? then
      var told := Some(Told(Top(s).work, Top(s).served));
      s.(stack := s.stack[..n - 1] + [s.stack[n - 1].(told := told)] + [Callback])
    else
      WithTop(s, [Callback])
  }

  function Next(s: System, step: Step): System
    requires Enabled(s, step)
  {
    match step
    case Ask(client, command) => Asked(s, client, Copy(s, command))
    case TakeTurn(work, result) => TurnTaken(s, work, Copy(s, result))
    case Subscribe(messageType) => s.(bus := MB.Next(s.bus, MB.Subscribe(messageType)))
    case Unsubscribe(id, messageType) => s.(bus := MB.Next(s.bus, MB.Unsubscribe(id, messageType)))
    case Stray(d) => Delivered(s, d)
    case Return =>
      if Top(s).Callback? then WithTop(s, [])
      else if Top(s).Report? then Reporting(s)
      else if Top(s).client < |s.clients| then Ended(s)
      else s
  }

  // The specification

  // The last result delivered to a client for an id.
  function LastFor(log: seq<Delivery>, client: nat, id: nat): Option<Outcome> {
    if log == [] then None
    else
      var d := log[|log| - 1];
      if d.client == client && d.id == id then Some(d.outcome) else LastFor(log[..|log| - 1], client, id)
  }

  // A request in flight is pending, and its result is the last one delivered since it began.
  ghost predicate InFlight(s: System, f: Frame)
    requires f.Request?
  {
    && f.client < |s.clients| && f.id < s.nextId && f.begin <= |s.log|
    && f.id in s.clients[f.client].pending
    && (match LastFor(s.log[f.begin..], f.client, f.id)
        case None => f.id !in s.clients[f.client].results
        case Some(outcome) => f.id in s.clients[f.client].results && s.clients[f.client].results[f.id] == outcome)
  }

  ghost predicate IsOpen(stack: seq<Frame>, client: nat, id: nat) {
    exists i :: 0 <= i < |stack| && stack[i].Request? && stack[i].client == client && stack[i].id == id
  }

  function ReplyFor(result: Option<Outcome>): Reply {
    match result
    case None => NoResult
    case Some(outcome) => Returned(outcome)
  }

  predicate AnsweredFromLog(f: Finished, log: seq<Delivery>) {
    && f.request.Request? && f.request.begin <= f.end <= |log|
    && f.reply == ReplyFor(LastFor(log[f.request.begin..f.end], f.request.client, f.request.id))
  }

  /** The tables hold exactly what is in flight: an id is pending exactly while its request
      is, results are stored only for pending ids, and each is the last one delivered;
      every finished request got the last result delivered for its own id meanwhile. */
  ghost predicate Exact(s: System) {
    && (forall i :: 0 <= i < |s.stack| && s.stack[i].Request? ==> InFlight(s, s.stack[i]))
    && (forall i, j :: 0 <= i < j < |s.stack| && s.stack[i].Request? && s.stack[j].Request? ==>
        s.stack[i].id < s.stack[j].id)
    && (forall c, id :: 0 <= c < |s.clients| && id in s.clients[c].pending ==> IsOpen(s.stack, c, id))
    && (forall c :: 0 <= c < |s.clients| ==> s.clients[c].results.Keys <= s.clients[c].pending)
    && (forall i :: 0 <= i < |s.finished| ==> AnsweredFromLog(s.finished[i], s.log))
  }

  // Every step keeps the tables exact

  lemma LastForAppended(log: seq<Delivery>, begin: nat, d: Delivery, client: nat, id: nat)
    requires begin <= |log|
    ensures LastFor((log + [d])[begin..], client, id)
         == if d.client == client && d.id == id then Some(d.outcome) else LastFor(log[begin..], client, id)
  {
    var longer := (log + [d])[begin..];
    assert longer[..|longer| - 1] == log[begin..];
  }

  lemma FinishedStay(f: Finished, log: seq<Delivery>, d: Delivery)
    requires AnsweredFromLog(f, log)
    ensures AnsweredFromLog(f, log + [d])
  {
    assert (log + [d])[f.request.begin..f.end] == log[f.request.begin..f.end];
  }

  lemma DeliveryKeepsExact(s: System, d: Delivery)
    requires Exact(s) && d.client < |s.clients|
    ensures Exact(Delivered(s, d))
  {
    hide LastFor, AnsweredFromLog, IsOpen;
    var t := Delivered(s, d);
    forall i | 0 <= i < |t.stack| && t.stack[i].Request?
      ensures InFlight(t, t.stack[i])
    {
      var f := t.stack[i];
      assert InFlight(s, f);
      LastForAppended(s.log, f.begin, d, f.client, f.id);
    }
    forall i | 0 <= i < |t.finished|
      ensures AnsweredFromLog(t.finished[i], t.log)
    {
      FinishedStay(t.finished[i], s.log, d);
    }
  }

  lemma AskKeepsExact(s: System, client: nat, channel: seq<Entry>)
    requires Exact(s) && client < |s.clients|
    ensures Exact(Asked(s, client, channel))
  {
    hide AnsweredFromLog;
    var t := Asked(s, client, channel);
    assert s.log[|s.log|..] == [];
    forall c, id | 0 <= c < |t.clients| && id in t.clients[c].pending
      ensures IsOpen(t.stack, c, id)
    {
      if id in s.clients[c].pending {
        assert IsOpen(s.stack, c, id);
        var i :| 0 <= i < |s.stack| && s.stack[i].Request? && s.stack[i].client == c && s.stack[i].id == id;
        assert t.stack[i] == s.stack[i];
      } else {
        assert t.stack[|s.stack|].id == id;
      }
    }
    assert !IsOpen(s.stack, client, s.nextId);
  }

  // The same requests in flight, whatever else is on the stack and in their publishes.
  ghost predicate SameRequests(a: seq<Frame>, b: seq<Frame>) {
    && |a| <= |b|
    && (forall i :: 0 <= i < |a| ==> (a[i].Request? <==> b[i].Request?))
    && (forall i :: 0 <= i < |a| && a[i].Request? ==>
          a[i].client == b[i].client && a[i].id == b[i].id && a[i].begin == b[i].begin)
    && (forall i :: |a| <= i < |b| ==> !b[i].Request?)
  }

  lemma RestackingKeepsExact(s: System, stack: seq<Frame>)
    requires Exact(s) && (SameRequests(s.stack, stack) || SameRequests(stack, s.stack))
    ensures Exact(s.(stack := stack))
  {
    hide AnsweredFromLog, LastFor;
    var t := s.(stack := stack);
    forall c, id | 0 <= c < |t.clients| && id in t.clients[c].pending
      ensures IsOpen(t.stack, c, id)
    {
      assert IsOpen(s.stack, c, id);
      var i :| 0 <= i < |s.stack| && s.stack[i].Request? && s.stack[i].client == c && s.stack[i].id == id;
      assert i < |stack| && stack[i].Request?;
    }
    forall i | 0 <= i < |t.stack| && t.stack[i].Request?
      ensures InFlight(t, t.stack[i])
    {
      assert InFlight(s, s.stack[i]);
    }
  }

  lemma EndKeepsExact(s: System)
    requires Exact(s) && s.stack != [] && Top(s).Request? && Top(s).client < |s.clients|
    ensures Exact(Ended(s))
  {
    hide LastFor;
    var f, t := Top(s), Ended(s);
    assert InFlight(s, f);
    assert s.log[f.begin..] == s.log[f.begin..|s.log|];
    forall c, id | 0 <= c < |t.clients| && id in t.clients[c].pending
      ensures IsOpen(t.stack, c, id)
    {
      assert id in s.clients[c].pending && IsOpen(s.stack, c, id);
      var i :| 0 <= i < |s.stack| && s.stack[i].Request? && s.stack[i].client == c && s.stack[i].id == id;
      assert t.stack[i] == s.stack[i];
    }
    forall i | 0 <= i < |t.stack| && t.stack[i].Request?
      ensures InFlight(t, t.stack[i])
    {
      assert t.stack[i] == s.stack[i] && InFlight(s, s.stack[i]) && s.stack[i].id < f.id;
    }
  }

  lemma BusKeepsExact(s: System, bus: MB.Bus)
    requires Exact(s)
    ensures Exact(s.(bus := bus))
  {
    hide LastFor, AnsweredFromLog, IsOpen;
    var t := s.(bus := bus);
    forall i | 0 <= i < |t.stack| && t.stack[i].Request?
      ensures InFlight(t, t.stack[i])
    {
      assert InFlight(s, s.stack[i]);
    }
  }

  /** Every step, whoever delivers whatever, keeps the tables exact. */
  lemma StepKeepsExact(s: System, step: Step)
    requires Exact(s) && Enabled(s, step)
    ensures Exact(Next(s, step))
  {
    hide Exact, LastFor, TurnTaken, MB.Next;
    match step
    case Ask(client, command) => AskKeepsExact(s, client, Copy(s, command));
    case Stray(d) => DeliveryKeepsExact(s, d);
    case TakeTurn(work, result) => TurnKeepsExact(s, work, Copy(s, result));
    case Subscribe(messageType) => BusKeepsExact(s, MB.Next(s.bus, MB.Subscribe(messageType)));
    case Unsubscribe(id, messageType) => BusKeepsExact(s, MB.Next(s.bus, MB.Unsubscribe(id, messageType)));
    case Return =>
      if Top(s).Callback? {
        RestackingKeepsExact(s, WithTop(s, []).stack);
      } else if Top(s).Report? {
        RestackingKeepsExact(s, Reporting(s).stack);
      } else if Top(s).client < |s.clients| {
        EndKeepsExact(s);
      }
  }

  lemma TurnKeepsExact(s: System, work: Work, results: seq<Entry>)
    requires Exact(s) && s.stack != [] && !Top(s).Callback? && Top(s).turn < |Top(s).channel|
    ensures Exact(TurnTaken(s, work, results))
  {
    hide Exact, Reported;
    var top, t := Top(s), TurnTaken(s, work, results);
    RestackingKeepsExact(s, t.stack);
    var e := top.channel[top.turn];
    if e.id in s.bus.active && e.handler.ClientHandler? && top.Report? && e.handler.client < |s.clients| {
      DeliveryKeepsExact(s.(stack := t.stack), Delivery(e.handler.client, top.id, Reported(top.work)));
    }
  }

  function NextAll(s: System, steps: seq<Step>): System
    requires AllEnabled(s, steps)
    decreases |steps|
  {
    if steps == [] then s else NextAll(Next(s, steps[0]), steps[1..])
  }

  predicate AllEnabled(s: System, steps: seq<Step>)
    decreases |steps|
  {
    steps == [] || (Enabled(s, steps[0]) && AllEnabled(Next(s, steps[0]), steps[1..]))
  }

  /** Over all runs, with result events of any ids delivered by anybody: the tables are
      exact, so every request gets the last result delivered for its own id while it was
      in flight, or reports that there was none. */
  lemma {:induction false} RunsAreExact(s: System, steps: seq<Step>)
    requires Exact(s) && AllEnabled(s, steps)
    ensures Exact(NextAll(s, steps))
    decreases |steps|
  {
    hide Exact, Next, Enabled;
    if steps != [] {
      StepKeepsExact(s, steps[0]);
      RunsAreExact(Next(s, steps[0]), steps[1..]);
    }
  }

  lemma FreshIsExact(who: nat -> Handler, bus: MB.Bus, clients: nat)
    ensures Exact(Fresh(who, bus, clients))
  {
  }

  /** Nothing leaks: whenever no request is in flight, all tables are empty. */
  lemma NothingLeaks(s: System)
    requires Exact(s) && forall i :: 0 <= i < |s.stack| ==> !s.stack[i].Request?
    ensures forall c :: 0 <= c < |s.clients| ==> s.clients[c].pending == {} && s.clients[c].results == map[]
  {
    forall c | 0 <= c < |s.clients|
      ensures s.clients[c].pending == {} && s.clients[c].results == map[]
    {
      forall id: nat
        ensures id !in s.clients[c].pending
      {
        assert !IsOpen(s.stack, c, id);
      }
    }
  }

  /** What a client learns at the end of its request: the last result delivered for it,
      and its last error tells the same. */
  lemma EndAnswers(s: System)
    requires Exact(s) && s.stack != [] && Top(s).Request?
    ensures Top(s).client < |s.clients|
    ensures var f := Top(s);
            var (t, reply) := Taken(s.clients[f.client], f.id);
            && reply == ReplyFor(LastFor(s.log[f.begin..], f.client, f.id))
            && (reply == NoResult ==> t.lastError == Some(NoMatch))
            && (reply.Returned? ==>
                  && (t.lastError == None <==> reply.outcome.succeeded)
                  && (!reply.outcome.succeeded && reply.outcome.error != "" ==>
                        t.lastError == Some(FromAdapter(reply.outcome.error)))
                  && (!reply.outcome.succeeded && reply.outcome.error == "" ==> t.lastError == Some(NoDetails)))
  {
    hide LastFor;
    assert InFlight(s, Top(s));
  }
}
