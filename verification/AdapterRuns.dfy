/** Runs with one adapter on the bus: what each request is answered, by the subscriptions
    and by what the adapter reports. */
module AdapterRuns {
  import opened Prelude
  import opened RequestCorrelation
  import opened RequestRuns
  import MB = MessageBus

  predicate AtMostOneAdapter(channel: seq<Entry>) {
    forall i, j :: 0 <= i < j < |channel| ==>
        !(channel[i].handler.AdapterHandler? && channel[j].handler.AdapterHandler?)
  }

  // The outcome that a request must get: what the adapter told, if it reached the client.
  function Expected(f: Frame): Option<Outcome>
    requires f.Request?
  {
    if f.told.Some? && ClientHandler(f.client) in f.told.value.served then Some(Reported(f.told.value.work)) else None
  }

  // The handlers that were served are those of entries whose turn has come.
  predicate ServedInTurn(channel: seq<Entry>, turn: nat, served: seq<Handler>)
    requires turn <= |channel|
  {
    forall h :: h in served ==> exists i :: 0 <= i < turn && channel[i].handler == h
  }

  /** While a request is in flight its result is what the adapter has told so far; the
      frame above it may be the adapter's publish of that result. */
  predicate Tells(log: seq<Delivery>, f: Frame, above: Frame)
    requires f.Request?
  {
    && AtMostOneAdapter(f.channel) && f.turn <= |f.channel| && f.begin <= |log|
    && ServedInTurn(f.channel, f.turn, f.served)
    && (if above.Report?
        then
          && f.told.None? && AdapterHandler in f.served && above.id == f.id && above.turn <= |above.channel|
          && LastFor(log[f.begin..], f.client, f.id)
             == (if ClientHandler(f.client) in above.served then Some(Reported(above.work)) else None)
        else
          && (f.told.Some? <==> AdapterHandler in f.served)
          && LastFor(log[f.begin..], f.client, f.id) == Expected(f))
  }

  // The frame above another one; nothing in flight counts as foreign code.
  function Above(stack: seq<Frame>, i: nat): Frame {
    if i + 1 < |stack| then stack[i + 1] else Callback
  }

  /** The request was answered by the adapter: it got what the adapter told, if its publish
      served the adapter's handler and the publish of the result the client's, and else
      nothing. */
  predicate AnsweredByAdapter(f: Finished) {
    && f.request.Request?
    && (f.request.told.Some? <==> AdapterHandler in f.request.served)
    && (if f.request.told.Some? && ClientHandler(f.request.client) in f.request.told.value.served
        then f.reply.Returned? && Conveys(f.reply.outcome, f.request.told.value.work)
        else f.reply == NoResult)
  }

  ghost predicate ToldRight(s: System) {
    && (forall i :: 0 <= i < |s.stack| && s.stack[i].Request? ==> Tells(s.log, s.stack[i], Above(s.stack, i)))
    && (forall i :: 0 <= i < |s.stack| && s.stack[i].Report? ==> i > 0 && s.stack[i - 1].Request?)
    && (forall i :: 0 <= i < |s.finished| ==> AnsweredByAdapter(s.finished[i]))
  }

  // The bus

  predicate AtMostOne(ids: seq<nat>, who: nat -> Handler) {
    forall i, j :: 0 <= i < j < |ids| ==> !(who(ids[i]).AdapterHandler? && who(ids[j]).AdapterHandler?)
  }

  /** No channel has two adapters' entries, and no adapter is going to subscribe. */
  ghost predicate OneAdapter(s: System) {
    && (forall t: MB.MessageType :: AtMostOne(MB.Channel(s.bus, t), s.who))
    && (forall k :: k >= s.bus.nextId ==> !s.who(k).AdapterHandler?)
  }

  lemma {:induction false} WithoutKeepsOne(ids: seq<nat>, id: nat, who: nat -> Handler)
    requires AtMostOne(ids, who)
    ensures AtMostOne(MB.Without(ids, id), who)
  {
    if ids != [] {
      var n := |ids| - 1;
      WithoutKeepsOne(ids[..n], id, who);
      var rest := MB.Without(ids[..n], id);
      forall i | 0 <= i < |rest|
        ensures !(who(rest[i]).AdapterHandler? && who(ids[n]).AdapterHandler?)
      {
        assert rest[i] in rest;
      }
    }
  }

  lemma BusKeepsOne(s: System, step: Step)
    requires OneAdapter(s) && Enabled(s, step) && (step.Subscribe? || step.Unsubscribe?)
    ensures OneAdapter(Next(s, step))
  {
    hide MB.Without;
    var b := Next(s, step).bus;
    forall t: MB.MessageType
      ensures AtMostOne(MB.Channel(b, t), s.who)
    {
      assert AtMostOne(MB.Channel(s.bus, t), s.who);
      if step.Unsubscribe? {
        WithoutKeepsOne(MB.Channel(s.bus, step.messageType), step.id, s.who);
        ChannelWithout(s.bus, step.id, step.messageType, t);
      }
    }
  }

  lemma ChannelWithout(b: MB.Bus, id: nat, messageType: MB.MessageType, t: MB.MessageType)
    ensures MB.Channel(MB.WithoutSubscription(b, id, messageType), t)
         == if t == messageType then MB.Without(MB.Channel(b, t), id) else MB.Channel(b, t)
  {
    assert MB.Without([], id) == [];
    hide MB.Without;
  }

  lemma StepKeepsOne(s: System, step: Step)
    requires OneAdapter(s) && Enabled(s, step)
    ensures OneAdapter(Next(s, step))
  {
    if step.Subscribe? || step.Unsubscribe? {
      BusKeepsOne(s, step);
    } else {
      OtherStepsKeepBus(s, step);
    }
  }

  lemma OtherStepsKeepBus(s: System, step: Step)
    requires Enabled(s, step)
    ensures Next(s, step).who == s.who
    ensures !step.Subscribe? && !step.Unsubscribe? ==> Next(s, step).bus == s.bus
    ensures |Next(s, step).clients| == |s.clients|
  {
    hide MB.Next, Reported, Received, Taken, Registered;
  }

  lemma CopyHasOne(s: System, t: MB.MessageType)
    requires OneAdapter(s)
    ensures AtMostOneAdapter(Copy(s, t))
  {
    assert AtMostOne(MB.Channel(s.bus, t), s.who);
  }

  // Every step keeps what is told right

  lemma AskKeepsTold(s: System, client: nat, channel: seq<Entry>)
    requires ToldRight(s) && IsFree(s) && client < |s.clients| && AtMostOneAdapter(channel)
    ensures ToldRight(Asked(s, client, channel))
  {
    hide AnsweredByAdapter, AtMostOneAdapter;
    var t := Asked(s, client, channel);
    assert s.log[|s.log|..] == [];
    forall i | 0 <= i < |t.stack| && t.stack[i].Request?
      ensures Tells(t.log, t.stack[i], Above(t.stack, i))
    {
      if i < |s.stack| {
        assert Tells(s.log, s.stack[i], Above(s.stack, i));
      }
    }
  }

  lemma TellsBelow(log: seq<Delivery>, f: Frame, above: Frame)
    requires f.Request? && !above.Report?
    ensures Tells(log, f, above) == Tells(log, f, Callback)
  {
    hide AtMostOneAdapter, ServedInTurn, LastFor, Reported;
  }

  // The frames below the top and their neighbours stay, up to the top itself.
  lemma TopKeepsTold(s: System, frames: seq<Frame>)
    requires ToldRight(s) && s.stack != [] && frames != []
    requires frames[0].Request? <==> Top(s).Request?
    requires frames[0].Report? ==> Top(s).Report?
    requires |s.stack| > 1 && s.stack[|s.stack| - 2].Request? ==> Tells(s.log, s.stack[|s.stack| - 2], frames[0])
    requires frames[0].Request? ==> Tells(s.log, frames[0], if |frames| > 1 then frames[1] else Callback)
    requires |frames| <= 2 && (|frames| == 2 ==> frames[1].Callback? || (frames[1].Report? && frames[0].Request?))
    ensures ToldRight(WithTop(s, frames))
  {
    hide Tells, AnsweredByAdapter;
    var t, n := WithTop(s, frames), |s.stack| - 1;
    forall i | 0 <= i < |t.stack| && t.stack[i].Request?
      ensures Tells(t.log, t.stack[i], Above(t.stack, i))
    {
      if i < n {
        assert t.stack[i] == s.stack[i];
        assert i + 1 < n ==> t.stack[i + 1] == s.stack[i + 1];
      }
    }
    forall i | 0 <= i < |t.stack| && t.stack[i].Report?
      ensures i > 0 && t.stack[i - 1].Request?
    {
      if i <= n {
        assert s.stack[i].Report?;
      }
    }
  }

  lemma ServedOn(channel: seq<Entry>, turn: nat, served: seq<Handler>, more: seq<Handler>)
    requires turn < |channel| && ServedInTurn(channel, turn, served)
    requires more == [] || more == [channel[turn].handler]
    ensures ServedInTurn(channel, turn + 1, served + more)
  {
  }

  // Before the turn of its handler an adapter has not been served.
  lemma NotYetServed(channel: seq<Entry>, turn: nat, served: seq<Handler>)
    requires turn < |channel| && AtMostOneAdapter(channel) && ServedInTurn(channel, turn, served)
    ensures channel[turn].handler.AdapterHandler? ==> AdapterHandler !in served
  {
  }

  lemma RequestTurnKeepsTold(s: System, work: Work, results: seq<Entry>)
    requires ToldRight(s) && s.stack != [] && Top(s).Request? && Top(s).turn < |Top(s).channel|
    ensures ToldRight(TurnTaken(s, work, results))
  {
    hide AnsweredByAdapter, LastFor, Reported, AtMostOneAdapter, ServedInTurn;
    var f, n, e := Top(s), |s.stack| - 1, Top(s).channel[Top(s).turn];
    assert Tells(s.log, f, Above(s.stack, n));
    ServedOn(f.channel, f.turn, f.served, []);
    ServedOn(f.channel, f.turn, f.served, [e.handler]);
    NotYetServed(f.channel, f.turn, f.served);
    if n > 0 && s.stack[n - 1].Request? {
      assert Tells(s.log, s.stack[n - 1], Above(s.stack, n - 1));
    }
    assert f.served + [] == f.served;
    var next := Turned(f, [e.handler]);
    if e.id !in s.bus.active {
      TopKeepsTold(s, [Turned(f, [])]);
    } else {
      match e.handler
      case OtherHandler => TopKeepsTold(s, [next, Callback]);
      case ClientHandler(_) => TopKeepsTold(s, [next]);
      case AdapterHandler => TopKeepsTold(s, [next, Report(f.id, work, results, 0, [])]);
    }
  }

  lemma RequestInFlight(s: System, i: nat)
    requires Exact(s) && i < |s.stack| && s.stack[i].Request?
    ensures s.stack[i].client < |s.clients|
  {
    assert InFlight(s, s.stack[i]);
  }

  lemma ReportTurnKeepsTold(s: System, work: Work, results: seq<Entry>)
    requires Exact(s) && ToldRight(s) && s.stack != [] && Top(s).Report? && Top(s).turn < |Top(s).channel|
    ensures ToldRight(TurnTaken(s, work, results))
  {
    hide AnsweredByAdapter, LastFor, Reported, Exact, AtMostOneAdapter, ServedInTurn;
    var r, n, e := Top(s), |s.stack| - 1, Top(s).channel[Top(s).turn];
    var f := s.stack[n - 1];
    assert Tells(s.log, f, Above(s.stack, n - 1));
    RequestInFlight(s, n - 1);
    assert r.served + [] == r.served;
    var next := Turned(r, [e.handler]);
    if e.id !in s.bus.active {
      TopKeepsTold(s, [Turned(r, [])]);
    } else {
      match e.handler
      case OtherHandler => TopKeepsTold(s, [next, Callback]);
      case AdapterHandler => TopKeepsTold(s, [next]);
      case ClientHandler(client) =>
        if client < |s.clients| {
          ReportDelivers(s, client);
        } else {
          TopKeepsTold(s, [next]);
        }
    }
  }

  lemma OthersTell(log: seq<Delivery>, f: Frame, above: Frame, d: Delivery)
    requires f.Request? && Tells(log, f, above) && d.id != f.id
    ensures Tells(log + [d], f, above)
  {
    LastForAppended(log, f.begin, d, f.client, f.id);
    hide LastFor, Reported, AtMostOneAdapter, ServedInTurn;
  }

  lemma OwnTells(log: seq<Delivery>, f: Frame, r: Frame, d: Delivery)
    requires f.Request? && r.Report? && Tells(log, f, r) && d.id == r.id && d.outcome == Reported(r.work)
    requires r.turn < |r.channel|
    ensures Tells(log + [d], f, Turned(r, [ClientHandler(d.client)]))
  {
    hide LastFor, Reported, AtMostOneAdapter, ServedInTurn;
    LastForAppended(log, f.begin, d, f.client, f.id);
  }

  lemma ReportsItsRequest(log: seq<Delivery>, f: Frame, r: Frame)
    requires f.Request? && r.Report? && Tells(log, f, r)
    ensures f.id == r.id
  {
  }

  lemma ReportDelivers(s: System, client: nat)
    requires Exact(s) && ToldRight(s) && s.stack != [] && Top(s).Report? && Top(s).turn < |Top(s).channel|
    requires client < |s.clients| && Top(s).channel[Top(s).turn].handler == ClientHandler(client)
    ensures ToldRight(Delivered(WithTop(s, [Turned(Top(s), [ClientHandler(client)])]),
                                Delivery(client, Top(s).id, Reported(Top(s).work))))
  {
    hide AnsweredByAdapter, Tells, Received, InFlight, AnsweredFromLog, IsOpen, Reported;
    var r, n := Top(s), |s.stack| - 1;
    var d := Delivery(client, r.id, Reported(r.work));
    var t := Delivered(WithTop(s, [Turned(r, [ClientHandler(client)])]), d);
    assert Tells(s.log, s.stack[n - 1], Above(s.stack, n - 1));
    ReportsItsRequest(s.log, s.stack[n - 1], r);
    forall i | 0 <= i < |t.stack| && t.stack[i].Request?
      ensures Tells(t.log, t.stack[i], Above(t.stack, i))
    {
      var f := s.stack[i];
      assert t.stack[i] == f && Tells(s.log, f, Above(s.stack, i));
      if i == n - 1 {
        OwnTells(s.log, f, r, d);
      } else {
        OthersTell(s.log, f, Above(s.stack, i), d);
        assert t.stack[i + 1] == s.stack[i + 1];
      }
    }
  }

  lemma ReportEnds(log: seq<Delivery>, f: Frame, r: Frame)
    requires f.Request? && r.Report? && Tells(log, f, r)
    ensures Tells(log, f.(told := Some(Told(r.work, r.served))), Callback)
  {
    hide LastFor, Reported, AtMostOneAdapter, ServedInTurn;
  }

  lemma ReportReturnKeepsTold(s: System)
    requires ToldRight(s) && s.stack != [] && Top(s).Report?
    ensures ToldRight(Reporting(s))
  {
    hide Tells, AnsweredByAdapter;
    var r, n, t := Top(s), |s.stack| - 1, Reporting(s);
    var f := s.stack[n - 1];
    assert Tells(s.log, f, Above(s.stack, n - 1));
    ReportEnds(s.log, f, r);
    forall i | 0 <= i < |t.stack| && t.stack[i].Request?
      ensures Tells(t.log, t.stack[i], Above(t.stack, i))
    {
      if i < n - 1 {
        assert t.stack[i] == s.stack[i] && Tells(s.log, s.stack[i], Above(s.stack, i));
        if i == n - 2 {
          TellsBelow(s.log, s.stack[i], f);
          TellsBelow(s.log, s.stack[i], t.stack[i + 1]);
        } else {
          assert t.stack[i + 1] == s.stack[i + 1];
        }
      }
    }
  }

  lemma PopKeepsTold(s: System, t: System)
    requires ToldRight(s) && s.stack != [] && !Top(s).Report?
    requires t.stack == s.stack[..|s.stack| - 1] && t.log == s.log
    requires t.finished == s.finished
          || (|t.finished| == |s.finished| + 1 && t.finished[..|s.finished|] == s.finished
              && AnsweredByAdapter(t.finished[|s.finished|]))
    ensures ToldRight(t)
  {
    hide Tells, AnsweredByAdapter;
    forall i | 0 <= i < |t.stack| && t.stack[i].Request?
      ensures Tells(t.log, t.stack[i], Above(t.stack, i))
    {
      assert Tells(s.log, s.stack[i], Above(s.stack, i));
      TellsBelow(s.log, s.stack[i], Top(s));
    }
  }

  lemma EndFinishes(s: System)
    requires s.stack != [] && Top(s).Request? && Top(s).client < |s.clients|
    ensures var f, t := Top(s), Ended(s);
            && t.stack == s.stack[..|s.stack| - 1] && t.log == s.log
            && t.finished == s.finished + [Finished(f, |s.log|, Taken(s.clients[f.client], f.id).1)]
  {
    hide Taken;
  }

  lemma TopIsAnswered(log: seq<Delivery>, f: Frame)
    requires f.Request? && Tells(log, f, Callback)
    ensures AnsweredByAdapter(Finished(f, |log|, ReplyFor(LastFor(log[f.begin..], f.client, f.id))))
  {
    hide LastFor, AtMostOneAdapter, ServedInTurn;
  }

  lemma EndKeepsTold(s: System)
    requires Exact(s) && ToldRight(s) && s.stack != [] && Top(s).Request?
    ensures Top(s).client < |s.clients| && ToldRight(Ended(s))
  {
    hide LastFor, Exact, Ended, AnsweredByAdapter, Taken, Tells;
    EndAnswers(s);
    EndFinishes(s);
    var top, n := Top(s), |s.stack| - 1;
    assert Tells(s.log, top, Above(s.stack, n));
    TopIsAnswered(s.log, top);
    PopKeepsTold(s, Ended(s));
  }

  lemma BusKeepsTold(s: System, bus: MB.Bus)
    requires ToldRight(s)
    ensures ToldRight(s.(bus := bus))
  {
    hide Tells, AnsweredByAdapter;
  }

  lemma StepKeepsTold(s: System, step: Step)
    requires Exact(s) && ToldRight(s) && OneAdapter(s) && Enabled(s, step) && !step.Stray?
    ensures ToldRight(Next(s, step))
  {
    hide Exact, ToldRight, TurnTaken, OneAdapter, AtMostOneAdapter, MB.Next, Reporting, Ended;
    match step
    case Ask(client, command) =>
      CopyHasOne(s, command);
      AskKeepsTold(s, client, Copy(s, command));
    case Subscribe(messageType) => BusKeepsTold(s, MB.Next(s.bus, MB.Subscribe(messageType)));
    case Unsubscribe(id, messageType) => BusKeepsTold(s, MB.Next(s.bus, MB.Unsubscribe(id, messageType)));
    case Return =>
      if Top(s).Callback? {
        PopKeepsTold(s, WithTop(s, []));
      } else if Top(s).Report? {
        ReportReturnKeepsTold(s);
      } else {
        EndKeepsTold(s);
      }
    case TakeTurn(work, result) =>
      if Top(s).Request? {
        RequestTurnKeepsTold(s, work, Copy(s, result));
      } else {
        ReportTurnKeepsTold(s, work, Copy(s, result));
      }
  }

  /** With at most one adapter on the bus, in every run, however requests are nested, however
      many clients share the bus and whoever else subscribes and unsubscribes: every
      request gets what the adapter told for that very request, if the adapter's handler
      and then the client's were served, and else nothing. */
  lemma {:induction false} AdapterDecides(s: System, steps: seq<Step>)
    requires Exact(s) && ToldRight(s) && OneAdapter(s) && AllEnabled(s, steps)
    requires forall i :: 0 <= i < |steps| ==> !steps[i].Stray?
    ensures var t := NextAll(s, steps);
            Exact(t) && ToldRight(t) && forall i :: 0 <= i < |t.finished| ==> AnsweredByAdapter(t.finished[i])
    decreases |steps|
  {
    hide Exact, Next, Enabled, OneAdapter, Tells;
    if steps != [] {
      StepKeepsExact(s, steps[0]);
      StepKeepsTold(s, steps[0]);
      StepKeepsOne(s, steps[0]);
      hide ToldRight;
      AdapterDecides(Next(s, steps[0]), steps[1..]);
    }
  }

  /** Nothing in flight is ever stuck: the innermost publish can take its next turn, or it
      or the innermost callback can return. */
  lemma NeverStuck(s: System, work: Work, result: MB.MessageType)
    requires Exact(s) && ToldRight(s) && s.stack != []
    ensures Enabled(s, Return) || Enabled(s, TakeTurn(work, result))
  {
    hide Exact, AtMostOneAdapter, ServedInTurn, LastFor, Reported, AnsweredByAdapter;
    var n := |s.stack| - 1;
    if Top(s).Request? {
      assert Tells(s.log, Top(s), Above(s.stack, n));
    } else if Top(s).Report? {
      assert Tells(s.log, s.stack[n - 1], Above(s.stack, n - 1));
    }
  }

  // Commands that reach the adapter, and results that reach every client

  predicate HasHandler(ids: seq<nat>, who: nat -> Handler, h: Handler) {
    exists i :: 0 <= i < |ids| && who(ids[i]) == h
  }

  predicate HasEntry(channel: seq<Entry>, h: Handler) {
    exists i :: 0 <= i < |channel| && channel[i].handler == h
  }

  ghost predicate BusWired(s: System, commands: set<MB.MessageType>, results: set<MB.MessageType>) {
    && (forall t :: t in commands ==> HasHandler(MB.Channel(s.bus, t), s.who, AdapterHandler))
    && (forall t, c: nat :: t in results && c < |s.clients| ==>
          HasHandler(MB.Channel(s.bus, t), s.who, ClientHandler(c)))
  }

  // Adapter and clients stay subscribed, and these are the commands and results in use.
  predicate Loyal(step: Step, who: nat -> Handler, commands: set<MB.MessageType>, results: set<MB.MessageType>) {
    match step
    case Unsubscribe(id, _) => who(id).OtherHandler?
    case Ask(_, command) => command in commands
    case TakeTurn(_, result) => result in results
    case Stray(_) => false
    case _ => true
  }

  // The entries of adapter and clients in a publish are active, and served once it is their turn.
  predicate FrameLoyal(active: set<nat>, who: nat -> Handler, f: Frame) {
    !f.Callback? ==>
      && (forall i :: 0 <= i < |f.channel| ==>
            && f.channel[i].handler == who(f.channel[i].id)
            && (!f.channel[i].handler.OtherHandler? ==> f.channel[i].id in active))
      && f.turn <= |f.channel|
      && (forall i :: 0 <= i < f.turn && !f.channel[i].handler.OtherHandler? ==> f.channel[i].handler in f.served)
  }

  predicate AllServed(clients: nat, served: seq<Handler>) {
    forall c: nat :: c < clients ==> ClientHandler(c) in served
  }

  predicate FrameWired(f: Frame, clients: nat) {
    match f
    case Request(client, _, _, channel, _, _, told) =>
      client < clients && HasEntry(channel, AdapterHandler) && (told.Some? ==> AllServed(clients, told.value.served))
    case Report(_, _, channel, _, _) => forall c: nat :: c < clients ==> HasEntry(channel, ClientHandler(c))
    case Callback => true
  }

  predicate FinishedWired(f: Finished, clients: nat) {
    && f.request.Request? && f.request.client < clients && AdapterHandler in f.request.served
    && (f.request.told.Some? ==> AllServed(clients, f.request.told.value.served))
  }

  ghost predicate Wired(s: System, commands: set<MB.MessageType>, results: set<MB.MessageType>) {
    && MB.Sound(s.bus) && BusWired(s, commands, results)
    && (forall i :: 0 <= i < |s.stack| ==>
          FrameLoyal(s.bus.active, s.who, s.stack[i]) && FrameWired(s.stack[i], |s.clients|))
    && (forall i :: 0 <= i < |s.finished| ==> FinishedWired(s.finished[i], |s.clients|))
  }

  lemma CopyIsLoyal(s: System, t: MB.MessageType)
    requires MB.Sound(s.bus)
    ensures forall i :: 0 <= i < |Copy(s, t)| ==>
              Copy(s, t)[i].handler == s.who(Copy(s, t)[i].id) && Copy(s, t)[i].id in s.bus.active
    ensures forall h :: HasHandler(MB.Channel(s.bus, t), s.who, h) ==> HasEntry(Copy(s, t), h)
  {
    MB.EntriesAreActive(s.bus, t);
    hide MB.Sound, MB.Registered, MB.Channel;
    forall h | HasHandler(MB.Channel(s.bus, t), s.who, h)
      ensures HasEntry(Copy(s, t), h)
    {
      var i :| 0 <= i < |MB.Channel(s.bus, t)| && s.who(MB.Channel(s.bus, t)[i]) == h;
      assert Copy(s, t)[i].handler == h;
    }
  }

  lemma AskKeepsWired(s: System, client: nat, t: MB.MessageType, commands: set<MB.MessageType>,
                      results: set<MB.MessageType>)
    requires Wired(s, commands, results) && client < |s.clients| && t in commands
    ensures Wired(Asked(s, client, Copy(s, t)), commands, results)
  {
    hide MB.Sound, HasHandler, HasEntry, AllServed, Registered, FinishedWired;
    CopyIsLoyal(s, t);
    assert HasEntry(Copy(s, t), AdapterHandler);
    hide Copy;
  }

  lemma TurnIsLoyal(active: set<nat>, who: nat -> Handler, f: Frame)
    requires FrameLoyal(active, who, f) && !f.Callback? && f.turn < |f.channel|
    ensures FrameLoyal(active, who,
                       Turned(f, if f.channel[f.turn].id in active then [f.channel[f.turn].handler] else []))
  {
  }

  lemma TurnKeepsWired(s: System, work: Work, t: MB.MessageType, commands: set<MB.MessageType>,
                       results: set<MB.MessageType>)
    requires Wired(s, commands, results) && t in results
    requires s.stack != [] && !Top(s).Callback? && Top(s).turn < |Top(s).channel|
    ensures Wired(TurnTaken(s, work, Copy(s, t)), commands, results)
  {
    hide MB.Sound, HasHandler, HasEntry, AllServed, FinishedWired, FrameLoyal, Reported, Received;
    CopyIsLoyal(s, t);
    var top := Top(s);
    assert FrameLoyal(s.bus.active, s.who, top) && FrameWired(top, |s.clients|);
    TurnIsLoyal(s.bus.active, s.who, top);
    NewReport(s, top.id, work, t, results);
    hide Copy;
    assert FrameWired(Turned(top, [top.channel[top.turn].handler]), |s.clients|);
    assert FrameWired(Turned(top, []), |s.clients|);
    assert FrameLoyal(s.bus.active, s.who, Callback) by { NothingIsLoyal(s.bus.active, s.who); }
  }

  lemma NothingIsLoyal(active: set<nat>, who: nat -> Handler)
    ensures FrameLoyal(active, who, Callback)
  {
  }

  lemma NewReport(s: System, id: nat, work: Work, t: MB.MessageType, results: set<MB.MessageType>)
    requires MB.Sound(s.bus) && t in results
    requires forall c: nat :: c < |s.clients| ==> HasHandler(MB.Channel(s.bus, t), s.who, ClientHandler(c))
    ensures var r := Report(id, work, Copy(s, t), 0, []);
            FrameLoyal(s.bus.active, s.who, r) && FrameWired(r, |s.clients|)
  {
    hide MB.Sound, HasHandler, HasEntry;
    CopyIsLoyal(s, t);
    hide Copy;
  }

  // A publish that is over has served every adapter's and client's entry.
  lemma OverIsServed(active: set<nat>, who: nat -> Handler, f: Frame, h: Handler)
    requires FrameLoyal(active, who, f) && !f.Callback? && f.turn == |f.channel|
    requires !h.OtherHandler? && HasEntry(f.channel, h)
    ensures h in f.served
  {
  }

  lemma ReportingKeepsWired(s: System, commands: set<MB.MessageType>, results: set<MB.MessageType>)
    requires Wired(s, commands, results) && ToldRight(s)
    requires s.stack != [] && Top(s).Report? && Top(s).turn == |Top(s).channel|
    ensures Wired(Reporting(s), commands, results)
  {
    hide MB.Sound, HasHandler, HasEntry, FinishedWired, FrameLoyal, Tells, AnsweredByAdapter, BusWired;
    var r, n, t := Top(s), |s.stack| - 1, Reporting(s);
    assert FrameLoyal(s.bus.active, s.who, r) && FrameWired(r, |s.clients|);
    forall c: nat | c < |s.clients|
      ensures ClientHandler(c) in r.served
    {
      OverIsServed(s.bus.active, s.who, r, ClientHandler(c));
    }
    var f := s.stack[n - 1];
    assert FrameLoyal(s.bus.active, s.who, f) && FrameWired(f, |s.clients|);
    var g := f.(told := Some(Told(r.work, r.served)));
    ToldIsLoyal(s.bus.active, s.who, f, g.told);
    NothingIsLoyal(s.bus.active, s.who);
    assert BusWired(t, commands, results) by { SameBus(s, t, commands, results); }
    forall i | 0 <= i < |t.stack|
      ensures FrameLoyal(t.bus.active, t.who, t.stack[i]) && FrameWired(t.stack[i], |t.clients|)
    {
      if i < n - 1 {
        assert t.stack[i] == s.stack[i];
      }
    }
  }

  lemma ToldIsLoyal(active: set<nat>, who: nat -> Handler, f: Frame, told: Option<Told>)
    requires FrameLoyal(active, who, f) && f.Request?
    ensures FrameLoyal(active, who, f.(told := told))
  {
  }

  lemma SameBus(s: System, t: System, commands: set<MB.MessageType>, results: set<MB.MessageType>)
    requires BusWired(s, commands, results) && t.bus == s.bus && t.who == s.who && |t.clients| == |s.clients|
    ensures BusWired(t, commands, results)
  {
    hide HasHandler;
  }

  lemma EndKeepsWired(s: System, commands: set<MB.MessageType>, results: set<MB.MessageType>)
    requires Wired(s, commands, results)
    requires s.stack != [] && Top(s).Request? && Top(s).turn == |Top(s).channel| && Top(s).client < |s.clients|
    ensures Wired(Ended(s), commands, results)
  {
    hide MB.Sound, HasHandler, HasEntry, FrameLoyal, AllServed, BusWired, Taken;
    var f, t := Top(s), Ended(s);
    assert FrameLoyal(s.bus.active, s.who, f) && FrameWired(f, |s.clients|);
    OverIsServed(s.bus.active, s.who, f, AdapterHandler);
    SameBus(s, t, commands, results);
  }

  lemma PopKeepsWired(s: System, commands: set<MB.MessageType>, results: set<MB.MessageType>)
    requires Wired(s, commands, results) && s.stack != []
    ensures Wired(WithTop(s, []), commands, results)
  {
    hide MB.Sound, HasHandler, HasEntry, FrameLoyal, FrameWired, FinishedWired;
  }

  // A subscription of anybody else, and the end of one.
  lemma BusKeepsWired(s: System, step: Step, commands: set<MB.MessageType>, results: set<MB.MessageType>)
    requires Wired(s, commands, results) && Enabled(s, step) && Loyal(step, s.who, commands, results)
    requires step.Subscribe? || step.Unsubscribe?
    ensures Wired(Next(s, step), commands, results)
  {
    hide MB.Sound, MB.Without, FrameWired, FinishedWired, HasHandler, MB.Channel;
    var t := Next(s, step);
    MB.StepKeepsSound(s.bus, if step.Subscribe? then MB.Subscribe(step.messageType)
                             else MB.Unsubscribe(step.id, step.messageType));
    forall m | m in commands
      ensures HasHandler(MB.Channel(t.bus, m), t.who, AdapterHandler)
    {
      StillHas(s, step, m, AdapterHandler);
    }
    forall m, c: nat | m in results && c < |s.clients|
      ensures HasHandler(MB.Channel(t.bus, m), t.who, ClientHandler(c))
    {
      StillHas(s, step, m, ClientHandler(c));
    }
    forall i | 0 <= i < |t.stack|
      ensures FrameLoyal(t.bus.active, t.who, t.stack[i])
    {
      assert FrameLoyal(s.bus.active, s.who, s.stack[i]);
    }
  }

  lemma StillHas(s: System, step: Step, m: MB.MessageType, h: Handler)
    requires Enabled(s, step) && (step.Subscribe? || (step.Unsubscribe? && s.who(step.id).OtherHandler?))
    requires HasHandler(MB.Channel(s.bus, m), s.who, h) && !h.OtherHandler?
    ensures HasHandler(MB.Channel(Next(s, step).bus, m), s.who, h)
  {
    hide HasHandler, MB.Channel, MB.Without;
    if step.Subscribe? {
      SubscribedHas(s, step.messageType, m, h);
    } else {
      UnsubscribedHas(s, step.id, step.messageType, m, h);
    }
  }

  lemma SubscribedHas(s: System, messageType: MB.MessageType, m: MB.MessageType, h: Handler)
    requires HasHandler(MB.Channel(s.bus, m), s.who, h)
    ensures HasHandler(MB.Channel(MB.WithSubscription(s.bus, messageType), m), s.who, h)
  {
    var ids, more := MB.Channel(s.bus, m), MB.Channel(MB.WithSubscription(s.bus, messageType), m);
    var i :| 0 <= i < |ids| && s.who(ids[i]) == h;
    assert more[i] == ids[i];
  }

  lemma UnsubscribedHas(s: System, id: nat, messageType: MB.MessageType, m: MB.MessageType, h: Handler)
    requires HasHandler(MB.Channel(s.bus, m), s.who, h) && !h.OtherHandler? && s.who(id).OtherHandler?
    ensures HasHandler(MB.Channel(MB.WithoutSubscription(s.bus, id, messageType), m), s.who, h)
  {
    hide MB.Channel, MB.WithoutSubscription;
    ChannelWithout(s.bus, id, messageType, m);
    var ids, rest := MB.Channel(s.bus, m), MB.Channel(MB.WithoutSubscription(s.bus, id, messageType), m);
    var i :| 0 <= i < |ids| && s.who(ids[i]) == h;
    assert ids[i] in rest;
    var j :| 0 <= j < |rest| && rest[j] == ids[i];
  }

  lemma StepKeepsWired(s: System, step: Step, commands: set<MB.MessageType>, results: set<MB.MessageType>)
    requires Exact(s) && ToldRight(s) && Wired(s, commands, results)
    requires Enabled(s, step) && Loyal(step, s.who, commands, results)
    ensures Wired(Next(s, step), commands, results)
  {
    hide Exact, ToldRight, Wired, TurnTaken, MB.Next, Reporting, Ended, Copy;
    match step
    case Ask(client, command) => AskKeepsWired(s, client, command, commands, results);
    case TakeTurn(work, result) => TurnKeepsWired(s, work, result, commands, results);
    case Subscribe(_) => BusKeepsWired(s, step, commands, results);
    case Unsubscribe(_, _) => BusKeepsWired(s, step, commands, results);
    case Return =>
      if Top(s).Callback? {
        PopKeepsWired(s, commands, results);
      } else if Top(s).Report? {
        ReportingKeepsWired(s, commands, results);
      } else if Top(s).client < |s.clients| {
        EndKeepsWired(s, commands, results);
      }
  }

  // The request returned what became of the work that the adapter did for it.
  predicate Answered(f: Finished) {
    && f.request.Request? && f.request.told.Some?
    && f.reply.Returned? && Conveys(f.reply.outcome, f.request.told.value.work)
  }

  lemma WiredIsAnswered(f: Finished, clients: nat)
    requires AnsweredByAdapter(f) && FinishedWired(f, clients)
    ensures Answered(f)
  {
    hide Reported;
  }

  /** With one adapter on the bus, subscribed to every command, and all clients to every
      result: in every run, every request of every client, at every depth, returns the
      outcome that the adapter reported for it, whoever else subscribes, unsubscribes and
      makes requests in between. */
  lemma {:induction false} OneAdapterAnswers(
      s: System, steps: seq<Step>, commands: set<MB.MessageType>, results: set<MB.MessageType>)
    requires Exact(s) && ToldRight(s) && OneAdapter(s) && Wired(s, commands, results) && AllEnabled(s, steps)
    requires forall i :: 0 <= i < |steps| ==> Loyal(steps[i], s.who, commands, results)
    ensures var t := NextAll(s, steps); forall i :: 0 <= i < |t.finished| ==> Answered(t.finished[i])
    decreases |steps|
  {
    hide Exact, Next, Enabled, OneAdapter, ToldRight, Wired, Answered;
    if steps == [] {
      WiredAreAnswered(s, commands, results);
    } else {
      assert !steps[0].Stray?;
      StepKeepsExact(s, steps[0]);
      StepKeepsTold(s, steps[0]);
      StepKeepsOne(s, steps[0]);
      StepKeepsWired(s, steps[0], commands, results);
      OtherStepsKeepBus(s, steps[0]);
      OneAdapterAnswers(Next(s, steps[0]), steps[1..], commands, results);
      assert NextAll(s, steps) == NextAll(Next(s, steps[0]), steps[1..]);
    }
  }

  lemma WiredAreAnswered(s: System, commands: set<MB.MessageType>, results: set<MB.MessageType>)
    requires ToldRight(s) && Wired(s, commands, results)
    ensures forall i :: 0 <= i < |s.finished| ==> Answered(s.finished[i])
  {
    hide Answered, AnsweredByAdapter, FinishedWired, Tells, FrameLoyal, FrameWired, MB.Sound, BusWired;
    forall i | 0 <= i < |s.finished|
      ensures Answered(s.finished[i])
    {
      WiredIsAnswered(s.finished[i], |s.clients|);
    }
  }

  function FirstTwo(k: nat): Handler {
    if k == 1 then AdapterHandler else if k == 2 then ClientHandler(0) else OtherHandler
  }

  /** There are such systems: one command, one result, one client. */
  lemma SmallSystem()
    ensures var bus := MB.WithSubscription(MB.WithSubscription(MB.EMPTY, 0), 1);
            var s := Fresh(FirstTwo, bus, 1);
            Exact(s) && ToldRight(s) && OneAdapter(s) && Wired(s, {0}, {1})
  {
    hide MB.Sound, HasHandler, AtMostOne, FirstTwo, MB.WithSubscription;
    MB.InitiallySound();
    SmallBus();
    MB.StepKeepsSound(MB.EMPTY, MB.Subscribe(0));
    MB.StepKeepsSound(MB.WithSubscription(MB.EMPTY, 0), MB.Subscribe(1));
    var bus := MB.WithSubscription(MB.WithSubscription(MB.EMPTY, 0), 1);
    FreshIsExact(FirstTwo, bus, 1);
  }

  lemma SmallBus()
    ensures var bus := MB.WithSubscription(MB.WithSubscription(MB.EMPTY, 0), 1);
            && HasHandler(MB.Channel(bus, 0), FirstTwo, AdapterHandler)
            && HasHandler(MB.Channel(bus, 1), FirstTwo, ClientHandler(0))
            && (forall t: MB.MessageType :: AtMostOne(MB.Channel(bus, t), FirstTwo))
            && forall k :: k >= bus.nextId ==> !FirstTwo(k).AdapterHandler?
  {
    var bus := MB.WithSubscription(MB.WithSubscription(MB.EMPTY, 0), 1);
    assert MB.Channel(bus, 0)[0] == 1 && MB.Channel(bus, 1)[0] == 2;
  }
}
