/** The message bus under re-entrancy.  Callbacks may subscribe, unsubscribe and publish
    again to any depth, so a run is a sequence of atomic steps over a stack of the
    publishes that are in flight; only the innermost one can go on. */
module MessageBus {

  type MessageType = nat

  // What changed the subscriptions so far, oldest first.
  datatype Change = Subscribed(id: nat, messageType: MessageType) | Unsubscribed(id: nat)

  /** The turn of one entry: when it came, and whether its callback was invoked. */
  datatype Turn = Turn(id: nat, at: nat, invoked: bool)

  /** A publish: its copy of the channel, when it was taken, and the turns so far.
      Times are numbers of changes. */
  datatype Publication = Publication(messageType: MessageType, begin: nat, copy: seq<nat>, turns: seq<Turn>)

  datatype Bus = Bus(
    channels: map<MessageType, seq<nat>>, active: set<nat>, nextId: nat,
    inFlight: seq<Publication>, done: seq<Publication>, log: seq<Change>)

  const EMPTY := Bus(map[], {}, 1, [], [], [])

  datatype Step = Subscribe(messageType: MessageType) | Unsubscribe(id: nat, messageType: MessageType)
                | BeginPublish(messageType: MessageType) | TakeTurn | EndPublish

  function Without(ids: seq<nat>, id: nat): (r: seq<nat>)
    ensures forall x :: x in r <==> x in ids && x != id
  {
    if ids == [] then []
    else Without(ids[..|ids| - 1], id) + (if ids[|ids| - 1] == id then [] else [ids[|ids| - 1]])
  }

  function Channel(b: Bus, messageType: MessageType): seq<nat> {
    if messageType in b.channels then b.channels[messageType] else []
  }

  function WithSubscription(b: Bus, messageType: MessageType): Bus {
    b.(channels := b.channels[messageType := Channel(b, messageType) + [b.nextId]], active := b.active + {b.nextId},
       nextId := b.nextId + 1, log := b.log + [Subscribed(b.nextId, messageType)])
  }

  function WithoutSubscription(b: Bus, id: nat, messageType: MessageType): Bus {
    var c := b.(active := b.active - {id}, log := b.log + [Unsubscribed(id)]);
    if messageType !in b.channels then c
    else if Without(b.channels[messageType], id) == [] then c.(channels := b.channels - {messageType})
    else c.(channels := b.channels[messageType := Without(b.channels[messageType], id)])
  }

  predicate Enabled(b: Bus, s: Step) {
    match s
    case Subscribe(_) => true
    case Unsubscribe(id, messageType) => Subscribed(id, messageType) in b.log
    case BeginPublish(_) => true
    case TakeTurn => b.inFlight != [] && |Innermost(b).turns| < |Innermost(b).copy|
    case EndPublish => b.inFlight != [] && |Innermost(b).turns| == |Innermost(b).copy|
  }

  function Innermost(b: Bus): Publication
    requires b.inFlight != []
  {
    b.inFlight[|b.inFlight| - 1]
  }

  function WithTurn(p: Publication, turn: Turn): Publication {
    p.(turns := p.turns + [turn])
  }

  function Next(b: Bus, s: Step): Bus
    requires Enabled(b, s)
  {
    match s
    case Subscribe(messageType) => WithSubscription(b, messageType)
    case Unsubscribe(id, messageType) => WithoutSubscription(b, id, messageType)
    case BeginPublish(messageType) =>
      var p := Publication(messageType, |b.log|, Channel(b, messageType), []);
      if messageType in b.channels then b.(inFlight := b.inFlight + [p]) else b.(done := b.done + [p])
    case TakeTurn =>
      var p := Innermost(b);
      var id := p.copy[|p.turns|];
      b.(inFlight := b.inFlight[..|b.inFlight| - 1] + [WithTurn(p, Turn(id, |b.log|, id in b.active))])
    case EndPublish => b.(inFlight := b.inFlight[..|b.inFlight| - 1], done := b.done + [Innermost(b)])
  }

  // The specification: what the changes mean

  // The entries of a type, in subscription order, after the changes.
  function Registered(log: seq<Change>, messageType: MessageType): seq<nat> {
    if log == [] then []
    else
      var before := Registered(log[..|log| - 1], messageType);
      match log[|log| - 1]
      case Subscribed(id, t) => if t == messageType then before + [id] else before
      case Unsubscribed(id) => Without(before, id)
  }

  predicate IsActive(log: seq<Change>, id: nat) {
    log != [] &&
    match log[|log| - 1]
    case Subscribed(i, _) => i == id || IsActive(log[..|log| - 1], id)
    case Unsubscribed(i) => i != id && IsActive(log[..|log| - 1], id)
  }

  // Ids are handed out once.
  predicate FreshIds(log: seq<Change>, nextId: nat) {
    && (forall i :: 0 <= i < |log| ==> log[i].id < nextId)
    && (forall i, j :: 0 <= i < j < |log| && log[i].Subscribed? && log[j].Subscribed? ==> log[i].id != log[j].id)
    && (forall i :: 0 <= i < |log| && log[i].Unsubscribed? ==>
          exists j :: 0 <= j < i && log[j].Subscribed? && log[j].id == log[i].id)
  }

  /** Each publish takes the turns of exactly the entries that were registered when it
      began, in subscription order and once each, and invokes exactly those that are
      still active at their turn. */
  predicate Exact(p: Publication, log: seq<Change>) {
    && p.begin <= |log|
    && p.copy == Registered(log[..p.begin], p.messageType)
    && |p.turns| <= |p.copy|
    && (forall i :: 0 <= i < |p.turns| ==>
          && p.begin <= p.turns[i].at <= |log|
          && p.turns[i].id == p.copy[i]
          && (p.turns[i].invoked <==> IsActive(log[..p.turns[i].at], p.turns[i].id)))
  }

  ghost predicate ChannelsMatch(b: Bus) {
    && (forall t :: t in b.channels ==> b.channels[t] != [])
    && (forall t: MessageType :: Channel(b, t) == Registered(b.log, t))
  }

  ghost predicate ActiveMatches(b: Bus) {
    forall id: nat :: id in b.active <==> IsActive(b.log, id)
  }

  ghost predicate Sound(b: Bus) {
    && ChannelsMatch(b) && ActiveMatches(b) && FreshIds(b.log, b.nextId)
    && (forall i :: 0 <= i < |b.inFlight| ==> Exact(b.inFlight[i], b.log))
    && (forall i :: 0 <= i < |b.done| ==> Exact(b.done[i], b.log) && |b.done[i].turns| == |b.done[i].copy|)
  }

  lemma InitiallySound()
    ensures Sound(EMPTY)
  {
  }

  // Facts about the specification

  lemma {:induction false} RegisteredWasSubscribed(log: seq<Change>, messageType: MessageType, id: nat)
    requires id in Registered(log, messageType)
    ensures Subscribed(id, messageType) in log
  {
    var last := |log| - 1;
    if id in Registered(log[..last], messageType) {
      RegisteredWasSubscribed(log[..last], messageType, id);
    } else {
      assert log[last] == Subscribed(id, messageType);
    }
  }

  lemma {:induction false} WithoutAbsent(ids: seq<nat>, id: nat)
    requires id !in ids
    ensures Without(ids, id) == ids
  {
    if ids != [] {
      WithoutAbsent(ids[..|ids| - 1], id);
      assert ids == ids[..|ids| - 1] + [ids[|ids| - 1]];
    }
  }

  predicate Distinct(ids: seq<nat>) {
    forall i, j :: 0 <= i < j < |ids| ==> ids[i] != ids[j]
  }

  lemma {:induction false} WithoutDistinct(ids: seq<nat>, id: nat)
    requires Distinct(ids)
    ensures Distinct(Without(ids, id))
  {
    if ids != [] {
      WithoutDistinct(ids[..|ids| - 1], id);
      var rest := Without(ids[..|ids| - 1], id);
      forall i | 0 <= i < |rest|
        ensures rest[i] != ids[|ids| - 1]
      {
        assert rest[i] in rest;
      }
    }
  }

  lemma FreshPrefix(log: seq<Change>, nextId: nat)
    requires log != [] && FreshIds(log, nextId)
    ensures FreshIds(log[..|log| - 1], nextId)
  {
    var before := log[..|log| - 1];
    forall i | 0 <= i < |before| && before[i].Unsubscribed?
      ensures exists j :: 0 <= j < i && before[j].Subscribed? && before[j].id == before[i].id
    {
      var j :| 0 <= j < i && log[j].Subscribed? && log[j].id == log[i].id;
      assert before[j] == log[j];
    }
  }

  /** No entry is registered twice, and an entry is registered exactly while it is
      active, under the type it was subscribed to. */
  lemma {:induction false} RegisteredMeans(log: seq<Change>, nextId: nat, messageType: MessageType, id: nat)
    requires FreshIds(log, nextId)
    ensures Distinct(Registered(log, messageType))
    ensures id in Registered(log, messageType) <==> Subscribed(id, messageType) in log && IsActive(log, id)
    decreases |log|
  {
    if log != [] {
      var last := |log| - 1;
      var before := Registered(log[..last], messageType);
      FreshPrefix(log, nextId);
      RegisteredMeans(log[..last], nextId, messageType, id);
      assert forall c :: c in log <==> c in log[..last] || c == log[last];
      match log[last]
      case Unsubscribed(x) =>
        WithoutDistinct(before, x);
      case Subscribed(x, t) =>
        if x in before {
          RegisteredWasSubscribed(log[..last], messageType, x);
        }
    }
  }

  // Every step keeps the bus sound

  lemma ExactStays(p: Publication, log: seq<Change>, c: Change)
    requires Exact(p, log)
    ensures Exact(p, log + [c])
  {
    var longer := log + [c];
    assert longer[..p.begin] == log[..p.begin];
    forall i | 0 <= i < |p.turns|
      ensures longer[..p.turns[i].at] == log[..p.turns[i].at]
    {
    }
  }

  lemma PublicationsStay(b: Bus, c: Bus, change: Change)
    requires Sound(b) && c.inFlight == b.inFlight && c.done == b.done && c.log == b.log + [change]
    ensures forall i :: 0 <= i < |c.inFlight| ==> Exact(c.inFlight[i], c.log)
    ensures forall i :: 0 <= i < |c.done| ==> Exact(c.done[i], c.log) && |c.done[i].turns| == |c.done[i].copy|
  {
    forall i | 0 <= i < |c.inFlight|
      ensures Exact(c.inFlight[i], c.log)
    {
      ExactStays(b.inFlight[i], b.log, change);
    }
    forall i | 0 <= i < |c.done|
      ensures Exact(c.done[i], c.log) && |c.done[i].turns| == |c.done[i].copy|
    {
      ExactStays(b.done[i], b.log, change);
    }
    hide Exact;
  }

  lemma SubscribeKeepsSound(b: Bus, messageType: MessageType)
    requires Sound(b)
    ensures Sound(WithSubscription(b, messageType))
  {
    hide Exact, Registered, FreshIds, IsActive;
    var c := WithSubscription(b, messageType);
    PublicationsStay(b, c, Subscribed(b.nextId, messageType));
    FreshSubscription(b.log, b.nextId, messageType);
    forall t: MessageType
      ensures Channel(c, t) == Registered(c.log, t)
    {
      SubscribedChannel(b.log, b.nextId, messageType, t);
    }
    forall x: nat
      ensures x in c.active <==> IsActive(c.log, x)
    {
      SubscribedActive(b.log, b.nextId, messageType, x);
    }
  }

  lemma SubscribedChannel(log: seq<Change>, id: nat, messageType: MessageType, t: MessageType)
    ensures Registered(log + [Subscribed(id, messageType)], t)
         == if t == messageType then Registered(log, t) + [id] else Registered(log, t)
  {
    var longer := log + [Subscribed(id, messageType)];
    assert longer[..|longer| - 1] == log;
  }

  lemma SubscribedActive(log: seq<Change>, id: nat, messageType: MessageType, x: nat)
    ensures IsActive(log + [Subscribed(id, messageType)], x) == (IsActive(log, x) || x == id)
  {
    var longer := log + [Subscribed(id, messageType)];
    assert longer[..|longer| - 1] == log;
  }

  lemma FreshSubscription(log: seq<Change>, nextId: nat, messageType: MessageType)
    requires FreshIds(log, nextId)
    ensures FreshIds(log + [Subscribed(nextId, messageType)], nextId + 1)
  {
    var longer := log + [Subscribed(nextId, messageType)];
    forall i | 0 <= i < |longer| && longer[i].Unsubscribed?
      ensures exists j :: 0 <= j < i && longer[j].Subscribed? && longer[j].id == longer[i].id
    {
      var j :| 0 <= j < i && log[j].Subscribed? && log[j].id == log[i].id;
      assert longer[j] == log[j];
    }
  }

  lemma FreshUnsubscription(log: seq<Change>, nextId: nat, id: nat, messageType: MessageType)
    requires FreshIds(log, nextId) && Subscribed(id, messageType) in log
    ensures FreshIds(log + [Unsubscribed(id)], nextId)
  {
    var longer := log + [Unsubscribed(id)];
    var k :| 0 <= k < |log| && log[k] == Subscribed(id, messageType);
    forall i | 0 <= i < |longer| && longer[i].Unsubscribed?
      ensures exists j :: 0 <= j < i && longer[j].Subscribed? && longer[j].id == longer[i].id
    {
      if i == |log| {
        assert longer[k] == log[k];
      } else {
        var j :| 0 <= j < i && log[j].Subscribed? && log[j].id == log[i].id;
        assert longer[j] == log[j];
      }
    }
  }

  lemma UnsubscribeKeepsSound(b: Bus, id: nat, messageType: MessageType)
    requires Sound(b) && Subscribed(id, messageType) in b.log
    ensures Sound(WithoutSubscription(b, id, messageType))
  {
    var c := WithoutSubscription(b, id, messageType);
    PublicationsStay(b, c, Unsubscribed(id));
    FreshUnsubscription(b.log, b.nextId, id, messageType);
    UnsubscribeChannels(b, id, messageType);
    UnsubscribeActive(b, id, messageType);
    hide Exact, FreshIds, ChannelsMatch, ActiveMatches, WithoutSubscription;
  }

  lemma UnsubscribeActive(b: Bus, id: nat, messageType: MessageType)
    requires ActiveMatches(b)
    ensures ActiveMatches(WithoutSubscription(b, id, messageType))
  {
    hide IsActive, Without;
    var c := WithoutSubscription(b, id, messageType);
    forall x: nat
      ensures x in c.active <==> IsActive(c.log, x)
    {
      UnsubscribedActive(b.log, id, x);
    }
  }

  lemma UnsubscribeChannels(b: Bus, id: nat, messageType: MessageType)
    requires Sound(b) && Subscribed(id, messageType) in b.log
    ensures ChannelsMatch(WithoutSubscription(b, id, messageType))
  {
    hide Registered, Without, FreshIds, ActiveMatches, WithoutSubscription, Exact, Channel;
    var c := WithoutSubscription(b, id, messageType);
    forall t: MessageType
      ensures Channel(c, t) == Registered(c.log, t) && (t in c.channels ==> c.channels[t] != [])
    {
      UnsubscribedChannel(b, id, messageType, t);
      ChannelAfter(b, id, messageType, t);
    }
  }

  lemma ChannelAfter(b: Bus, id: nat, messageType: MessageType, t: MessageType)
    requires ChannelsMatch(b)
    ensures var c := WithoutSubscription(b, id, messageType);
            && c.log == b.log + [Unsubscribed(id)]
            && Channel(c, t) == (if t == messageType then Without(Channel(b, t), id) else Channel(b, t))
            && (t in c.channels ==> c.channels[t] != [])
  {
    assert Without([], id) == [];
    hide Registered, Without;
  }

  lemma UnsubscribedActive(log: seq<Change>, id: nat, x: nat)
    ensures IsActive(log + [Unsubscribed(id)], x) == (IsActive(log, x) && x != id)
  {
    var longer := log + [Unsubscribed(id)];
    assert longer[..|longer| - 1] == log;
  }

  lemma UnsubscribedChannel(b: Bus, id: nat, messageType: MessageType, t: MessageType)
    requires Sound(b) && Subscribed(id, messageType) in b.log
    ensures Registered(b.log + [Unsubscribed(id)], t)
         == if t == messageType then Without(Channel(b, t), id) else Channel(b, t)
  {
    hide Exact, FreshIds, IsActive;
    var longer := b.log + [Unsubscribed(id)];
    assert longer[..|longer| - 1] == b.log;
    if t != messageType {
      if id in Registered(b.log, t) {
        RegisteredWasSubscribed(b.log, t, id);
        OneType(b.log, b.nextId, id, t, messageType);
      }
      WithoutAbsent(Registered(b.log, t), id);
    }
  }

  lemma OneType(log: seq<Change>, nextId: nat, id: nat, t: MessageType, u: MessageType)
    requires FreshIds(log, nextId) && Subscribed(id, t) in log && Subscribed(id, u) in log
    ensures t == u
  {
    var i :| 0 <= i < |log| && log[i] == Subscribed(id, t);
    var j :| 0 <= j < |log| && log[j] == Subscribed(id, u);
    assert log[i].id == log[j].id;
  }

  lemma PublishKeepsSound(b: Bus, s: Step)
    requires Sound(b) && Enabled(b, s) && (s.BeginPublish? || s.TakeTurn? || s.EndPublish?)
    ensures Sound(Next(b, s))
  {
    assert b.log[..|b.log|] == b.log;
    if s.TakeTurn? {
      var p := Innermost(b);
      assert Exact(p, b.log);
    }
    hide Registered, FreshIds, IsActive;
  }

  lemma StepKeepsSound(b: Bus, s: Step)
    requires Sound(b) && Enabled(b, s)
    ensures Sound(Next(b, s))
  {
    hide Sound, WithSubscription, WithoutSubscription;
    match s
    case Subscribe(messageType) => SubscribeKeepsSound(b, messageType);
    case Unsubscribe(id, messageType) => UnsubscribeKeepsSound(b, id, messageType);
    case _ => PublishKeepsSound(b, s);
  }

  predicate Possible(b: Bus, steps: seq<Step>)
    decreases |steps|
  {
    steps == [] || (Enabled(b, steps[0]) && Possible(Next(b, steps[0]), steps[1..]))
  }

  function After(b: Bus, steps: seq<Step>): Bus
    requires Possible(b, steps)
    decreases |steps|
  {
    if steps == [] then b else After(Next(b, steps[0]), steps[1..])
  }

  lemma {:induction false} RunsAreSound(b: Bus, steps: seq<Step>)
    requires Sound(b) && Possible(b, steps)
    ensures Sound(After(b, steps))
    decreases |steps|
  {
    hide Sound, Enabled, Next;
    if steps != [] {
      StepKeepsSound(b, steps[0]);
      RunsAreSound(Next(b, steps[0]), steps[1..]);
    }
  }

  /** With callbacks that subscribe, unsubscribe and publish again to any depth: every
      publish, in flight or done, is exact; a done one took all its turns; no entry
      takes two turns; and no channel is left empty. */
  lemma PublishingIsExact(steps: seq<Step>)
    requires Possible(EMPTY, steps)
    ensures var b := After(EMPTY, steps);
            && (forall i :: 0 <= i < |b.inFlight| ==> Exact(b.inFlight[i], b.log) && Distinct(b.inFlight[i].copy))
            && (forall i :: 0 <= i < |b.done| ==>
                  Exact(b.done[i], b.log) && Distinct(b.done[i].copy) && |b.done[i].turns| == |b.done[i].copy|)
            && (forall t :: t in b.channels ==> b.channels[t] != [])
            && FreshIds(b.log, b.nextId)
  {
    InitiallySound();
    RunsAreSound(EMPTY, steps);
    var b := After(EMPTY, steps);
    forall p | p in b.inFlight + b.done
      ensures Exact(p, b.log) && Distinct(p.copy)
    {
      FreshTake(b.log, b.nextId, p.begin);
      RegisteredMeans(b.log[..p.begin], b.nextId, p.messageType, 0);
    }
    hide Exact, Distinct, FreshIds;
    assert forall i :: 0 <= i < |b.inFlight| ==> b.inFlight[i] in b.inFlight + b.done;
    assert forall i :: 0 <= i < |b.done| ==> b.done[i] in b.inFlight + b.done;
  }

  lemma {:induction false} FreshTake(log: seq<Change>, nextId: nat, n: nat)
    requires FreshIds(log, nextId) && n <= |log|
    ensures FreshIds(log[..n], nextId)
    decreases |log|
  {
    hide FreshIds;
    if n == |log| {
      assert log[..n] == log;
    } else {
      FreshPrefix(log, nextId);
      FreshTake(log[..|log| - 1], nextId, n);
      assert log[..|log| - 1][..n] == log[..n];
    }
  }

  /** Once unsubscribed, an entry is never invoked again, by no publish. */
  lemma {:induction false} NeverInvokedAgain(log: seq<Change>, nextId: nat, id: nat, k: nat, n: nat)
    requires FreshIds(log, nextId) && k < n <= |log| && log[k] == Unsubscribed(id)
    ensures !IsActive(log[..n], id)
    decreases n
  {
    var before := log[..n];
    assert before[..n - 1] == log[..n - 1];
    if n - 1 > k {
      NeverInvokedAgain(log, nextId, id, k, n - 1);
    }
  }

  /** The source's class; `inFlight` is what its call stack holds. */
  class Dispatcher {
    var channels: map<MessageType, seq<nat>>
    var active: set<nat>
    var nextId: nat
    var inFlight: seq<Publication>
    ghost var done: seq<Publication>
    ghost var log: seq<Change>
    var changes: nat

    ghost function View(): Bus
      reads this
    {
      Bus(channels, active, nextId, inFlight, done, log)
    }

    ghost predicate Valid()
      reads this
    {
      Sound(View()) && changes == |log|
    }

    constructor ()
      ensures Valid() && View() == EMPTY
    {
      channels, active, nextId, inFlight, done, log, changes := map[], {}, 1, [], [], [], 0;
    }

    method SubscribeTo(messageType: MessageType) returns (id: nat)
      requires Valid()
      modifies this
      ensures Valid() && id == old(nextId) && View() == Next(old(View()), Subscribe(messageType))
    {
      StepKeepsSound(View(), Subscribe(messageType));
      hide Sound;
      id := nextId;
      nextId := nextId + 1;
      var entries := if messageType in channels then channels[messageType] else [];
      channels := channels[messageType := entries + [id]];
      active := active + {id};
      log := log + [Subscribed(id, messageType)];
      changes := changes + 1;
    }

    // The unsubscribe closure.
    method UnsubscribeFrom(id: nat, messageType: MessageType)
      requires Valid() && Enabled(View(), Unsubscribe(id, messageType))
      modifies this
      ensures Valid() && View() == Next(old(View()), Unsubscribe(id, messageType))
    {
      StepKeepsSound(View(), Unsubscribe(id, messageType));
      hide Sound, Without;
      active := active - {id};
      log := log + [Unsubscribed(id)];
      changes := changes + 1;
      if messageType !in channels {
        return;
      }
      var rest := Without(channels[messageType], id);
      if rest == [] {
        channels := channels - {messageType};
      } else {
        channels := channels[messageType := rest];
      }
    }

    method Begin(messageType: MessageType) returns (started: bool)
      requires Valid()
      modifies this
      ensures Valid() && View() == Next(old(View()), BeginPublish(messageType))
      ensures started == (messageType in old(channels))
      ensures channels == old(channels) && active == old(active) && log == old(log)
      ensures inFlight == if started then old(inFlight) + [Publication(messageType, changes, channels[messageType], [])]
                          else old(inFlight)
    {
      StepKeepsSound(View(), BeginPublish(messageType));
      hide Sound;
      if messageType !in channels {
        done := done + [Publication(messageType, |log|, [], [])];
        return false;
      }
      inFlight := inFlight + [Publication(messageType, changes, channels[messageType], [])];
      return true;
    }

    method TurnOfNext() returns (invoked: bool, id: nat)
      requires Valid() && Enabled(View(), TakeTurn)
      modifies this
      ensures Valid() && View() == Next(old(View()), TakeTurn)
      ensures id == Innermost(old(View())).copy[|Innermost(old(View())).turns|] && invoked == (id in active)
      ensures channels == old(channels) && active == old(active) && log == old(log)
      ensures inFlight == old(inFlight)[..|old(inFlight)| - 1]
          + [WithTurn(Innermost(old(View())), Turn(id, changes, invoked))]
    {
      StepKeepsSound(View(), TakeTurn);
      hide Sound;
      var p := inFlight[|inFlight| - 1];
      id := p.copy[|p.turns|];
      invoked := id in active;
      inFlight := inFlight[..|inFlight| - 1] + [WithTurn(p, Turn(id, changes, invoked))];
    }

    method End()
      requires Valid() && Enabled(View(), EndPublish)
      modifies this
      ensures Valid() && View() == Next(old(View()), EndPublish)
      ensures channels == old(channels) && active == old(active) && log == old(log)
      ensures inFlight == old(inFlight)[..|old(inFlight)| - 1]
    {
      StepKeepsSound(View(), EndPublish);
      hide Sound;
      done := done + [inFlight[|inFlight| - 1]];
      inFlight := inFlight[..|inFlight| - 1];
    }

    /** A publish whose callbacks leave the bus alone invokes every registered entry,
        once and in subscription order. */
    method PublishTo(messageType: MessageType) returns (invoked: seq<nat>)
      requires Valid()
      modifies this
      ensures Valid() && invoked == Registered(old(log), messageType)
      ensures channels == old(channels) && active == old(active) && log == old(log) && inFlight == old(inFlight)
    {
      ghost var entries := Registered(log, messageType);
      EntriesAreActive(View(), messageType);
      hide Sound, Registered, IsActive, Next;
      invoked := [];
      var started := Begin(messageType);
      if !started {
        return;
      }
      ghost var outer, p := old(inFlight), Publication(messageType, changes, entries, []);
      while |inFlight[|inFlight| - 1].turns| < |inFlight[|inFlight| - 1].copy|
        invariant Valid() && inFlight == outer + [p] && p.copy == entries
        invariant channels == old(channels) && active == old(active) && log == old(log)
        invariant |p.turns| <= |entries| && invoked == entries[..|p.turns|]
        decreases |entries| - |p.turns|
      {
        var yes, id := TurnOfNext();
        p := WithTurn(p, Turn(id, changes, yes));
        if yes {
          invoked := invoked + [id];
        }
      }
      End();
    }
  }

  lemma EntriesAreActive(b: Bus, messageType: MessageType)
    requires Sound(b)
    ensures Channel(b, messageType) == Registered(b.log, messageType)
    ensures forall i :: 0 <= i < |Registered(b.log, messageType)| ==> Registered(b.log, messageType)[i] in b.active
  {
    var entries := Registered(b.log, messageType);
    forall i | 0 <= i < |entries|
      ensures entries[i] in b.active
    {
      RegisteredMeans(b.log, b.nextId, messageType, entries[i]);
    }
  }
}
