/** The subscription state of the Redis channel. API calls, message arrivals and consume errors are
    atomic steps; every server command may throw. */
module ChannelModel {
  import opened Sequences
  import P = PoolModel

  /** How the server commands of one call went. */
  datatype Outcome =
    | Fine
    | CreateThrows                      // subscriber creation
    | RegisterThrows                    // on_message registration
    | LoopThrows(done: set<string>)     // the loop over all channels, after doing some of them
    | CommandThrows(took: bool)         // the single SUBSCRIBE or UNSUBSCRIBE, with or without effect

  datatype Event =
    | Subscribe(channel: string, callback: nat, outcome: Outcome)
    | Unsubscribe(channel: string, outcome: Outcome)
    | Message(channel: string, payload: string)
    | ConsumeError

  /** What callers and the server saw happen. */
  datatype Entry =
    | Registered(channel: string, callback: nat)
    | Dropped(channel: string)
    | DroppedAll
    | Arrived(channel: string, payload: string)

  datatype State = State(
    callbacks: map<string, nat>,
    running: bool,
    subscriber: Option<set<string>>,    // the server's view of the current subscriber
    consuming: bool,                    // the consume thread is alive
    history: seq<Entry>)

  function Init(): State {
    State(map[], false, None, false, [])
  }

  predicate Enabled(s: State, e: Event) {
    match e
    case Subscribe(ch, cb, o) =>
      if s.running then s.subscriber.Some? && (o.Fine? || o.CommandThrows?)
      else o.Fine? || o.CreateThrows? || o.RegisterThrows?
           || (o.LoopThrows? && o.done <= s.callbacks.Keys + {ch})
    case Unsubscribe(ch, o) =>
      (s.running ==> s.subscriber.Some?)
      && if ch == "" && s.running then o.Fine? || (o.LoopThrows? && o.done <= s.callbacks.Keys)
         else o.Fine? || (o.CommandThrows? && s.running && ch in s.callbacks)
    case Message(_, _) => s.consuming
    case ConsumeError => s.consuming
  }

  /** Not running any more: the consume thread sees the flag and ends. */
  function Stop(s: State): State {
    s.(running := false, consuming := false)
  }

  function Apply(s: State, e: Event): State
    requires Enabled(s, e)
  {
    match e
    case Subscribe(ch, cb, o) =>
      var t := s.(callbacks := s.callbacks[ch := cb], history := s.history + [Registered(ch, cb)]);
      if !s.running then (
        match o
        case CreateThrows => Stop(t)
        case RegisterThrows => Stop(t.(subscriber := None))
        case LoopThrows(done) => t.(running := true, subscriber := Some(done))
        case _ => t.(running := true, subscriber := Some(t.callbacks.Keys), consuming := true)
      ) else (
        match o
        case CommandThrows(took) =>
          Stop(t.(subscriber := Some(s.subscriber.value + if took then {ch} else {})))
        case _ => t.(subscriber := Some(s.subscriber.value + {ch}))
      )
    case Unsubscribe(ch, o) =>
      if ch == "" && s.running then
        var done := if o.LoopThrows? then o.done else s.callbacks.Keys;
        Stop(s.(callbacks := map[], subscriber := Some(s.subscriber.value - done), history := s.history + [DroppedAll]))
      else if ch in s.callbacks && o.CommandThrows? then
        s.(subscriber := Some(s.subscriber.value - if o.took then {ch} else {}))
      else if ch in s.callbacks then
        var t := s.(callbacks := s.callbacks - {ch}, history := s.history + [Dropped(ch)]);
        var u := if s.running then t.(subscriber := Some(s.subscriber.value - {ch})) else t;
        if u.callbacks == map[] then Stop(u) else u
      else if s.callbacks == map[] then Stop(s) else s
    case Message(ch, payload) => s.(history := s.history + [Arrived(ch, payload)])
    case ConsumeError => Stop(s)
  }

  /** The task a message is turned into, if its channel has a callback on arrival. */
  function TaskFor(s: State, e: Event): Option<P.WorkerTask> {
    if e.Message? && e.channel in s.callbacks then Some(P.WorkerTask(s.callbacks[e.channel], e.payload)) else None
  }

  // ---- agreement ----

  /** While running, something is registered, the server is subscribed to exactly the registered
      channels, and the consume thread is there. */
  predicate Agreement(s: State) {
    && (s.running ==> s.callbacks != map[] && s.subscriber == Some(s.callbacks.Keys))
    && (s.running <==> s.consuming)
  }

  /** The calls that leave running_ up although a server command threw half-way. */
  predicate Desyncs(s: State, e: Event) {
    || (e.Subscribe? && !s.running && e.outcome.LoopThrows?)
    || (e.Unsubscribe? && e.outcome == CommandThrows(true))
  }

  /** A step keeps the agreement if and only if it is not one of those; and a running channel goes on running
      if and only if it is no consume error, no SUBSCRIBE that throws and no unsubscribe that leaves nothing
      registered. */
  lemma AgreementStep(s: State, e: Event)
    requires Agreement(s) && Enabled(s, e)
    ensures Agreement(Apply(s, e)) <==> !Desyncs(s, e)
    ensures s.running ==>
              (Apply(s, e).running <==>
                && !e.ConsumeError? && !(e.Subscribe? && e.outcome.CommandThrows?)
                && (e.Unsubscribe? ==> Apply(s, e).callbacks != map[]))
  {
    var t := Apply(s, e);
    match e {
      case Subscribe(ch, cb, o) =>
        assert t.callbacks.Keys == s.callbacks.Keys + {ch} && ch in t.callbacks;
      case Unsubscribe(ch, o) =>
        if ch in s.callbacks && !(ch == "" && s.running) {
          assert (s.callbacks - {ch}).Keys == s.callbacks.Keys - {ch};
          if Desyncs(s, e) {
            assert ch !in t.subscriber.value && ch in t.callbacks.Keys;
          } else if o.CommandThrows? {
            assert s.subscriber.value - {} == s.subscriber.value;
          }
        }
      case _ =>
    }
  }

  predicate Feasible(s: State, events: seq<Event>)
    decreases events
  {
    events == [] || (Enabled(s, events[0]) && Feasible(Apply(s, events[0]), events[1..]))
  }

  function After(s: State, events: seq<Event>): State
    requires Feasible(s, events)
    decreases events
  {
    if events == [] then s else After(Apply(s, events[0]), events[1..])
  }

  predicate InSync(s: State, events: seq<Event>)
    requires Feasible(s, events)
    decreases events
  {
    events == [] || (!Desyncs(s, events[0]) && InSync(Apply(s, events[0]), events[1..]))
  }

  lemma {:induction false} AgreementAlong(s: State, events: seq<Event>)
    requires Agreement(s) && Feasible(s, events) && InSync(s, events)
    ensures Agreement(After(s, events))
    decreases events
  {
    if events == [] {
    } else {
      AgreementStep(s, events[0]);
      AgreementAlong(Apply(s, events[0]), events[1..]);
    }
  }

  // ---- which messages are delivered, from the history alone ----

  /** The callback registered for a channel after these entries. */
  function LatestCallback(history: seq<Entry>, ch: string): Option<nat> {
    if history == [] then None
    else
      var rest := history[..|history| - 1];
      match history[|history| - 1]
      case Registered(c, cb) => if c == ch then Some(cb) else LatestCallback(rest, ch)
      case Dropped(c) => if c == ch then None else LatestCallback(rest, ch)
      case DroppedAll => None
      case Arrived(_, _) => LatestCallback(rest, ch)
  }

  /** The arrived messages with a callback registered on arrival, each with the latest one; of all
      channels, or of one only. */
  function DeliveriesTo(history: seq<Entry>, only: Option<string>): seq<P.WorkerTask> {
    if history == [] then []
    else
      var rest, last := history[..|history| - 1], history[|history| - 1];
      DeliveriesTo(rest, only) +
      if last.Arrived? && (only.None? || only.value == last.channel) && LatestCallback(rest, last.channel).Some?
      then [P.WorkerTask(LatestCallback(rest, last.channel).value, last.payload)] else []
  }

  function Deliveries(history: seq<Entry>): seq<P.WorkerTask> {
    DeliveriesTo(history, None)
  }

  /** The callback table agrees with the history. */
  ghost predicate TableInv(s: State) {
    forall ch :: LatestCallback(s.history, ch) == if ch in s.callbacks then Some(s.callbacks[ch]) else None
  }

  /** At most one entry is added, and the table changes as it says. */
  lemma HistoryStep(s: State, e: Event)
    requires Enabled(s, e)
    ensures var t := Apply(s, e);
            if t.history == s.history then t.callbacks == s.callbacks && !e.Message?
            else
              var last := t.history[|t.history| - 1];
              && t.history == s.history + [last] && (last.Arrived? <==> e.Message?)
              && match last
                 case Registered(c, cb) => t.callbacks == s.callbacks[c := cb]
                 case Dropped(c) => t.callbacks == s.callbacks - {c}
                 case DroppedAll => t.callbacks == map[]
                 case Arrived(c, p) => t.callbacks == s.callbacks && e == Message(c, p)
  {
  }

  lemma TableStep(s: State, e: Event)
    requires TableInv(s) && Enabled(s, e)
    ensures TableInv(Apply(s, e))
  {
    HistoryStep(s, e);
    var t := Apply(s, e);
    if t.history != s.history {
      assert t.history[..|t.history| - 1] == s.history;
    }
  }

  /** The delivery of one event, as seen by all channels or by one. */
  function DeliveryOf(s: State, e: Event, only: Option<string>): seq<P.WorkerTask> {
    match TaskFor(s, e)
    case None => []
    case Some(task) => if only.None? || only.value == e.channel then [task] else []
  }

  lemma DeliveryStep(s: State, e: Event, only: Option<string>)
    requires TableInv(s) && Enabled(s, e)
    ensures DeliveriesTo(Apply(s, e).history, only) == DeliveriesTo(s.history, only) + DeliveryOf(s, e, only)
  {
    HistoryStep(s, e);
    var t := Apply(s, e);
    if t.history != s.history {
      assert t.history[..|t.history| - 1] == s.history;
    }
  }

  /** The event takes the channel out of the table: an unsubscribe of it, or of all, that does not throw
      back to its caller. */
  predicate Unregisters(s: State, e: Event, ch: string) {
    e.Unsubscribe? && !e.outcome.CommandThrows? && (e.channel == ch || (e.channel == "" && s.running))
  }

  lemma SilentStep(s: State, e: Event, ch: string)
    requires TableInv(s) && Enabled(s, e) && ch !in s.callbacks && !(e.Subscribe? && e.channel == ch)
    ensures ch !in Apply(s, e).callbacks
    ensures DeliveriesTo(Apply(s, e).history, Some(ch)) == DeliveriesTo(s.history, Some(ch))
  {
    DeliveryStep(s, e, Some(ch));
    assert DeliveryOf(s, e, Some(ch)) == [];
    assert DeliveriesTo(s.history, Some(ch)) + [] == DeliveriesTo(s.history, Some(ch));
    StaysOut(s, e, ch);
  }

  lemma StaysOut(s: State, e: Event, ch: string)
    requires Enabled(s, e)
    requires (ch !in s.callbacks && !(e.Subscribe? && e.channel == ch)) || Unregisters(s, e, ch)
    ensures ch !in Apply(s, e).callbacks
  {
  }

  lemma {:induction false} SilentAlong(s: State, events: seq<Event>, ch: string)
    requires TableInv(s) && Feasible(s, events) && ch !in s.callbacks
    requires forall i :: 0 <= i < |events| && events[i].Subscribe? ==> events[i].channel != ch
    ensures ch !in After(s, events).callbacks
    ensures DeliveriesTo(After(s, events).history, Some(ch)) == DeliveriesTo(s.history, Some(ch))
    decreases events
  {
    if events == [] {
    } else {
      SilentStep(s, events[0], ch);
      TableStep(s, events[0]);
      assert forall i :: 0 <= i < |events[1..]| ==> events[1..][i] == events[i + 1];
      SilentAlong(Apply(s, events[0]), events[1..], ch);
    }
  }

  lemma {:induction false} TableAlong(s: State, events: seq<Event>)
    requires TableInv(s) && Feasible(s, events)
    ensures TableInv(After(s, events))
    decreases events
  {
    if events == [] {
    } else {
      TableStep(s, events[0]);
      TableAlong(Apply(s, events[0]), events[1..]);
    }
  }

  /** In every run, after a channel was unsubscribed and until it is subscribed again, none of the
      messages that arrive for it is delivered, whatever else happens. */
  lemma SilentAfterUnsubscribe(before: seq<Event>, e: Event, events: seq<Event>, ch: string)
    requires Feasible(Init(), before) && Enabled(After(Init(), before), e)
    requires Unregisters(After(Init(), before), e, ch)
    requires Feasible(Apply(After(Init(), before), e), events)
    requires forall i :: 0 <= i < |events| && events[i].Subscribe? ==> events[i].channel != ch
    ensures var s := After(Init(), before);
            DeliveriesTo(After(Apply(s, e), events).history, Some(ch)) == DeliveriesTo(s.history, Some(ch))
  {
    TableAlong(Init(), before);
    var s := After(Init(), before);
    TableStep(s, e);
    DeliveryStep(s, e, Some(ch));
    assert DeliveryOf(s, e, Some(ch)) == [];
    assert DeliveriesTo(s.history, Some(ch)) + [] == DeliveriesTo(s.history, Some(ch));
    StaysOut(s, e, ch);
    SilentAlong(Apply(s, e), events, ch);
  }

  // ---- recovery and deafness ----

  /** The server is subscribed to exactly the channels that have a callback by the history. */
  ghost predicate SubscribedAsRegistered(s: State) {
    s.subscriber.Some? && forall c :: c in s.subscriber.value <==> LatestCallback(s.history, c).Some?
  }

  /** Whatever threw: while running something is registered and the server has no other channels. */
  predicate ServerInv(s: State) {
    && (s.running ==> s.callbacks != map[] && s.subscriber.Some? && s.subscriber.value <= s.callbacks.Keys)
    && (s.consuming ==> s.running)
  }

  lemma ServerStep(s: State, e: Event)
    requires ServerInv(s) && Enabled(s, e)
    ensures ServerInv(Apply(s, e))
  {
    match e {
      case Subscribe(ch, cb, o) =>
        assert ch in Apply(s, e).callbacks;
        assert Apply(s, e).callbacks.Keys == s.callbacks.Keys + {ch};
      case Unsubscribe(ch, o) =>
        assert (s.callbacks - {ch}).Keys == s.callbacks.Keys - {ch};
      case _ =>
    }
  }

  lemma {:induction false} ServerAlong(s: State, events: seq<Event>)
    requires ServerInv(s) && Feasible(s, events)
    ensures ServerInv(After(s, events))
    decreases events
  {
    if events == [] {
    } else {
      ServerStep(s, events[0]);
      ServerAlong(Apply(s, events[0]), events[1..]);
    }
  }

  lemma AgreementByHistory(s: State)
    requires TableInv(s) && Agreement(s) && s.running
    ensures SubscribedAsRegistered(s)
  {
    forall c
      ensures c in s.subscriber.value <==> LatestCallback(s.history, c).Some?
    {
      assert LatestCallback(s.history, c) == if c in s.callbacks then Some(s.callbacks[c]) else None;
    }
  }

  /** A subscribe of `ch` can put things right: the channel has stopped, or it still consumes and the
      server misses no registered channel but `ch`. */
  ghost predicate Recoverable(s: State, ch: string) {
    !s.running ||
    (s.consuming && s.subscriber.Some? &&
     forall c :: LatestCallback(s.history, c).Some? ==> c == ch || c in s.subscriber.value)
  }

  /** Recovery, in every run whatever threw before: a successful subscribe re-establishes the agreement if
      and only if the channel had stopped or missed nothing else. Then the server is subscribed to exactly
      the channels registered by the history, and stays so through calls that do not throw half-way. */
  lemma Recovery(before: seq<Event>, ch: string, cb: nat, events: seq<Event>)
    requires Feasible(Init(), before) && Enabled(After(Init(), before), Subscribe(ch, cb, Fine))
    requires var t := Apply(After(Init(), before), Subscribe(ch, cb, Fine));
             Feasible(t, events) && InSync(t, events)
    ensures var s := After(Init(), before);
            var t := Apply(s, Subscribe(ch, cb, Fine));
            var u := After(t, events);
            && (s.running ==> s.subscriber.Some?)
            && (Agreement(t) <==> Recoverable(s, ch))
            && (Agreement(t) ==> t.running && SubscribedAsRegistered(t))
            && (Agreement(t) ==> Agreement(u) && (u.running ==> SubscribedAsRegistered(u)))
  {
    var s := After(Init(), before);
    var t := Apply(s, Subscribe(ch, cb, Fine));
    TableAlong(Init(), before);
    ServerAlong(Init(), before);
    TableStep(s, Subscribe(ch, cb, Fine));
    TableAlong(t, events);
    AgreementIffRecoverable(s, ch, cb);
    if Agreement(t) {
      AgreementByHistory(t);
      AgreementAlong(t, events);
      if After(t, events).running {
        AgreementByHistory(After(t, events));
      }
    }
  }

  lemma AgreementIffRecoverable(s: State, ch: string, cb: nat)
    requires TableInv(s) && ServerInv(s) && Enabled(s, Subscribe(ch, cb, Fine))
    ensures Agreement(Apply(s, Subscribe(ch, cb, Fine))) <==> Recoverable(s, ch)
  {
    var t := Apply(s, Subscribe(ch, cb, Fine));
    assert t.callbacks.Keys == s.callbacks.Keys + {ch} && ch in t.callbacks;
    forall c
      ensures LatestCallback(s.history, c).Some? <==> c in s.callbacks
    {
      assert LatestCallback(s.history, c) == if c in s.callbacks then Some(s.callbacks[c]) else None;
    }
    if s.running && s.consuming {
      assert t.subscriber.value == s.subscriber.value + {ch};
      assert t.subscriber.value == t.callbacks.Keys <==>
             forall c :: c in s.callbacks.Keys ==> c == ch || c in s.subscriber.value;
    }
  }

  /** The flag is up and nobody consumes. */
  predicate Deaf(s: State) {
    s.running && !s.consuming
  }

  /** The event lowers a raised flag without a consume thread: a SUBSCRIBE that throws, or an unsubscribe
      that leaves nothing registered. */
  predicate LowersFlag(s: State, e: Event) {
    || (e.Subscribe? && e.outcome.CommandThrows?)
    || (e.Unsubscribe? && !e.outcome.CommandThrows? && (e.channel == "" || s.callbacks.Keys <= {e.channel}))
  }

  lemma DeafStep(s: State, e: Event)
    requires ServerInv(s) && TableInv(s) && Deaf(s) && Enabled(s, e)
    ensures Deaf(Apply(s, e)) <==> !LowersFlag(s, e)
    ensures Deliveries(Apply(s, e).history) == Deliveries(s.history)
  {
    DeliveryStep(s, e, None);
    assert Deliveries(s.history) + [] == Deliveries(s.history);
    if e.Unsubscribe? && e.channel in s.callbacks {
      var rest := s.callbacks - {e.channel};
      assert rest.Keys == s.callbacks.Keys - {e.channel};
      assert rest == map[] <==> rest.Keys == {};
    } else if e.Unsubscribe? {
      assert s.callbacks.Keys != {};
    } else if e.Subscribe? {
      assert e.channel in Apply(s, e).callbacks;
    }
  }

  predicate FlagStaysUp(s: State, events: seq<Event>)
    requires Feasible(s, events)
    decreases events
  {
    events == [] || (!LowersFlag(s, events[0]) && FlagStaysUp(Apply(s, events[0]), events[1..]))
  }

  lemma {:induction false} DeafAlong(s: State, events: seq<Event>)
    requires ServerInv(s) && TableInv(s) && Deaf(s) && Feasible(s, events) && FlagStaysUp(s, events)
    ensures Deaf(After(s, events)) && Deliveries(After(s, events).history) == Deliveries(s.history)
    decreases events
  {
    if events == [] {
    } else {
      DeafStep(s, events[0]);
      ServerStep(s, events[0]);
      TableStep(s, events[0]);
      DeafAlong(Apply(s, events[0]), events[1..]);
    }
  }

  /** Deafness: in every run, after a start whose subscribe loop threw, and until a SUBSCRIBE throws or
      nothing is registered any more, there is no consume thread and nothing is delivered, however many
      later subscribes succeed. */
  lemma DeafAfterThrownStart(before: seq<Event>, ch: string, cb: nat, done: set<string>, events: seq<Event>)
    requires Feasible(Init(), before) && !After(Init(), before).running
    requires Enabled(After(Init(), before), Subscribe(ch, cb, LoopThrows(done)))
    requires var t := Apply(After(Init(), before), Subscribe(ch, cb, LoopThrows(done)));
             Feasible(t, events) && FlagStaysUp(t, events)
    ensures var s := After(Init(), before);
            var u := After(Apply(s, Subscribe(ch, cb, LoopThrows(done))), events);
            u.running && !u.consuming && Deliveries(u.history) == Deliveries(s.history)
  {
    var s := After(Init(), before);
    var e := Event.Subscribe(ch, cb, LoopThrows(done));
    TableAlong(Init(), before);
    ServerAlong(Init(), before);
    TableStep(s, e);
    ServerStep(s, e);
    DeliveryStep(s, e, None);
    assert Deliveries(s.history) + [] == Deliveries(s.history);
    DeafAlong(Apply(s, e), events);
  }

  /** It happens at the very first subscribe, and a second one that succeeds changes nothing. */
  lemma DeafRun(ch: string, cb: nat, ch': string, cb': nat)
    ensures var e, e' := Event.Subscribe(ch, cb, LoopThrows({})), Event.Subscribe(ch', cb', Fine);
            && Feasible(Init(), [e, e'])
            && var t := After(Init(), [e, e']);
               && FlagStaysUp(Apply(Init(), e), [e'])
               && Deaf(t) && ch in t.callbacks && ch' in t.callbacks && t.subscriber == Some({ch'})
  {
    var e, e' := Event.Subscribe(ch, cb, LoopThrows({})), Event.Subscribe(ch', cb', Fine);
    var t := Apply(Init(), e);
    assert [e, e'][1..] == [e'];
    assert [e'][1..] == [];
    assert Feasible(t, [e']) && After(t, [e']) == Apply(t, e');
    assert FlagStaysUp(Apply(t, e'), []);
    assert {} + {ch'} == {ch'};
  }

  // ---- the channel as its callers can predict it ----

  /** Stopped; running with a consume thread; or running without one. */
  datatype Status = Down | Listening | Stuck

  /** Which callbacks are registered and whether the channel listens, from the events alone. */
  datatype Expected = Expected(status: Status, table: map<string, nat>)

  function AfterSubscribe(status: Status, outcome: Outcome): Status {
    match status
    case Down => if outcome.Fine? then Listening else if outcome.LoopThrows? then Stuck else Down
    case _ => if outcome.CommandThrows? then Down else status
  }

  /** A subscribe registers whatever happens; an unsubscribe stops the channel only with the last one. */
  function Next(x: Expected, e: Event): Expected {
    match e
    case Subscribe(ch, cb, outcome) => Expected(AfterSubscribe(x.status, outcome), x.table[ch := cb])
    case Unsubscribe(ch, outcome) =>
      if outcome.CommandThrows? then x
      else
        var rest := if ch == "" && !x.status.Down? then map[] else x.table - {ch};
        Expected(if rest == map[] then Down else x.status, rest)
    case Message(_, _) => x
    case ConsumeError => x.(status := Down)
  }

  function Expect(x: Expected, events: seq<Event>): Expected
    decreases events
  {
    if events == [] then x else Expect(Next(x, events[0]), events[1..])
  }

  /** The messages that find a callback, each with that callback. */
  function Due(x: Expected, events: seq<Event>): seq<P.WorkerTask>
    decreases events
  {
    if events == [] then []
    else
      var e := events[0];
      (if e.Message? && e.channel in x.table then [P.WorkerTask(x.table[e.channel], e.payload)] else [])
      + Due(Next(x, e), events[1..])
  }

  predicate AsExpected(s: State, x: Expected) {
    && s.callbacks == x.table
    && (s.running <==> !x.status.Down?)
    && (s.consuming <==> x.status.Listening?)
  }

  lemma ExpectedStep(s: State, x: Expected, e: Event)
    requires AsExpected(s, x) && ServerInv(s) && Enabled(s, e)
    ensures AsExpected(Apply(s, e), Next(x, e))
  {
    if e.Unsubscribe? && e.channel !in s.callbacks {
      assert s.callbacks - {e.channel} == s.callbacks;
    }
  }

  lemma {:induction false} ExpectedAlong(s: State, x: Expected, events: seq<Event>)
    requires AsExpected(s, x) && ServerInv(s) && TableInv(s) && Feasible(s, events)
    ensures AsExpected(After(s, events), Expect(x, events))
    ensures Deliveries(After(s, events).history) == Deliveries(s.history) + Due(x, events)
    decreases events
  {
    if events == [] {
      assert Deliveries(s.history) + [] == Deliveries(s.history);
    } else {
      var e, rest := events[0], events[1..];
      ExpectedStep(s, x, e);
      ServerStep(s, e);
      TableStep(s, e);
      DeliveryStep(s, e, None);
      ExpectedAlong(Apply(s, e), Next(x, e), rest);
      Regroup(Deliveries(s.history), DeliveryOf(s, e, None), Due(Next(x, e), rest));
    }
  }

  const START := Expected(Down, map[])

  /** In every run, whatever threw: the callbacks, the flag and the consume thread are as the events make
      one expect, and the tasks due are those of the messages that found a callback. */
  lemma ExactlyAsExpected(events: seq<Event>)
    requires Feasible(Init(), events)
    ensures var s, x := After(Init(), events), Expect(START, events);
            && AsExpected(s, x)
            && (forall ch :: LatestCallback(s.history, ch) == if ch in x.table then Some(x.table[ch]) else None)
            && Deliveries(s.history) == Due(START, events)
  {
    ExpectedAlong(Init(), START, events);
    TableAlong(Init(), events);
    assert Deliveries(Init().history) == [];
    assert [] + Due(START, events) == Due(START, events);
  }

  /** From construction on: agreement in every run without half-way throws; and then the channel runs exactly
      if by the events it listens. */
  lemma SubscriptionAgreement(events: seq<Event>)
    requires Feasible(Init(), events) && InSync(Init(), events)
    ensures Agreement(After(Init(), events))
    ensures After(Init(), events).running <==> Expect(START, events).status.Listening?
  {
    AgreementAlong(Init(), events);
    ExactlyAsExpected(events);
  }

  /** The event ends the listening: a consume error, a SUBSCRIBE that throws, or an unsubscribe after which
      by the history nothing is registered. */
  ghost predicate EndsListening(e: Event, history: seq<Entry>) {
    || e.ConsumeError?
    || (e.Subscribe? && e.outcome.CommandThrows?)
    || (e.Unsubscribe? && forall c :: LatestCallback(history, c).None?)
  }

  lemma RegisteredByHistory(s: State, ch: string)
    requires TableInv(s)
    ensures LatestCallback(s.history, ch).Some? <==> ch in s.callbacks
  {
    assert LatestCallback(s.history, ch) == if ch in s.callbacks then Some(s.callbacks[ch]) else None;
  }

  /** In every run a channel that listens goes on listening, with its flag up, unless that happens; and if it
      does the flag falls and the consume thread ends. */
  lemma ListensUntil(before: seq<Event>, e: Event)
    requires Feasible(Init(), before) && Enabled(After(Init(), before), e)
    requires After(Init(), before).running && After(Init(), before).consuming
    ensures var t := Apply(After(Init(), before), e);
            if EndsListening(e, t.history) then !t.running && !t.consuming else t.running && t.consuming
  {
    var s := After(Init(), before);
    var t := Apply(s, e);
    ServerAlong(Init(), before);
    TableAlong(Init(), before);
    TableStep(s, e);
    if c :| c in t.callbacks {
      RegisteredByHistory(t, c);
    } else {
      forall c
        ensures LatestCallback(t.history, c).None?
      {
        RegisteredByHistory(t, c);
      }
      assert t.callbacks == map[];
    }
  }

  // ---- after a consume error ----

  /** No subscribe gets as far as its loop over the channels. */
  predicate NoStart(events: seq<Event>) {
    forall i :: 0 <= i < |events| && events[i].Subscribe? ==>
      events[i].outcome.CreateThrows? || events[i].outcome.RegisterThrows?
  }

  lemma {:induction false} StaysDown(s: State, events: seq<Event>)
    requires !s.running && !s.consuming && TableInv(s) && Feasible(s, events) && NoStart(events)
    ensures !After(s, events).running && !After(s, events).consuming
    ensures Deliveries(After(s, events).history) == Deliveries(s.history)
    decreases events
  {
    if events == [] {
    } else {
      var e := events[0];
      TableStep(s, e);
      DeliveryStep(s, e, None);
      assert Deliveries(s.history) + [] == Deliveries(s.history);
      assert forall i :: 0 <= i < |events[1..]| ==> events[1..][i] == events[i + 1];
      StaysDown(Apply(s, e), events[1..]);
    }
  }

  /** In every run, after a consume error and until a subscribe starts the channel again, nothing more is
      delivered, whatever is called or fails; and the one that does leaves it listening, with the server
      subscribed to exactly the channels that by the history are registered. */
  lemma SilentAfterConsumeError(before: seq<Event>, events: seq<Event>, ch: string, cb: nat)
    requires Feasible(Init(), before) && Enabled(After(Init(), before), ConsumeError)
    requires Feasible(Apply(After(Init(), before), ConsumeError), events) && NoStart(events)
    ensures var s := After(Init(), before);
            var u := After(Apply(s, ConsumeError), events);
            && !u.running && !u.consuming && Deliveries(u.history) == Deliveries(s.history)
            && Enabled(u, Subscribe(ch, cb, Fine))
            && var t := Apply(u, Subscribe(ch, cb, Fine));
               t.running && t.consuming && SubscribedAsRegistered(t) && LatestCallback(t.history, ch) == Some(cb)
  {
    var s := After(Init(), before);
    var e, start := Event.ConsumeError, Event.Subscribe(ch, cb, Fine);
    TableAlong(Init(), before);
    TableStep(s, e);
    DeliveryStep(s, e, None);
    assert Deliveries(s.history) + [] == Deliveries(s.history);
    StaysDown(Apply(s, e), events);
    var u := After(Apply(s, e), events);
    TableAlong(Apply(s, e), events);
    TableStep(u, start);
    AgreementIffRecoverable(u, ch, cb);
    AgreementByHistory(Apply(u, start));
    assert LatestCallback(Apply(u, start).history, ch) == Some(Apply(u, start).callbacks[ch]);
  }
}
