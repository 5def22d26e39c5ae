/** The Redis channel as an object over its own thread pool: the methods change the callback table, the
    flags and the subscriber in place, with loops over the table, and are proved against ChannelModel. */
module RedisChannelObject {
  import opened Sequences
  import opened ChannelModel
  import opened ThreadPoolObject

  /** A loop over the channels throws at the command after `after` others, which itself took effect or not. */
  datatype LoopFault = LoopFault(after: nat, took: bool)

  /** Which server commands of a call throw: creation, registration, one of the loop, the single command
      with or without effect. */
  datatype Faults = Faults(create: bool, register: bool, loop: Option<LoopFault>, command: Option<bool>)

  predicate ThrowsWithin(loop: Option<LoopFault>, size: nat) {
    loop.Some? && loop.value.after < size
  }

  /** How many channels a loop has dealt with when it throws. */
  function DoneAtThrow(f: LoopFault): nat {
    f.after + if f.took then 1 else 0
  }

  /** The outcome these faults give a subscribe with so many channels in the table. */
  predicate SubscribeOutcome(f: Faults, running: bool, size: nat, outcome: Outcome) {
    if running then
      outcome == (if f.command.Some? then CommandThrows(f.command.value) else Fine)
    else if f.create then outcome == CreateThrows
    else if f.register then outcome == RegisterThrows
    else if ThrowsWithin(f.loop, size) then outcome.LoopThrows? && |outcome.done| == DoneAtThrow(f.loop.value)
    else outcome == Fine
  }

  /** And an unsubscribe, of all channels or of one that is registered or not. */
  predicate UnsubscribeOutcome(f: Faults, all: bool, commands: bool, size: nat, outcome: Outcome) {
    if all then
      if ThrowsWithin(f.loop, size) then outcome.LoopThrows? && |outcome.done| == DoneAtThrow(f.loop.value)
      else outcome == Fine
    else outcome == (if commands && f.command.Some? then CommandThrows(f.command.value) else Fine)
  }

  datatype InitResult = Ready | NotReady | Threw(done: set<string>)

  class RedisChannel {
    var callbacks_: map<string, nat>
    var running_: bool
    var subscriber_: Option<set<string>>
    var consuming: bool
    const pool_: ThreadPool
    ghost var history: seq<Entry>

    ghost function Model(): State
      reads this
    {
      State.State(callbacks_, running_, subscriber_, consuming, history)
    }

    /** The pool is sound, the table agrees with the history, and the subscriber is there when used. */
    ghost predicate Valid()
      reads this, pool_
    {
      && pool_.Valid() && TableInv(Model())
      && (running_ ==> subscriber_.Some?) && (consuming ==> running_)
      && pool_.submitted == Deliveries(history)
    }

    constructor ()
      ensures Valid() && fresh(pool_) && Model() == Init()
    {
      callbacks_, running_, subscriber_, consuming := map[], false, None, false;
      history := [];
      pool_ := new ThreadPool();
    }

    /** SUBSCRIBE for every registered channel, in any order, unless one throws, with effect or without. */
    method SubscribeAll(fault: Option<LoopFault>) returns (threw: bool, done: set<string>)
      requires subscriber_ == Some({})
      modifies this`subscriber_
      ensures subscriber_ == Some(done) && done <= callbacks_.Keys
      ensures !threw ==> done == callbacks_.Keys
      ensures threw <==> ThrowsWithin(fault, |callbacks_.Keys|)
      ensures threw ==> |done| == DoneAtThrow(fault.value)
    {
      var todo := callbacks_.Keys;
      var n := 0;
      threw, done := false, {};
      while todo != {}
        invariant subscriber_ == Some(done) && done + todo == callbacks_.Keys && done !! todo
        invariant !threw && n == |done| && |done| + |todo| == |callbacks_.Keys|
        invariant fault.Some? ==> n <= fault.value.after
        decreases todo
      {
        var ch :| ch in todo;
        threw := fault.Some? && fault.value.after == n;
        if !threw || fault.value.took {
          subscriber_ := Some(subscriber_.value + {ch});
          todo, done := todo - {ch}, done + {ch};
        }
        if threw { return; }
        n := n + 1;
      }
    }

    /** Creates the subscriber, registers the handler, subscribes all and starts the consume thread. */
    method InitializeSubscriber(f: Faults) returns (r: InitResult)
      requires running_
      modifies this`subscriber_, this`consuming, this`running_
      ensures running_
      ensures r.NotReady? && f.create ==> subscriber_ == old(subscriber_) && consuming == old(consuming)
      ensures r.NotReady? && !f.create ==> f.register && subscriber_ == None && consuming == old(consuming)
      ensures r.NotReady? <==> f.create || f.register
      ensures r.Threw? ==> subscriber_ == Some(r.done) && r.done <= callbacks_.Keys && consuming == old(consuming)
      ensures r.Ready? ==> subscriber_ == Some(callbacks_.Keys) && consuming
      ensures !f.create && !f.register ==> (r.Threw? <==> ThrowsWithin(f.loop, |callbacks_.Keys|))
      ensures r.Threw? ==> !f.create && !f.register && |r.done| == DoneAtThrow(f.loop.value)
    {
      if f.create { return NotReady; }
      subscriber_ := Some({});
      if f.register {
        subscriber_ := None;
        return NotReady;
      }
      var threw, done := SubscribeAll(f.loop);
      if threw { return Threw(done); }
      running_ := true;
      consuming := true;
      return Ready;
    }

    ghost method Log(entry: Entry)
      modifies this`history
      ensures history == old(history) + [entry]
    {
      history := history + [entry];
    }

    /** Registers the callback first; then starts the subscriber or adds the channel to it. */
    method Subscribe(channel: string, callback: nat, f: Faults) returns (ghost e: Event)
      requires Valid()
      modifies this
      ensures e.Subscribe? && e.channel == channel && e.callback == callback
      ensures Enabled(old(Model()), e) && Model() == Apply(old(Model()), e)
      ensures Valid()
      ensures SubscribeOutcome(f, old(running_), |callbacks_.Keys|, e.outcome)
    {
      ghost var before := Model();
      e := Register(channel, callback, f);
      StillValid(before, e);
    }

    method Register(channel: string, callback: nat, f: Faults) returns (ghost e: Event)
      requires (running_ ==> subscriber_.Some?) && (consuming ==> running_)
      modifies this
      ensures e.Subscribe? && e.channel == channel && e.callback == callback
      ensures Enabled(old(Model()), e) && Model() == Apply(old(Model()), e)
      ensures SubscribeOutcome(f, old(running_), |callbacks_.Keys|, e.outcome)
    {
      ghost var before := Model();
      callbacks_ := callbacks_[channel := callback];
      Log(Registered(channel, callback));
      ghost var outcome;
      if !running_ {
        outcome := FirstSubscribe(f);
        assert callbacks_.Keys == before.callbacks.Keys + {channel};
      } else {
        outcome := NextSubscribe(channel, f);
      }
      e := Event.Subscribe(channel, callback, outcome);
    }

    /** A call that brought the fields where the model's event leads keeps the object sound. */
    lemma StillValid(before: State, e: Event)
      requires pool_.Valid() && TableInv(before) && pool_.submitted == Deliveries(before.history)
      requires (before.running ==> before.subscriber.Some?) && (before.consuming ==> before.running)
      requires Enabled(before, e) && !e.Message? && Model() == Apply(before, e)
      ensures Valid()
    {
      TableStep(before, e);
      DeliveryStep(before, e, None);
      assert Deliveries(before.history) + [] == Deliveries(before.history);
    }

    /** Nothing is running: start, and lower the flag again if the start fails without throwing. */
    method FirstSubscribe(f: Faults) returns (ghost outcome: Outcome)
      requires !running_ && !consuming
      modifies this`running_, this`consuming, this`subscriber_
      ensures SubscribeOutcome(f, false, |callbacks_.Keys|, outcome)
      ensures match outcome
              case Fine => running_ && consuming && subscriber_ == Some(callbacks_.Keys)
              case CreateThrows => !running_ && !consuming && subscriber_ == old(subscriber_)
              case RegisterThrows => !running_ && !consuming && subscriber_ == None
              case LoopThrows(done) => running_ && !consuming && subscriber_ == Some(done) && done <= callbacks_.Keys
              case CommandThrows(_) => false
    {
      running_ := true;
      var r := InitializeSubscriber(f);
      match r {
        case Ready => outcome := Fine;
        case NotReady =>
          running_ := false;
          outcome := if f.create then CreateThrows else RegisterThrows;
        case Threw(done) => outcome := LoopThrows(done);
      }
    }

    /** Running already: one SUBSCRIBE; if it throws the channel stops. */
    method NextSubscribe(channel: string, f: Faults) returns (ghost outcome: Outcome)
      requires running_ && subscriber_.Some?
      modifies this`running_, this`consuming, this`subscriber_
      ensures SubscribeOutcome(f, true, |callbacks_.Keys|, outcome)
      ensures match outcome
              case Fine => running_ && consuming == old(consuming) &&
                  subscriber_ == Some(old(subscriber_).value + {channel})
              case CommandThrows(took) =>
                !running_ && !consuming && subscriber_ == Some(old(subscriber_).value + if took then {channel} else {})
              case _ => false
    {
      if f.command.Some? {
        subscriber_ := Some(subscriber_.value + if f.command.value then {channel} else {});
        running_, consuming := false, false;
        outcome := CommandThrows(f.command.value);
      } else {
        subscriber_ := Some(subscriber_.value + {channel});
        outcome := Fine;
      }
    }

    /** UNSUBSCRIBE for every registered channel, in any order; a throw ends the loop and is caught. */
    method UnsubscribeAll(fault: Option<LoopFault>) returns (threw: bool, done: set<string>)
      requires subscriber_.Some?
      modifies this`subscriber_
      ensures subscriber_ == Some(old(subscriber_).value - done) && done <= callbacks_.Keys
      ensures !threw ==> done == callbacks_.Keys
      ensures threw <==> ThrowsWithin(fault, |callbacks_.Keys|)
      ensures threw ==> |done| == DoneAtThrow(fault.value)
    {
      var todo := callbacks_.Keys;
      var n := 0;
      threw, done := false, {};
      while todo != {}
        invariant subscriber_.Some? && subscriber_.value == old(subscriber_).value - done
        invariant done + todo == callbacks_.Keys && done !! todo
        invariant !threw && n == |done| && |done| + |todo| == |callbacks_.Keys|
        invariant fault.Some? ==> n <= fault.value.after
        decreases todo
      {
        var ch :| ch in todo;
        threw := fault.Some? && fault.value.after == n;
        if !threw || fault.value.took {
          subscriber_ := Some(subscriber_.value - {ch});
          todo, done := todo - {ch}, done + {ch};
          assert subscriber_.value == old(subscriber_).value - done;
        }
        if threw { return; }
        n := n + 1;
      }
    }

    /** The empty name means all channels while running; otherwise one channel. An exception of the
        single command escapes before the callback is erased. */
    method Unsubscribe(channel: string, f: Faults) returns (ghost e: Event)
      requires Valid()
      modifies this
      ensures e.Unsubscribe? && e.channel == channel
      ensures Enabled(old(Model()), e) && Model() == Apply(old(Model()), e)
      ensures Valid()
      // the channel goes on as long as anything is registered
      ensures running_ <==> old(running_) && callbacks_ != map[]
      ensures consuming <==> old(consuming) && callbacks_ != map[]
      ensures UnsubscribeOutcome(f, channel == "" && old(running_), channel in old(callbacks_) && old(running_),
                                 |old(callbacks_).Keys|, e.outcome)
    {
      ghost var before := Model();
      if channel == "" && running_ {
        e := UnsubscribeEverything(f);
      } else {
        e := UnsubscribeOne(channel, f);
      }
      StillValid(before, e);
    }

    method UnsubscribeEverything(f: Faults) returns (ghost e: Event)
      requires running_ && subscriber_.Some?
      modifies this
      ensures e.Unsubscribe? && e.channel == ""
      ensures Enabled(old(Model()), e) && Model() == Apply(old(Model()), e)
      ensures UnsubscribeOutcome(f, true, false, |old(callbacks_).Keys|, e.outcome)
    {
      running_ := false;
      var threw, done := UnsubscribeAll(f.loop);
      callbacks_ := map[];
      consuming := false;
      Log(DroppedAll);
      e := Event.Unsubscribe("", if threw then LoopThrows(done) else Fine);
    }

    method UnsubscribeOne(channel: string, f: Faults) returns (ghost e: Event)
      requires !(channel == "" && running_) && (running_ ==> subscriber_.Some?) && (consuming ==> running_)
      modifies this
      ensures e.Unsubscribe? && e.channel == channel
      ensures Enabled(old(Model()), e) && Model() == Apply(old(Model()), e)
      ensures UnsubscribeOutcome(f, false, channel in old(callbacks_) && old(running_), 0, e.outcome)
    {
      e := Event.Unsubscribe(channel, Fine);
      if channel in callbacks_ {
        if running_ {
          if f.command.Some? {
            subscriber_ := Some(subscriber_.value - if f.command.value then {channel} else {});
            e := Event.Unsubscribe(channel, CommandThrows(f.command.value));
            return;
          }
          subscriber_ := Some(subscriber_.value - {channel});
        }
        callbacks_ := callbacks_ - {channel};
        Log(Dropped(channel));
      }
      if callbacks_ == map[] {
        running_, consuming := false, false;
      }
    }

    /** The handler run by the consume thread: looks the callback up and hands the task to the pool. */
    method OnMessage(channel: string, payload: string)
      requires Valid() && consuming && pool_.taskMutex_.None?
      modifies this, pool_
      ensures Valid() && Model() == Apply(old(Model()), Message(channel, payload))
      ensures channel in callbacks_ ==>
                pool_.taskQueue_ == old(pool_.taskQueue_) + [P.WorkerTask(callbacks_[channel], payload)]
      ensures channel !in callbacks_ ==> pool_.taskQueue_ == old(pool_.taskQueue_)
    {
      ghost var before := Model();
      if channel in callbacks_ {
        pool_.AddTask(callbacks_[channel], payload);
      }
      Log(Arrived(channel, payload));
      TableStep(before, Message(channel, payload));
      DeliveryStep(before, Message(channel, payload), None);
    }

    /** An error other than a timeout while consuming: the thread lowers the flag and ends. */
    method OnConsumeError()
      requires Valid() && consuming
      modifies this`running_, this`consuming
      ensures Valid() && Model() == Apply(old(Model()), ConsumeError)
      ensures !running_ && !consuming && callbacks_ == old(callbacks_)
    {
      running_, consuming := false, false;
    }
  }
}
