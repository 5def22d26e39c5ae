/** The asynchronous logger as an object: its three kinds of thread change the shared fields in place,
    with the steps of the others falling in between. Each method extends a run of the transition system. */
module AsyncLoggerObject {
  import opened Sequences
  import opened AsyncLoggerModel

  type Schedule = nat -> seq<Action>

  /** A log call, the worker thread, and the destructor. */
  datatype Thread = Logging | Processing | Destroying

  predicate By(me: Thread, a: Action) {
    match me
    case Logging => a.LogLock? || a.LogPush? || a.LogNotify? || a.LogRelease?
    case Processing => a.WorkerLock? || a.WorkerCheck? || a.WorkerTake? || a.WorkerForward?
    case Destroying => a.StopLock? || a.StopSet? || a.StopRelease? || a.StopNotify? || a.Join?
  }

  function IsBy(me: Thread): Action -> bool {
    (a: Action) => By(me, a)
  }

  /** The steps of one thread, in order. */
  function Steps(me: Thread, acts: seq<Action>): seq<Action> {
    Filter(acts, IsBy(me))
  }

  lemma StepsExtend(me: Thread, before: seq<Action>, run: seq<Action>, a: Action)
    requires before <= run
    ensures Steps(me, (run + [a])[|before|..]) == Steps(me, run[|before|..]) + (if By(me, a) then [a] else [])
  {
    assert (run + [a])[|before|..] == run[|before|..] + [a];
    FilterAppend(run[|before|..], a, IsBy(me));
  }

  /** What a thread relies on: a log call keeps the mutex, the worker can only be woken and is alone in
      forwarding, and the destructor moves by itself. */
  predicate Undisturbed(me: Thread, s: State, t: State) {
    match me
    case Logging => !NoLogger(s.holder) ==> t.holder == s.holder
    case Processing =>
      && (t.worker == s.worker || (s.worker.Blocked? && t.worker.Notified?))
      && t.forwarded == s.forwarded
    case Destroying => t.destructor == s.destructor && (s.stop ==> t.stop)
  }

  lemma OthersLeave(me: Thread, s: State, a: Action)
    requires Inv(s) && Enabled(s, a) && !By(me, a)
    ensures Undisturbed(me, s, Apply(s, a))
  {
  }

  /** How a round of the worker loop went. */
  datatype Round =
    | Blocks                                // nothing to do: waits again
    | Forwards(batch: seq<LogMessage>)      // takes the queue and passes it on
    | Returns                               // the flag is up and the queue empty

  /** A round from the moment the wait predicate holds: the last look at the batch finds it empty. */
  function TakeSteps(r: Round): seq<Action> {
    match r
    case Blocks => []
    case Forwards(batch) => [WorkerTake] + seq(|batch| + 1, _ => WorkerForward)
    case Returns => [WorkerTake]
  }

  function RoundSteps(r: Round): seq<Action> {
    [WorkerLock, WorkerCheck] + TakeSteps(r)
  }

  function WorkerSteps(rounds: seq<Round>): seq<Action> {
    if rounds == [] then [] else WorkerSteps(rounds[..|rounds| - 1]) + RoundSteps(rounds[|rounds| - 1])
  }

  function BatchOf(r: Round): seq<LogMessage> {
    if r.Forwards? then r.batch else []
  }

  /** What the rounds passed on. */
  function Passed(rounds: seq<Round>): seq<LogMessage> {
    if rounds == [] then [] else Passed(rounds[..|rounds| - 1]) + BatchOf(rounds[|rounds| - 1])
  }

  lemma PassedOn(start: seq<LogMessage>, rounds: seq<Round>, round: Round)
    ensures start + Passed(rounds + [round]) == start + Passed(rounds) + BatchOf(round)
  {
    assert (rounds + [round])[..|rounds|] == rounds;
  }

  class AsyncLogger {
    var message_queue_: seq<LogMessage>
    var stop_thread_: bool
    var queue_mutex_: Holder
    var worker_thread_: Worker
    var destructor: Destructor
    const max_queue_size_: nat
    // what the base logger has received, and histories
    var forwarded: seq<LogMessage>
    var generations: seq<seq<LogMessage>>
    var current: seq<LogMessage>
    var late: bool
    ghost var trace: seq<Action>

    function Model(): State
      reads this
    {
      State(max_queue_size_, message_queue_, stop_thread_, queue_mutex_, worker_thread_, destructor,
            forwarded, generations, current, late)
    }

    ghost predicate Valid()
      reads this
    {
      && max_queue_size_ >= 1
      && Feasible(Init(max_queue_size_), trace) && After(Init(max_queue_size_), trace) == Model()
    }

    ghost method Record(before: State, a: Action)
      requires max_queue_size_ >= 1
      requires Feasible(Init(max_queue_size_), trace) && After(Init(max_queue_size_), trace) == before
      requires Enabled(before, a) && Model() == Apply(before, a)
      modifies this`trace
      ensures Valid() && trace == old(trace) + [a]
    {
      Extend(Init(max_queue_size_), trace, a);
      trace := trace + [a];
    }

    lemma Known()
      requires Valid()
      ensures Inv(Model())
    {
      InvAlong(Init(max_queue_size_), trace);
    }

    /** An empty queue, and the worker thread started. */
    constructor (max: nat)
      requires max >= 1
      ensures Valid() && trace == [] && Model() == Init(max)
    {
      message_queue_, stop_thread_, queue_mutex_ := [], false, Free;
      worker_thread_, destructor, max_queue_size_ := Starting, Alive, max;
      forwarded, generations, current, late := [], [], [], false;
      trace := [];
    }

    // ---- single operations on the shared state ----

    method Step(a: Action)
      requires Valid() && Enabled(Model(), a)
      modifies this
      ensures Valid() && trace == old(trace) + [a] && Model() == Apply(old(Model()), a)
      ensures Pushes(Init(max_queue_size_), trace)
              == Pushes(Init(max_queue_size_), old(trace)) + (if a.LogPush? then [old(queue_mutex_).m] else [])
    {
      PushesAppend(Init(max_queue_size_), trace, a);
      ghost var before := Model();
      Do(a);
      Record(before, a);
    }

    /** The operation itself. */
    method Do(a: Action)
      requires max_queue_size_ >= 1 && Enabled(Model(), a)
      modifies this`message_queue_, this`stop_thread_, this`queue_mutex_, this`worker_thread_, this`destructor
      modifies this`forwarded, this`generations, this`current, this`late
      ensures Model() == Apply(old(Model()), a)
    {
      match a {
        case LogLock(m) => queue_mutex_ := ToPush(m);
        case LogPush => PushLocked(queue_mutex_.m);
        case LogNotify => NotifyOne(); queue_mutex_ := ToRelease;
        case LogRelease => queue_mutex_ := Free;
        case WorkerLock => queue_mutex_, worker_thread_ := ByWorker, Checking;
        case WorkerCheck =>
          if message_queue_ != [] || stop_thread_ {
            worker_thread_ := Taking;
          } else {
            worker_thread_, queue_mutex_ := Blocked, Free;
          }
        case WorkerTake =>
          if stop_thread_ && message_queue_ == [] {
            worker_thread_ := Exited;
          } else {
            worker_thread_ := Forwarding(message_queue_);
            message_queue_ := [];
            generations, current := generations + [current], [];
          }
          queue_mutex_ := Free;
        case WorkerForward =>
          var rest := worker_thread_.rest;
          if rest == [] {
            worker_thread_ := Starting;
          } else {
            forwarded := forwarded + [rest[0]];
            worker_thread_ := Forwarding(rest[1..]);
          }
        case SpuriousWake => worker_thread_ := Notified;
        case StopLock => queue_mutex_, destructor := ByDestructor, Locked;
        case StopSet => stop_thread_, destructor := true, Raised;
        case StopRelease => queue_mutex_, destructor := Free, BeforeNotify;
        case StopNotify => NotifyOne(); destructor := Joining;
        case Join => destructor := Joined;
      }
    }

    /** Drops the oldest message of a full queue, then appends. */
    method PushLocked(m: LogMessage)
      requires max_queue_size_ >= 1
      modifies this`message_queue_, this`current, this`late, this`queue_mutex_
      ensures message_queue_ == Push(old(message_queue_), max_queue_size_, m)
      ensures current == old(current) + [m] && late == (old(late) || stop_thread_) && queue_mutex_ == ToNotify
    {
      if |message_queue_| >= max_queue_size_ {
        message_queue_ := message_queue_[1..];
      }
      message_queue_ := message_queue_ + [m];
      current := current + [m];
      late := late || stop_thread_;
      queue_mutex_ := ToNotify;
    }

    method NotifyOne()
      modifies this`worker_thread_
      ensures worker_thread_ == Notify(old(worker_thread_))
    {
      if worker_thread_.Blocked? {
        worker_thread_ := Notified;
      }
    }

    /** Any steps of any threads; those that are not enabled are skipped. */
    method Meanwhile(steps: seq<Action>)
      requires Valid()
      modifies this
      ensures Valid() && old(trace) <= trace
    {
      for n := 0 to |steps|
        invariant Valid() && old(trace) <= trace
      {
        if Enabled(Model(), steps[n]) {
          Step(steps[n]);
        }
      }
    }

    /** The run since `before` is an extension in which `me` took exactly the steps `mine`. */
    ghost predicate Since(before: seq<Action>, me: Thread, mine: seq<Action>)
      reads this
    {
      Valid() && before <= trace && Steps(me, trace[|before|..]) == mine
    }

    ghost function Pushed(): seq<LogMessage>
      requires Valid()
      reads this
    {
      Pushes(Init(max_queue_size_), trace)
    }

    /** What the other threads do while `me` can be preempted. */
    method Interfere(me: Thread, steps: seq<Action>, ghost before: seq<Action>, ghost mine: seq<Action>)
      requires Since(before, me, mine)
      modifies this
      ensures Since(before, me, mine) && Undisturbed(me, old(Model()), Model())
      ensures me.Logging? ==> Pushed() == old(Pushed())
    {
      for n := 0 to |steps|
        invariant Since(before, me, mine) && Undisturbed(me, old(Model()), Model())
        invariant me.Logging? ==> Pushed() == old(Pushed())
      {
        if !By(me, steps[n]) && Enabled(Model(), steps[n]) {
          Known();
          OthersLeave(me, Model(), steps[n]);
          StepsExtend(me, before, trace, steps[n]);
          Step(steps[n]);
        }
      }
    }

    /** A step of the thread itself. */
    method Take(me: Thread, a: Action, ghost before: seq<Action>, ghost mine: seq<Action>)
      requires Since(before, me, mine) && By(me, a) && Enabled(Model(), a)
      modifies this
      ensures Since(before, me, mine + [a]) && Model() == Apply(old(Model()), a)
      ensures me.Logging? ==> Pushed() == old(Pushed()) + (if a.LogPush? then [old(queue_mutex_).m] else [])
    {
      StepsExtend(me, before, trace, a);
      Step(a);
    }

    /** The steps up to the run `run`, and those since. */
    lemma Onward(me: Thread, before: seq<Action>, run: seq<Action>, mine: seq<Action>, more: seq<Action>)
      requires before <= run && Steps(me, run[|before|..]) == mine && Since(run, me, more)
      ensures Since(before, me, mine + more)
    {
      assert trace[|before|..] == run[|before|..] + trace[|run|..];
      FilterConcat(run[|before|..], trace[|run|..], IsBy(me));
    }

    // ---- the calls ----

    /** log: from the run `start` in which it gets the mutex, lock, push, notify and release are the only
        steps of any log call, and the message is the only one pushed. It stops before that only where
        it waits for the mutex. */
    method Log(m: LogMessage, env: Schedule) returns (blocked: bool, ghost start: seq<Action>)
      requires Valid()
      modifies this
      ensures old(trace) <= start && Feasible(Init(max_queue_size_), start)
      ensures Since(start, Logging, if blocked then [] else [LogLock(m), LogPush, LogNotify, LogRelease])
      ensures blocked ==> !queue_mutex_.Free?
      ensures !blocked ==> Pushed() == Pushes(Init(max_queue_size_), start) + [m]
    {
      Meanwhile(env(0));
      start := trace;
      blocked := !queue_mutex_.Free?;
      if !blocked {
        LogLocked(m, env);
      }
    }

    /** A log call that gets the mutex. */
    method LogLocked(m: LogMessage, env: Schedule)
      requires Valid() && queue_mutex_.Free?
      modifies this
      ensures Since(old(trace), Logging, [LogLock(m), LogPush, LogNotify, LogRelease])
      ensures Pushed() == old(Pushed()) + [m]
    {
      ghost var before := trace;
      PushUnderLock(m, env(1));
      ghost var run := trace;
      NotifyAndRelease(env(2), env(3));
      Onward(Logging, before, run, [LogLock(m), LogPush], [LogNotify, LogRelease]);
    }

    method PushUnderLock(m: LogMessage, others: seq<Action>)
      requires Valid() && queue_mutex_.Free?
      modifies this
      ensures Since(old(trace), Logging, [LogLock(m), LogPush]) && queue_mutex_ == ToNotify
      ensures Pushed() == old(Pushed()) + [m]
    {
      ghost var before := trace;
      Take(Logging, LogLock(m), before, []);
      Interfere(Logging, others, before, [LogLock(m)]);
      Take(Logging, LogPush, before, [LogLock(m)]);
    }

    method NotifyAndRelease(first: seq<Action>, second: seq<Action>)
      requires Valid() && queue_mutex_ == ToNotify
      modifies this
      ensures Since(old(trace), Logging, [LogNotify, LogRelease]) && Pushed() == old(Pushed())
    {
      ghost var before := trace;
      Interfere(Logging, first, before, []);
      Take(Logging, LogNotify, before, []);
      Interfere(Logging, second, before, [LogNotify]);
      Take(Logging, LogRelease, before, [LogNotify]);
    }

    /** The worker waits for the mutex or for a notification. */
    predicate AwaitingWork()
      reads this
    {
      !queue_mutex_.Free? || worker_thread_.Blocked?
    }

    /** The worker thread, cut off after `fuel` rounds: its own steps are those of its rounds, and the
        base logger receives their batches and nothing else. It stops short of returning only out of
        rounds or where it waits. It returns in its last round, and only with the stop flag up and,
        unless messages came late, an empty queue. */
    method ProcessLogs(env: nat -> Schedule, fuel: nat) returns (left: bool, ghost rounds: seq<Round>)
      requires Valid() && worker_thread_.Starting?
      modifies this
      ensures Since(old(trace), Processing, WorkerSteps(rounds))
      ensures forwarded == old(forwarded) + Passed(rounds)
      ensures forall i :: 0 <= i < |rounds| ==> (rounds[i].Returns? <==> left && i == |rounds| - 1)
      ensures !left ==> |rounds| == fuel || AwaitingWork()
      ensures left ==> rounds != [] && worker_thread_.Exited? && stop_thread_ && (late || message_queue_ == [])
    {
      ghost var before, start := trace, forwarded;
      left, rounds := false, [];
      var n := 0;
      while n < fuel
        invariant Since(before, Processing, WorkerSteps(rounds)) && n == |rounds| <= fuel
        invariant forwarded == start + Passed(rounds)
        invariant BetweenRounds() && forall i :: 0 <= i < n ==> !rounds[i].Returns?
      {
        ghost var run := trace;
        ghost var round;
        var waits;
        waits, left, round := WaitAndRound(env(n));
        if waits {
          Onward(Processing, before, run, WorkerSteps(rounds), []);
          return;
        }
        AnotherRound(before, run, rounds, round);
        PassedOn(start, rounds, round);
        n, rounds := n + 1, rounds + [round];
        if left { return; }
      }
    }

    lemma AnotherRound(before: seq<Action>, run: seq<Action>, rounds: seq<Round>, round: Round)
      requires before <= run && Steps(Processing, run[|before|..]) == WorkerSteps(rounds)
      requires Since(run, Processing, RoundSteps(round))
      ensures Since(before, Processing, WorkerSteps(rounds + [round]))
    {
      assert (rounds + [round])[..|rounds|] == rounds;
      Onward(Processing, before, run, WorkerSteps(rounds), RoundSteps(round));
    }

    /** A round, once the worker gets the mutex. */
    method WaitAndRound(env: Schedule) returns (waits: bool, left: bool, ghost round: Round)
      requires Valid() && BetweenRounds()
      modifies this
      ensures Since(old(trace), Processing, if waits then [] else RoundSteps(round))
      ensures if waits then !left && AwaitingWork() && forwarded == old(forwarded)
              else (left <==> round.Returns?) && forwarded == old(forwarded) + BatchOf(round)
      ensures if left then worker_thread_.Exited? && stop_thread_ && (late || message_queue_ == []) else BetweenRounds()
    {
      ghost var before := trace;
      Interfere(Processing, env(0), before, []);
      waits, left, round := AwaitingWork(), false, Blocks;
      if !waits {
        ghost var run := trace;
        left, round := LockedRound(env);
        Onward(Processing, before, run, [], RoundSteps(round));
      }
    }

    predicate BetweenRounds()
      reads this
    {
      worker_thread_.Starting? || worker_thread_.Notified? || worker_thread_.Blocked?
    }

    /** Under the mutex: block again, leave, or take the whole queue and forward it. */
    method LockedRound(env: Schedule) returns (left: bool, ghost round: Round)
      requires Valid() && queue_mutex_.Free? && (worker_thread_.Starting? || worker_thread_.Notified?)
      modifies this
      ensures Since(old(trace), Processing, RoundSteps(round)) && forwarded == old(forwarded) + BatchOf(round)
      ensures left <==> round.Returns?
      ensures if left then worker_thread_.Exited? && stop_thread_ && (late || message_queue_ == []) else BetweenRounds()
    {
      ghost var before := trace;
      left, round := false, Blocks;
      assert forwarded + [] == forwarded;
      var work := CheckUnderLock(env(1));
      if work {
        ghost var run := trace;
        left, round := TakeAndForward(env);
        Onward(Processing, before, run, [WorkerLock, WorkerCheck], TakeSteps(round));
      }
    }

    /** Evaluates the wait predicate; if it does not hold the worker blocks and frees the mutex. */
    method CheckUnderLock(others: seq<Action>) returns (work: bool)
      requires Valid() && queue_mutex_.Free? && (worker_thread_.Starting? || worker_thread_.Notified?)
      modifies this
      ensures Since(old(trace), Processing, [WorkerLock, WorkerCheck]) && forwarded == old(forwarded)
      ensures if work then worker_thread_.Taking? else worker_thread_.Blocked?
    {
      ghost var before := trace;
      Take(Processing, WorkerLock, before, []);
      Interfere(Processing, others, before, [WorkerLock]);
      Take(Processing, WorkerCheck, before, [WorkerLock]);
      work := worker_thread_.Taking?;
    }

    method TakeAndForward(env: Schedule) returns (left: bool, ghost round: Round)
      requires Valid() && worker_thread_.Taking?
      modifies this
      ensures Since(old(trace), Processing, TakeSteps(round)) && forwarded == old(forwarded) + BatchOf(round)
      ensures !round.Blocks? && (left <==> round.Returns?)
      ensures if left then worker_thread_.Exited? && stop_thread_ && (late || message_queue_ == []) else BetweenRounds()
    {
      ghost var before := trace;
      left := TakeQueue(env(2));
      round := Returns;
      assert forwarded + [] == forwarded;
      if !left {
        round := Forwards(worker_thread_.rest);
        ghost var run := trace;
        ForwardAll(env);
        Onward(Processing, before, run, [WorkerTake], seq(|round.batch| + 1, _ => WorkerForward));
      }
    }

    /** Leaves, or moves the whole queue into the batch. */
    method TakeQueue(others: seq<Action>) returns (left: bool)
      requires Valid() && worker_thread_.Taking?
      modifies this
      ensures Since(old(trace), Processing, [WorkerTake]) && forwarded == old(forwarded)
      ensures if left then worker_thread_.Exited? && stop_thread_ && (late || message_queue_ == [])
              else worker_thread_.Forwarding?
    {
      ghost var before := trace;
      Interfere(Processing, others, before, []);
      Take(Processing, WorkerTake, before, []);
      left := worker_thread_.Exited?;
      Known();
    }

    /** Hands every message of the batch to the base logger, in order. */
    method ForwardAll(env: Schedule)
      requires Valid() && worker_thread_.Forwarding?
      modifies this
      ensures Since(old(trace), Processing, seq(|old(worker_thread_).rest| + 1, _ => WorkerForward))
      ensures worker_thread_.Starting? && forwarded == old(forwarded) + old(worker_thread_).rest
    {
      ghost var before, start := trace, forwarded;
      ghost var batch := worker_thread_.rest;
      var n := 0;
      while worker_thread_.rest != []
        invariant Since(before, Processing, seq(n, _ => WorkerForward)) && worker_thread_.Forwarding?
        invariant n + |worker_thread_.rest| == |batch| && forwarded + worker_thread_.rest == start + batch
        decreases |worker_thread_.rest|
      {
        Interfere(Processing, env(n + 3), before, seq(n, _ => WorkerForward));
        ghost var rest := worker_thread_.rest;
        assert rest == [rest[0]] + rest[1..];
        assert forwarded + rest == forwarded + [rest[0]] + rest[1..];
        Take(Processing, WorkerForward, before, seq(n, _ => WorkerForward));
        n := n + 1;
      }
      Interfere(Processing, env(n + 3), before, seq(n, _ => WorkerForward));
      assert forwarded + [] == forwarded;
      Take(Processing, WorkerForward, before, seq(n, _ => WorkerForward));
    }

    /** The destructor: its steps are lock, raise, release, notify and join. It stops short of the end only
        where it waits for the mutex, or for the worker with the flag already up. Once its join is
        through, and if no message came late, the queue is empty and the base logger has received the
        last messages of every generation, of all that were pushed. */
    method Destroy(env: Schedule) returns (blocked: bool)
      requires Valid() && destructor.Alive?
      modifies this
      ensures blocked ==>
                || (Since(old(trace), Destroying, []) && destructor.Alive? && !queue_mutex_.Free?)
                || (Since(old(trace), Destroying, [StopLock, StopSet, StopRelease, StopNotify])
                    && destructor.Joining? && stop_thread_ && !worker_thread_.Exited?)
      ensures !blocked ==>
                && Since(old(trace), Destroying, [StopLock, StopSet, StopRelease, StopNotify, Join])
                && destructor.Joined? && worker_thread_.Exited?
      ensures !blocked && !late ==>
                && message_queue_ == []
                && forwarded == Retained(generations, max_queue_size_)
                && Flatten(generations) == Pushes(Init(max_queue_size_), trace)
    {
      ghost var before := trace;
      Interfere(Destroying, env(0), before, []);
      blocked := !queue_mutex_.Free?;
      if blocked { return; }
      ghost var run := trace;
      RaiseStop(env);
      Onward(Destroying, before, run, [], [StopLock, StopSet, StopRelease, StopNotify]);
      Interfere(Destroying, env(4), before, [StopLock, StopSet, StopRelease, StopNotify]);
      blocked := !worker_thread_.Exited?;
      if blocked { return; }
      Take(Destroying, Join, before, [StopLock, StopSet, StopRelease, StopNotify]);
      AtJoin();
    }

    /** Raises the flag under the mutex, then notifies. */
    method RaiseStop(env: Schedule)
      requires Valid() && destructor.Alive? && queue_mutex_.Free?
      modifies this
      ensures Since(old(trace), Destroying, [StopLock, StopSet, StopRelease, StopNotify])
      ensures destructor.Joining? && stop_thread_
    {
      ghost var before := trace;
      Take(Destroying, StopLock, before, []);
      StopOn(StopSet, env(1), before, [StopLock]);
      ghost var run := trace;
      ReleaseAndNotify(env(2), env(3));
      Onward(Destroying, before, run, [StopLock, StopSet], [StopRelease, StopNotify]);
    }

    method ReleaseAndNotify(first: seq<Action>, second: seq<Action>)
      requires Valid() && destructor.Raised? && stop_thread_
      modifies this
      ensures Since(old(trace), Destroying, [StopRelease, StopNotify]) && destructor.Joining? && stop_thread_
    {
      ghost var before := trace;
      StopOn(StopRelease, first, before, []);
      StopOn(StopNotify, second, before, [StopRelease]);
    }

    /** The next step of the destructor after getting the mutex. */
    method StopOn(a: Action, others: seq<Action>, ghost before: seq<Action>, ghost mine: seq<Action>)
      requires Since(before, Destroying, mine) && (a.StopSet? || a.StopRelease? || a.StopNotify?) && Enabled(Model(), a)
      modifies this
      ensures Since(before, Destroying, mine + [a])
      ensures destructor == if a.StopSet? then Raised else if a.StopRelease? then BeforeNotify else Joining
      ensures a.StopSet? || old(stop_thread_) ==> stop_thread_
    {
      Interfere(Destroying, others, before, mine);
      Take(Destroying, a, before, mine);
    }

    lemma AtJoin()
      requires Valid() && worker_thread_.Exited?
      ensures !late ==>
                && message_queue_ == []
                && forwarded == Retained(generations, max_queue_size_)
                && Flatten(generations) == Pushes(Init(max_queue_size_), trace)
    {
      if !late {
        Known();
        ExactSuffixes(max_queue_size_, trace);
        assert current == [] && Flatten(generations) + [] == Flatten(generations);
        assert forwarded + [] == forwarded;
      }
    }
  }

  lemma {:induction false} PushesAppend(s: State, acts: seq<Action>, a: Action)
    requires Feasible(s, acts) && Enabled(After(s, acts), a)
    ensures Feasible(s, acts + [a])
    ensures Pushes(s, acts + [a]) == Pushes(s, acts) + (if a.LogPush? then [After(s, acts).holder.m] else [])
    decreases acts
  {
    Extend(s, acts, a);
    if acts == [] {
      assert acts + [a] == [a] && [a][1..] == [];
    } else {
      assert (acts + [a])[1..] == acts[1..] + [a];
      Extend(Apply(s, acts[0]), acts[1..], a);
      PushesAppend(Apply(s, acts[0]), acts[1..], a);
    }
  }
}
