/** The asynchronous logger at the grain of single lock, notify and wait operations: a bounded queue
    that drops its oldest message, a worker that blocks on a condition variable and takes the whole
    queue at once, and a destructor that raises the stop flag, notifies and joins. */
module AsyncLoggerModel {
  import opened Sequences

  datatype LogMessage =
    | Leveled(level: nat, message: string, context: string)
    | Named(name: string, message: string, context: string)

  /** Who holds queue_mutex_, and for a logging thread how far it has got. */
  datatype Holder =
    | Free
    | ToPush(m: LogMessage)
    | ToNotify
    | ToRelease
    | ByWorker
    | ByDestructor

  datatype Worker =
    | Starting                          // top of the loop, wants the mutex
    | Checking                          // holds the mutex, evaluates the wait predicate
    | Blocked                           // waiting for a notification
    | Notified                          // woken, wants the mutex again
    | Taking                            // holds the mutex, predicate held
    | Forwarding(rest: seq<LogMessage>) // mutex released, passing its batch on
    | Exited

  datatype Destructor = Alive | Locked | Raised | BeforeNotify | Joining | Joined

  datatype State = State(
    max: nat,
    queue: seq<LogMessage>,
    stop: bool,
    holder: Holder,
    worker: Worker,
    destructor: Destructor,
    forwarded: seq<LogMessage>,
    generations: seq<seq<LogMessage>>,  // messages logged between two takes, dropped ones included
    current: seq<LogMessage>,           // messages logged since the last take
    late: bool)                         // some message was pushed with the stop flag up

  datatype Action =
    | LogLock(m: LogMessage)
    | LogPush
    | LogNotify
    | LogRelease
    | WorkerLock
    | WorkerCheck
    | WorkerTake
    | WorkerForward
    | SpuriousWake
    | StopLock
    | StopSet
    | StopRelease
    | StopNotify
    | Join

  function Init(max: nat): State {
    State(max, [], false, Free, Starting, Alive, [], [], [], false)
  }

  predicate Enabled(s: State, a: Action) {
    match a
    case LogLock(_) => s.holder.Free?
    case LogPush => s.holder.ToPush? && s.max > 0
    case LogNotify => s.holder.ToNotify?
    case LogRelease => s.holder.ToRelease?
    case WorkerLock => s.holder.Free? && (s.worker.Starting? || s.worker.Notified?)
    case WorkerCheck => s.worker.Checking?
    case WorkerTake => s.worker.Taking?
    case WorkerForward => s.worker.Forwarding?
    case SpuriousWake => s.worker.Blocked?
    case StopLock => s.holder.Free? && s.destructor.Alive?
    case StopSet => s.destructor.Locked?
    case StopRelease => s.destructor.Raised?
    case StopNotify => s.destructor.BeforeNotify?
    case Join => s.destructor.Joining? && s.worker.Exited?
  }

  /** notify_one: wakes the worker if it is blocked, and is lost otherwise. */
  function Notify(w: Worker): Worker {
    if w.Blocked? then Notified else w
  }

  /** Pushing onto the bounded queue, the oldest message making room. */
  function Push(queue: seq<LogMessage>, max: nat, m: LogMessage): seq<LogMessage>
    requires max > 0
  {
    (if |queue| >= max then queue[1..] else queue) + [m]
  }

  function Apply(s: State, a: Action): State
    requires Enabled(s, a)
  {
    match a
    case LogLock(m) => s.(holder := ToPush(m))
    case LogPush =>
      s.(queue := Push(s.queue, s.max, s.holder.m), current := s.current + [s.holder.m],
         late := s.late || s.stop, holder := ToNotify)
    case LogNotify => s.(worker := Notify(s.worker), holder := ToRelease)
    case LogRelease => s.(holder := Free)
    case WorkerLock => s.(holder := ByWorker, worker := Checking)
    case WorkerCheck =>
      if s.queue != [] || s.stop then s.(worker := Taking)
      else s.(worker := Blocked, holder := Free)
    case WorkerTake =>
      if s.stop && s.queue == [] then s.(worker := Exited, holder := Free)
      else s.(worker := Forwarding(s.queue), queue := [], holder := Free,
              generations := s.generations + [s.current], current := [])
    case WorkerForward =>
      if s.worker.rest == [] then s.(worker := Starting)
      else s.(forwarded := s.forwarded + [s.worker.rest[0]], worker := Forwarding(s.worker.rest[1..]))
    case SpuriousWake => s.(worker := Notified)
    case StopLock => s.(holder := ByDestructor, destructor := Locked)
    case StopSet => s.(stop := true, destructor := Raised)
    case StopRelease => s.(holder := Free, destructor := BeforeNotify)
    case StopNotify => s.(worker := Notify(s.worker), destructor := Joining)
    case Join => s.(destructor := Joined)
  }

  predicate Feasible(s: State, acts: seq<Action>)
    decreases acts
  {
    acts == [] || (Enabled(s, acts[0]) && Feasible(Apply(s, acts[0]), acts[1..]))
  }

  function After(s: State, acts: seq<Action>): State
    requires Feasible(s, acts)
    decreases acts
  {
    if acts == [] then s else After(Apply(s, acts[0]), acts[1..])
  }

  lemma {:induction false} Extend(s: State, acts: seq<Action>, a: Action)
    requires Feasible(s, acts) && Enabled(After(s, acts), a)
    ensures Feasible(s, acts + [a]) && After(s, acts + [a]) == Apply(After(s, acts), a)
    decreases acts
  {
    if acts == [] {
      assert (acts + [a])[1..] == [];
    } else {
      assert (acts + [a])[1..] == acts[1..] + [a];
      Extend(Apply(s, acts[0]), acts[1..], a);
    }
  }

  // ---- invariants ----

  predicate HolderInv(s: State) {
    && (s.holder.ByWorker? <==> s.worker.Checking? || s.worker.Taking?)
    && (s.holder.ByDestructor? <==> s.destructor.Locked? || s.destructor.Raised?)
    && (s.stop <==> !s.destructor.Alive? && !s.destructor.Locked?)
    && (s.worker.Taking? ==> s.queue != [] || s.stop)
  }

  /** No wake-up is lost: a blocked worker has nothing to do, or a notification is still to come. */
  predicate WakeInv(s: State) {
    s.worker.Blocked? ==>
      || (s.queue == [] && !s.stop)
      || s.holder.ToNotify?
      || s.destructor.Raised? || s.destructor.BeforeNotify?
  }

  predicate ExitInv(s: State) {
    && (s.worker.Exited? ==> s.stop && (s.late || s.queue == []))
    && (s.destructor.Joined? ==> s.worker.Exited?)
  }

  /** The last `max` messages of each generation, in order. */
  function Retained(generations: seq<seq<LogMessage>>, max: nat): seq<LogMessage> {
    if generations == [] then []
    else Retained(generations[..|generations| - 1], max) + LastN(generations[|generations| - 1], max)
  }

  function Batch(w: Worker): seq<LogMessage> {
    if w.Forwarding? then w.rest else []
  }

  /** What has been passed on, or is about to be, is exactly what each generation retains. */
  predicate SuffixInv(s: State) {
    && s.max >= 1
    && s.queue == LastN(s.current, s.max)
    && s.forwarded + Batch(s.worker) == Retained(s.generations, s.max)
  }

  predicate Inv(s: State) {
    HolderInv(s) && WakeInv(s) && ExitInv(s) && SuffixInv(s)
  }

  lemma PushIsSuffix(current: seq<LogMessage>, max: nat, m: LogMessage)
    requires max >= 1
    ensures Push(LastN(current, max), max, m) == LastN(current + [m], max)
  {
  }

  lemma SuffixStep(s: State, a: Action)
    requires HolderInv(s) && SuffixInv(s) && Enabled(s, a)
    ensures SuffixInv(Apply(s, a))
  {
    if a.LogPush? {
      PushIsSuffix(s.current, s.max, s.holder.m);
    } else if a.WorkerTake? {
      TakeKeepsSuffix(s);
    } else if a.WorkerForward? {
      ForwardKeepsSuffix(s);
    }
  }

  lemma TakeKeepsSuffix(s: State)
    requires SuffixInv(s) && Enabled(s, WorkerTake)
    ensures SuffixInv(Apply(s, WorkerTake))
  {
    assert (s.generations + [s.current])[..|s.generations|] == s.generations;
    assert s.forwarded + [] == s.forwarded;
  }

  lemma ForwardKeepsSuffix(s: State)
    requires SuffixInv(s) && Enabled(s, WorkerForward)
    ensures SuffixInv(Apply(s, WorkerForward))
  {
    var rest := s.worker.rest;
    if rest != [] {
      assert rest == [rest[0]] + rest[1..];
      assert s.forwarded + rest == s.forwarded + [rest[0]] + rest[1..];
    }
  }

  lemma InvStep(s: State, a: Action)
    requires Inv(s) && Enabled(s, a)
    ensures Inv(Apply(s, a))
  {
    SuffixStep(s, a);
  }

  lemma {:induction false} InvAlong(s: State, acts: seq<Action>)
    requires Inv(s) && Feasible(s, acts)
    ensures Inv(After(s, acts))
    decreases acts
  {
    if acts == [] {
    } else {
      InvStep(s, acts[0]);
      InvAlong(Apply(s, acts[0]), acts[1..]);
    }
  }

  /** In every run no wake-up is lost, and a worker that has left saw the stop flag and an empty queue. */
  lemma NoLostWakeUp(max: nat, acts: seq<Action>)
    requires max >= 1 && Feasible(Init(max), acts)
    ensures var s := After(Init(max), acts); WakeInv(s) && ExitInv(s)
  {
    InvAlong(Init(max), acts);
  }

  /** The messages whose log call has pushed them, in push order. */
  function Logged(s: State): seq<LogMessage> {
    Flatten(s.generations) + s.current
  }

  /** The pushes of a run, in order. */
  function Pushes(s: State, acts: seq<Action>): seq<LogMessage>
    requires Feasible(s, acts)
    decreases acts
  {
    if acts == [] then []
    else (if acts[0].LogPush? then [s.holder.m] else []) + Pushes(Apply(s, acts[0]), acts[1..])
  }

  lemma LoggedStep(s: State, a: Action)
    requires Enabled(s, a)
    ensures Logged(Apply(s, a)) == Logged(s) + (if a.LogPush? then [s.holder.m] else [])
  {
    if a.WorkerTake? && !(s.stop && s.queue == []) {
      FlattenConcat(s.generations, [s.current]);
      assert Flatten([s.current]) == s.current + Flatten([]);
    } else if a.LogPush? {
      assert Flatten(s.generations) + (s.current + [s.holder.m]) == Flatten(s.generations) + s.current + [s.holder.m];
    }
  }

  lemma {:induction false} LoggedAlong(s: State, acts: seq<Action>)
    requires Feasible(s, acts)
    ensures Logged(After(s, acts)) == Logged(s) + Pushes(s, acts)
    decreases acts
  {
    if acts == [] {
    } else {
      LoggedStep(s, acts[0]);
      LoggedAlong(Apply(s, acts[0]), acts[1..]);
    }
  }

  /** Exact suffixes: forwarded messages, batch remainder and queue make up the last `max` messages of
      every generation of the messages pushed, in push order; the queue never exceeds the bound. */
  lemma ExactSuffixes(max: nat, acts: seq<Action>)
    requires max >= 1 && Feasible(Init(max), acts)
    ensures var s := After(Init(max), acts);
            && Flatten(s.generations) + s.current == Pushes(Init(max), acts)
            && s.forwarded + Batch(s.worker) + s.queue == Retained(s.generations + [s.current], max)
            && |s.queue| <= max
  {
    InvAlong(Init(max), acts);
    LoggedAlong(Init(max), acts);
    MaxKept(Init(max), acts);
    var s := After(Init(max), acts);
    assert (s.generations + [s.current])[..|s.generations|] == s.generations;
    assert Logged(Init(max)) == [];
  }

  lemma {:induction false} MaxKept(s: State, acts: seq<Action>)
    requires Feasible(s, acts)
    ensures After(s, acts).max == s.max
    decreases acts
  {
    if acts == [] {
    } else {
      MaxKept(Apply(s, acts[0]), acts[1..]);
    }
  }

  // ---- the destructor ----

  /** No log call is begun. */
  predicate NoLogCalls(acts: seq<Action>) {
    forall i :: 0 <= i < |acts| ==> !acts[i].LogLock?
  }

  predicate NoLogger(h: Holder) {
    !h.ToPush? && !h.ToNotify? && !h.ToRelease?
  }

  /** Steps left once the stop flag is up and nobody logs any more. */
  function Work(s: State): nat {
    6 * |s.queue|
    + (match s.worker
       case Forwarding(rest) => 5 + |rest|
       case Blocked => 5
       case Starting => 4
       case Notified => 4
       case Checking => 3
       case Taking => 2
       case Exited => 0)
    + (match s.destructor
       case Alive => 5
       case Locked => 4
       case Raised => 3
       case BeforeNotify => 2
       case Joining => 1
       case Joined => 0)
  }

  /** The messages that still have to be, or have been, passed on. */
  function Pipeline(s: State): seq<LogMessage> {
    s.forwarded + Batch(s.worker) + s.queue
  }

  predicate Stopping(s: State) {
    Inv(s) && s.stop && NoLogger(s.holder)
  }

  lemma StoppingStep(s: State, a: Action)
    requires Stopping(s) && Enabled(s, a) && !a.LogLock?
    ensures Stopping(Apply(s, a)) && Work(Apply(s, a)) < Work(s)
    ensures Pipeline(Apply(s, a)) == Pipeline(s) && Apply(s, a).late == s.late
  {
    InvStep(s, a);
    WorkShrinks(s, a);
    PipelineKept(s, a);
  }

  lemma WorkShrinks(s: State, a: Action)
    requires HolderInv(s) && s.stop && NoLogger(s.holder) && Enabled(s, a) && !a.LogLock?
    ensures Work(Apply(s, a)) < Work(s)
  {
  }

  lemma PipelineKept(s: State, a: Action)
    requires HolderInv(s) && s.stop && NoLogger(s.holder) && Enabled(s, a) && !a.LogLock?
    ensures Pipeline(Apply(s, a)) == Pipeline(s)
  {
    if a.WorkerForward? && s.worker.rest != [] {
      var rest := s.worker.rest;
      assert rest == [rest[0]] + rest[1..];
      assert s.forwarded + rest == s.forwarded + [rest[0]] + rest[1..];
    } else if a.WorkerTake? {
      assert s.forwarded + [] + s.queue == s.forwarded + s.queue + [];
    } else {
      assert Batch(Apply(s, a).worker) == Batch(s.worker);
    }
  }

  /** Until the join is through, somebody can move: the destructor, or else the worker. */
  lemma StoppingProgress(s: State)
    requires Stopping(s) && !s.destructor.Joined?
    ensures exists a :: Enabled(s, a) && !a.LogLock?
  {
    match s.destructor {
      case Raised => assert Enabled(s, StopRelease);
      case BeforeNotify => assert Enabled(s, StopNotify);
      case Joining =>
        match s.worker {
          case Starting => assert Enabled(s, WorkerLock);
          case Notified => assert Enabled(s, WorkerLock);
          case Checking => assert Enabled(s, WorkerCheck);
          case Taking => assert Enabled(s, WorkerTake);
          case Forwarding(_) => assert Enabled(s, WorkerForward);
          case Exited => assert Enabled(s, Join);
          case Blocked => assert false;
        }
    }
  }

  lemma {:induction false} StoppingAlong(s: State, acts: seq<Action>)
    requires Stopping(s) && Feasible(s, acts) && NoLogCalls(acts)
    ensures Stopping(After(s, acts)) && Work(After(s, acts)) + |acts| <= Work(s)
    ensures Pipeline(After(s, acts)) == Pipeline(s) && After(s, acts).late == s.late
    decreases acts
  {
    if acts == [] {
    } else {
      StoppingStep(s, acts[0]);
      assert forall i :: 0 <= i < |acts[1..]| ==> acts[1..][i] == acts[i + 1];
      StoppingAlong(Apply(s, acts[0]), acts[1..]);
    }
  }

  /** The destructor returns and loses nothing: from the raising of the stop flag on, without further
      log calls, every run is of bounded length, only stops once the worker is joined, and then
      everything that was in the batch and in the queue has been forwarded in order. */
  lemma DestructorDrains(max: nat, acts: seq<Action>, more: seq<Action>)
    requires max >= 1 && Feasible(Init(max), acts)
    requires Enabled(After(Init(max), acts), StopSet)
    requires Feasible(Apply(After(Init(max), acts), StopSet), more) && NoLogCalls(more)
    ensures var s := Apply(After(Init(max), acts), StopSet);
            var t := After(s, more);
            && |more| <= Work(s)
            && (!t.destructor.Joined? ==> exists a :: Enabled(t, a) && !a.LogLock?)
            && (t.destructor.Joined? ==> t.queue == [] && t.forwarded == s.forwarded + Batch(s.worker) + s.queue)
  {
    InvAlong(Init(max), acts);
    var s0 := After(Init(max), acts);
    InvStep(s0, StopSet);
    var s := Apply(s0, StopSet);
    NotLate(Init(max), acts);
    StoppingAlong(s, more);
    var t := After(s, more);
    if !t.destructor.Joined? {
      StoppingProgress(t);
    } else {
      assert t.worker.Exited? && t.queue == [];
      assert t.forwarded + [] + [] == t.forwarded;
    }
  }

  lemma {:induction false} NotLate(s: State, acts: seq<Action>)
    requires Inv(s) && !s.late && Feasible(s, acts) && !After(s, acts).stop
    ensures !After(s, acts).late
    decreases acts
  {
    if acts == [] {
    } else {
      InvStep(s, acts[0]);
      if s.stop {
        StopStays(s, acts);
      }
      NotLate(Apply(s, acts[0]), acts[1..]);
    }
  }

  lemma {:induction false} StopStays(s: State, acts: seq<Action>)
    requires Feasible(s, acts) && s.stop
    ensures After(s, acts).stop
    decreases acts
  {
    if acts == [] {
    } else {
      StopStays(Apply(s, acts[0]), acts[1..]);
    }
  }
}
