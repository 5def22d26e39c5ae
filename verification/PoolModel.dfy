/** The dynamic thread pool as a transition system under an arbitrary scheduler.

    One action is one atomic load, store or compare-and-swap, or one critical
    section of `taskMutex_` that contains at most one of those.  A worker that
    keeps the mutex over several atomics is shown as the mutex holder. */
module PoolModel {
  import opened Sequences

  /** A queued task: which function, applied to which payload. */
  datatype WorkerTask = WorkerTask(task: nat, payload: string)

  const UINT_MODULUS: nat := 0x1_0000_0000

  /** The conversion to a 32-bit unsigned argument of a policy. */
  function AsUint(n: int): nat {
    n % UINT_MODULUS
  }

  type Policy = (nat, nat) -> bool

  /** A scaling pair with thresholds and a cap, in 32-bit arithmetic. */
  predicate ScaleUpAt(up: nat, cap: nat, queueSize: nat, workerCount: nat) {
    queueSize > AsUint(up * workerCount) && workerCount < cap
  }

  predicate ScaleDownAt(down: nat, queueSize: nat, workerCount: nat) {
    queueSize < AsUint(down * workerCount) && workerCount > 1
  }

  predicate DefaultScaleUp(queueSize: nat, workerCount: nat) {
    ScaleUpAt(10, 10, queueSize, workerCount)
  }

  predicate DefaultScaleDown(queueSize: nat, workerCount: nat) {
    ScaleDownAt(3, queueSize, workerCount)
  }

  type pos = n: nat | n > 0 witness 1

  /** Why a worker left its loop; `pass` is the manager pass in which it won a token. */
  datatype Reason = ByToken(pass: nat) | ByShutdown

  datatype WorkerPc =
    | Waiting                       // in the condition-variable wait
    | Woken                         // predicate held; about to load killThread
    | AtCas(seen: pos)              // about to compare-and-swap killThread
    | Deciding                      // about to load running_, then pop, leave or loop
    | Executing(job: WorkerTask)    // mutex released, running the task
    | Storing(reason: Reason)       // about to store finished
    | Stored(reason: Reason)        // finished is set, mutex not yet released
    | Exited(reason: Reason)        // thread function returned
    | Joined(reason: Reason)        // reaped by the manager

  datatype ManagerPc =
    | LoopTest                      // while (running_)
    | Sampling                      // reading the queue size under the mutex
    | UpTest                        // consulting scaleUp
    | DownTest                      // consulting scaleDown
    | LoadingKill
    | AtKillCas                     // loaded 0, about to swap in 1
    | Reaping(next: nat, drain: bool)
    | Joining(at: nat, drain: bool)
    | DrainTest                     // while (workerCount)
    | Returned

  /** Shared and thread-local state, with the histories the properties speak of. */
  datatype State = State(
    running: bool,
    killThread: nat,
    queue: seq<WorkerTask>,
    mutex: Option<nat>,
    workers: seq<WorkerPc>,         // every thread ever spawned
    pool: seq<nat>,                 // the manager's vector, as indices into `workers`
    workerCount: int,
    queueSize: nat,
    manager: ManagerPc,
    scaleUp: Policy,
    scaleDown: Policy,
    submitted: seq<WorkerTask>,
    popped: seq<WorkerTask>,
    completed: seq<WorkerTask>,
    issued: nat,                    // kill tokens issued so far
    passes: nat,                    // manager passes that sampled the queue
    late: bool)                     // some addTask followed running_ = false

  datatype Action =
    | AddTask(t: WorkerTask)
    | SetScaleUp(policy: Policy)
    | SetScaleDown(policy: Policy)
    | Shutdown
    | Wake(id: nat)
    | LoadKill(id: nat)
    | CasKill(id: nat, spurious: bool)
    | Decide(id: nat)
    | Complete(id: nat, threw: bool)
    | StoreFinished(id: nat)
    | Leave(id: nat)
    | TestRunning
    | Sample
    | TestUp
    | TestDown
    | LoadToken
    | IssueToken(spurious: bool)
    | Scan
    | Join
    | TestDrained

  /** The state the constructor leaves: started, default policies, no worker. */
  function Init(): State {
    State(true, 0, [], None, [], [], 0, 0, LoopTest, DefaultScaleUp, DefaultScaleDown,
          [], [], [], 0, 0, false)
  }

  predicate Finished(pc: WorkerPc) {
    pc.Stored? || pc.Exited? || pc.Joined?
  }

  /** The wait predicate of a worker. */
  predicate WaitPredicate(s: State) {
    s.queue != [] || !s.running || s.killThread > 0
  }

  predicate At(s: State, id: nat) {
    id < |s.workers|
  }

  predicate Enabled(s: State, a: Action) {
    match a
    case AddTask(_) => s.mutex.None?
    case SetScaleUp(_) => s.mutex.None?
    case SetScaleDown(_) => s.mutex.None?
    case Shutdown => true
    case Wake(id) => At(s, id) && s.workers[id].Waiting? && s.mutex.None? && WaitPredicate(s)
    case LoadKill(id) => At(s, id) && s.workers[id].Woken?
    case CasKill(id, _) => At(s, id) && s.workers[id].AtCas?
    case Decide(id) => At(s, id) && s.workers[id].Deciding?
    case Complete(id, _) => At(s, id) && s.workers[id].Executing?
    case StoreFinished(id) => At(s, id) && s.workers[id].Storing?
    case Leave(id) => At(s, id) && s.workers[id].Stored?
    case TestRunning => s.manager.LoopTest?
    case Sample => s.manager.Sampling? && s.mutex.None?
    case TestUp => s.manager.UpTest?
    case TestDown => s.manager.DownTest?
    case LoadToken => s.manager.LoadingKill?
    case IssueToken(_) => s.manager.AtKillCas?
    case Scan =>
      && s.manager.Reaping?
      && s.manager.next <= |s.pool|
      && (s.manager.next < |s.pool| ==> At(s, s.pool[s.manager.next]))
    case Join =>
      && s.manager.Joining?
      && s.manager.at < |s.pool|
      && At(s, s.pool[s.manager.at])
      && s.workers[s.pool[s.manager.at]].Exited?
    case TestDrained => s.manager.DrainTest?
  }

  function Move(s: State, id: nat, pc: WorkerPc): State
    requires At(s, id)
  {
    s.(workers := s.workers[id := pc])
  }

  function Apply(s: State, a: Action): State
    requires Enabled(s, a)
  {
    match a
    case AddTask(t) =>
      s.(queue := s.queue + [t], submitted := s.submitted + [t], late := s.late || !s.running)
    case SetScaleUp(policy) => s.(scaleUp := policy)
    case SetScaleDown(policy) => s.(scaleDown := policy)
    case Shutdown => s.(running := false)
    case Wake(id) => Move(s, id, Woken).(mutex := Some(id))
    case LoadKill(id) => Move(s, id, if s.killThread > 0 then AtCas(s.killThread) else Deciding)
    case CasKill(id, spurious) =>
      var seen := s.workers[id].seen;
      if !spurious && s.killThread == seen then
        Move(s, id, Storing(ByToken(s.passes))).(killThread := seen - 1)
      else
        Move(s, id, Deciding)
    case Decide(id) =>
      if !s.running && s.queue == [] then
        Move(s, id, Storing(ByShutdown))
      else if s.queue != [] then
        Move(s, id, Executing(s.queue[0])).(
          queue := s.queue[1..], popped := s.popped + [s.queue[0]], mutex := None)
      else
        Move(s, id, Waiting).(mutex := None)
    case Complete(id, _) =>
      Move(s, id, Waiting).(completed := s.completed + [s.workers[id].job])
    case StoreFinished(id) => Move(s, id, Stored(s.workers[id].reason))
    case Leave(id) => Move(s, id, Exited(s.workers[id].reason)).(mutex := None)
    case TestRunning => s.(manager := if s.running then Sampling else DrainTest)
    case Sample => s.(queueSize := |s.queue|, passes := s.passes + 1, manager := UpTest)
    case TestUp =>
      if s.scaleUp(AsUint(s.queueSize), AsUint(s.workerCount)) then
        s.(workers := s.workers + [Waiting], pool := s.pool + [|s.workers|],
           workerCount := s.workerCount + 1, manager := LoopTest)
      else
        s.(manager := DownTest)
    case TestDown =>
      s.(manager := if s.scaleDown(AsUint(s.queueSize), AsUint(s.workerCount))
                    then LoadingKill else LoopTest)
    case LoadToken => s.(manager := if s.killThread == 0 then AtKillCas else Reaping(0, false))
    case IssueToken(spurious) =>
      if !spurious && s.killThread == 0 then
        s.(killThread := 1, issued := s.issued + 1, manager := Reaping(0, false))
      else
        s.(manager := Reaping(0, false))
    case Scan =>
      var i, drain := s.manager.next, s.manager.drain;
      if i == |s.pool| then
        s.(manager := if drain then DrainTest else LoopTest)
      else if Finished(s.workers[s.pool[i]]) then
        s.(manager := Joining(i, drain))
      else
        s.(manager := Reaping(i + 1, drain))
    case Join =>
      var i, drain := s.manager.at, s.manager.drain;
      var id := s.pool[i];
      Move(s, id, Joined(s.workers[id].reason)).(
        pool := s.pool[..i] + s.pool[i + 1..], workerCount := s.workerCount - 1,
        manager := Reaping(i, drain))
    case TestDrained => s.(manager := if s.workerCount != 0 then Reaping(0, true) else Returned)
  }

  /** `acts` can be taken one after the other from `s`. */
  predicate Feasible(s: State, acts: seq<Action>)
    decreases acts
  {
    acts == [] || (Enabled(s, acts[0]) && Feasible(Apply(s, acts[0]), acts[1..]))
  }

  function After(s: State, acts: seq<Action>): State
    requires Feasible(s, acts)
    decreases acts
  {
    if acts == [] then s else After(Apply(s, acts[0]), acts[1..])
  }

  lemma {:induction false} Extend(s: State, acts: seq<Action>, more: seq<Action>)
    requires Feasible(s, acts) && Feasible(After(s, acts), more)
    ensures Feasible(s, acts + more) && After(s, acts + more) == After(After(s, acts), more)
    decreases acts
  {
    if acts == [] {
      assert acts + more == more;
    } else {
      assert (acts + more)[1..] == acts[1..] + more;
      Extend(Apply(s, acts[0]), acts[1..], more);
    }
  }

  lemma {:induction false} ExtendOne(s: State, acts: seq<Action>, a: Action)
    requires Feasible(s, acts) && Enabled(After(s, acts), a)
    ensures Feasible(s, acts + [a]) && After(s, acts + [a]) == Apply(After(s, acts), a)
  {
    var t := After(s, acts);
    assert Feasible(t, [a]) && After(t, [a]) == Apply(t, a) by {
      assert [a][1..] == [];
    }
    Extend(s, acts, [a]);
  }

  lemma Prepend(s: State, a: Action, rest: seq<Action>)
    requires Enabled(s, a) && Feasible(Apply(s, a), rest)
    ensures Feasible(s, [a] + rest) && After(s, [a] + rest) == After(Apply(s, a), rest)
  {
    assert ([a] + rest)[1..] == rest;
  }

  lemma {:induction false} Split(s: State, acts: seq<Action>, more: seq<Action>)
    requires Feasible(s, acts + more)
    ensures Feasible(s, acts) && Feasible(After(s, acts), more)
    ensures After(s, acts + more) == After(After(s, acts), more)
    decreases acts
  {
    if acts == [] {
      assert acts + more == more;
    } else {
      assert (acts + more)[1..] == acts[1..] + more;
      Split(Apply(s, acts[0]), acts[1..], more);
    }
  }

  /** `ok` holds of every state and of the action taken from it along the run. */
  predicate Throughout(s: State, acts: seq<Action>, ok: (State, Action) -> bool)
    requires Feasible(s, acts)
    decreases acts
  {
    acts == [] || (ok(s, acts[0]) && Throughout(Apply(s, acts[0]), acts[1..], ok))
  }
}
