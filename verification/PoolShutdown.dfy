/** Shutting the pool down: it terminates, and exactly when it drains the queue. */
module PoolShutdown {
  import opened Sequences
  import opened PoolModel
  import opened PoolInvariants

  // ---- termination ----

  /** Steps a worker still has to take if the queue gives it nothing more. */
  function Rank(pc: WorkerPc): nat {
    match pc
    case Executing(_) => 7
    case Waiting => 6
    case Woken => 5
    case AtCas(_) => 4
    case Deciding => 3
    case Storing(_) => 2
    case Stored(_) => 1
    case Exited(_) => 0
    case Joined(_) => 0
  }

  /** Work left once the manager has left its loop. */
  function Work(s: State): nat {
    5 * |s.queue| + Sum(s.workers, Rank) + |s.pool|
  }

  /** A step of a worker, or a join. */
  predicate Productive(a: Action) {
    match a
    case Wake(_) => true
    case LoadKill(_) => true
    case CasKill(_, _) => true
    case Decide(_) => true
    case Complete(_, _) => true
    case StoreFinished(_) => true
    case Leave(_) => true
    case Join => true
    case _ => false
  }

  function ProductiveSteps(acts: seq<Action>): nat {
    if acts == [] then 0 else (if Productive(acts[0]) then 1 else 0) + ProductiveSteps(acts[1..])
  }

  predicate NoAddTask(acts: seq<Action>) {
    forall i :: 0 <= i < |acts| ==> !acts[i].AddTask?
  }

  lemma DrainStays(s: State, a: Action)
    requires InDrain(s.manager) && !s.running && Enabled(s, a)
    ensures InDrain(Apply(s, a).manager) && !Apply(s, a).running
  {
  }

  lemma SumStep(s: State, a: Action)
    requires Enabled(s, a) && Actor(s, a).Some?
    ensures var id := Actor(s, a).value;
            At(s, id) && id < |Apply(s, a).workers|
            && Sum(Apply(s, a).workers, Rank) + Rank(s.workers[id])
               == Sum(s.workers, Rank) + Rank(Apply(s, a).workers[id])
  {
    Effect(s, a);
    var id := Actor(s, a).value;
    SumUpdate(s.workers, id, Apply(s, a).workers[id], Rank);
  }

  /** After the manager loop every step of a worker and every join uses up work, a lost or spurious
      compare-and-swap included; the other steps, new tasks apart, leave it as it is. */
  lemma WorkShrinks(s: State, a: Action)
    requires InDrain(s.manager) && !s.running && Enabled(s, a) && !a.AddTask?
    ensures Productive(a) ==> Work(Apply(s, a)) < Work(s)
    ensures !Productive(a) ==> Work(Apply(s, a)) == Work(s)
  {
    if Productive(a) {
      SumStep(s, a);
    } else {
      Effect(s, a);
    }
  }

  /** So only a bounded number of productive steps is left, whatever the scheduler does. */
  lemma {:induction false} BoundedWork(s: State, acts: seq<Action>)
    requires InDrain(s.manager) && !s.running && Feasible(s, acts) && NoAddTask(acts)
    ensures Work(After(s, acts)) + ProductiveSteps(acts) <= Work(s)
    decreases acts
  {
    if acts == [] {
    } else {
      assert acts[0] in acts;
      WorkShrinks(s, acts[0]);
      DrainStays(s, acts[0]);
      assert forall i :: 0 <= i < |acts[1..]| ==> acts[1..][i] == acts[i + 1];
      BoundedWork(Apply(s, acts[0]), acts[1..]);
    }
  }

  /** The next action of one scheduler that never stalls: the mutex holder first, then any other
      live worker, then the manager. */
  ghost function Next(s: State): Action
    requires Inv(s) && InDrain(s.manager) && !s.manager.Returned?
  {
    if s.mutex.Some? then
      WorkerAction(s, s.mutex.value)
    else if exists id :: 0 <= id < |s.workers| && Rank(s.workers[id]) > 0 then
      var id :| 0 <= id < |s.workers| && Rank(s.workers[id]) > 0;
      WorkerAction(s, id)
    else if s.manager.DrainTest? then TestDrained
    else if s.manager.Joining? then Join
    else Scan
  }

  function WorkerAction(s: State, id: nat): Action
    requires id < |s.workers| && Rank(s.workers[id]) > 0
  {
    match s.workers[id]
    case Waiting => Wake(id)
    case Woken => LoadKill(id)
    case AtCas(_) => CasKill(id, false)
    case Deciding => Decide(id)
    case Executing(_) => Complete(id, false)
    case Storing(_) => StoreFinished(id)
    case Stored(_) => Leave(id)
  }

  /** Distance of the manager from its next join or return, when every thread has exited. */
  function Scans(m: ManagerPc, poolSize: nat): nat {
    match m
    case DrainTest => 2
    case Reaping(i, _) => if i == poolSize then 3 else 1
    case _ => 0
  }

  /** No state of the drain phase is stuck: the scheduler's next action is enabled, and it brings
      the run nearer to its end. */
  lemma Progress(s: State)
    requires Inv(s) && InDrain(s.manager) && !s.manager.Returned?
    ensures Enabled(s, Next(s)) && !Next(s).AddTask?
    ensures var t := Apply(s, Next(s));
            Work(t) < Work(s) || (Work(t) == Work(s) && Scans(t.manager, |t.pool|) < Scans(s.manager, |s.pool|))
  {
    var a := Next(s);
    if s.mutex.Some? {
      assert Holds(s.workers[s.mutex.value]);
    } else if exists id :: 0 <= id < |s.workers| && Rank(s.workers[id]) > 0 {
    } else {
      AllExited(s);
    }
    WorkShrinks(s, a);
  }

  lemma AllExited(s: State)
    requires VectorInv(s) && InDrain(s.manager) && !s.manager.Returned?
    requires forall id :: 0 <= id < |s.workers| ==> Rank(s.workers[id]) == 0
    ensures forall i :: 0 <= i < |s.pool| ==> s.workers[s.pool[i]].Exited?
  {
    forall i | 0 <= i < |s.pool|
      ensures s.workers[s.pool[i]].Exited?
    {
      assert s.pool[i] in s.pool;
    }
  }

  /** While a worker is still in the vector, a worker can move or a thread is ready to be joined. */
  lemma NotStuck(s: State)
    requires Inv(s) && InDrain(s.manager) && s.workerCount > 0
    ensures (exists id :: 0 <= id < |s.workers| && Rank(s.workers[id]) > 0
                          && Enabled(s, WorkerAction(s, id)))
            || (forall i :: 0 <= i < |s.pool| ==> s.workers[s.pool[i]].Exited?)
  {
    if s.mutex.Some? {
      assert Holds(s.workers[s.mutex.value]);
      assert Enabled(s, WorkerAction(s, s.mutex.value));
    } else if id :| 0 <= id < |s.workers| && Rank(s.workers[id]) > 0 {
      assert Enabled(s, WorkerAction(s, id));
    } else {
      AllExited(s);
    }
  }

  /** One step of that scheduler, for the inductions over whole runs. */
  lemma OneStep(s: State) returns (a: Action)
    requires Inv(s) && InDrain(s.manager) && !s.manager.Returned?
    ensures a == Next(s) && Enabled(s, a) && !a.AddTask?
    ensures var t := Apply(s, a);
            && Inv(t) && InDrain(t.manager)
            && (Work(t) < Work(s) || (Work(t) == Work(s) && Scans(t.manager, |t.pool|) < Scans(s.manager, |s.pool|)))
  {
    a := Next(s);
    Progress(s);
    InvStep(s, a);
    DrainStays(s, a);
  }

  lemma PrependQuiet(a: Action, rest: seq<Action>)
    requires !a.AddTask? && NoAddTask(rest)
    ensures NoAddTask([a] + rest)
  {
  }

  /** From every state of the drain phase the manager can be brought to return. */
  lemma {:induction false} CanFinish(s: State) returns (acts: seq<Action>)
    requires Inv(s) && InDrain(s.manager)
    ensures Feasible(s, acts) && NoAddTask(acts) && After(s, acts).manager.Returned?
    decreases Work(s), Scans(s.manager, |s.pool|)
  {
    acts := [];
    if !s.manager.Returned? {
      var a := OneStep(s);
      var rest := CanFinish(Apply(s, a));
      acts := [a] + rest;
      Prepend(s, a, rest);
      PrependQuiet(a, rest);
    }
  }

  // ---- draining the queue ----

  predicate AtDecision(pc: WorkerPc) {
    pc.Deciding?
  }

  /** How many more tokens a manager pass that was cut short by shutdown can send. */
  function TokensToCome(m: ManagerPc): nat {
    if m.Sampling? || m.UpTest? || m.DownTest? || m.LoadingKill? || m.AtKillCas? then 1 else 0
  }

  /** The flag is down and the manager past the tests at which it sends tokens, in its first loop or in
      its second. */
  predicate NoMoreTokens(s: State) {
    !s.running && TokensToCome(s.manager) == 0
  }

  lemma NoMoreTokensStep(s: State, a: Action)
    requires NoMoreTokens(s) && Enabled(s, a)
    ensures NoMoreTokens(Apply(s, a))
  {
  }

  /** More workers are still undecided than tokens are out to take them, or one has already left by
      the shutdown branch. */
  predicate Drainable(s: State) {
    Count(s.workers, Undecided) > s.killThread || Count(s.workers, ShutdownKilled) > 0
  }

  /** The queue can no longer be left with a task in it: a worker will outlive the token, or the queue
      is empty, or its one task is about to be popped by a worker already past the token test. */
  predicate Settled(s: State) {
    Drainable(s) || s.queue == [] || (|s.queue| == 1 && Count(s.workers, AtDecision) > 0)
  }

  lemma DrainableStep(s: State, a: Action)
    requires TokenInv(s) && NoMoreTokens(s) && Enabled(s, a) && Drainable(s)
    ensures Drainable(Apply(s, a))
  {
    if Actor(s, a).Some? {
      WorkerKeepsDrainable(s, a);
    } else {
      Effect(s, a);
      assert Apply(s, a).killThread == s.killThread;
    }
  }

  /** A worker that leaves by a token takes the token with it; any other that leaves is a witness. */
  lemma WorkerKeepsDrainable(s: State, a: Action)
    requires Enabled(s, a) && Actor(s, a).Some? && Drainable(s)
    ensures Drainable(Apply(s, a))
  {
    CountStep(s, a, Undecided);
    CountStep(s, a, ShutdownKilled);
  }

  lemma SettledStep(s: State, a: Action)
    requires Inv(s) && NoMoreTokens(s) && Enabled(s, a) && !a.AddTask? && Settled(s)
    ensures Settled(Apply(s, a))
  {
    if Drainable(s) {
      DrainableStep(s, a);
    } else if s.queue != [] {
      CountPositive(s.workers, AtDecision);
      var id :| 0 <= id < |s.workers| && AtDecision(s.workers[id]);
      assert Holds(s.workers[id]) && s.mutex == Some(id);
      LastTaskStep(s, a, id);
    }
  }

  lemma LastTaskStep(s: State, a: Action, id: nat)
    requires MutexInv(s) && Enabled(s, a) && !a.AddTask? && NoMoreTokens(s)
    requires |s.queue| == 1 && id < |s.workers| && s.workers[id].Deciding?
    ensures var t := Apply(s, a);
            t.queue == [] || (|t.queue| == 1 && Count(t.workers, AtDecision) > 0)
  {
    var t := Apply(s, a);
    if a.Decide? {
      assert Holds(s.workers[a.id]) && Holds(s.workers[id]);
      assert t.queue == [];
    } else {
      Effect(s, a);
      assert Holds(s.workers[id]);
      assert t.queue == s.queue && id < |t.workers| && t.workers[id].Deciding?;
      CountPositive(t.workers, AtDecision);
    }
  }

  lemma {:induction false} SettledAlong(s: State, acts: seq<Action>)
    requires Inv(s) && NoMoreTokens(s) && Settled(s)
    requires Feasible(s, acts) && NoAddTask(acts)
    ensures Inv(After(s, acts)) && Settled(After(s, acts))
    decreases acts
  {
    if acts == [] {
    } else {
      assert acts[0] in acts;
      InvStep(s, acts[0]);
      SettledStep(s, acts[0]);
      NoMoreTokensStep(s, acts[0]);
      assert forall i :: 0 <= i < |acts[1..]| ==> acts[1..][i] == acts[i + 1];
      SettledAlong(Apply(s, acts[0]), acts[1..]);
    }
  }

  lemma {:induction false} LateKept(s: State, acts: seq<Action>)
    requires Feasible(s, acts) && NoAddTask(acts)
    ensures After(s, acts).late == s.late
    decreases acts
  {
    if acts == [] {
    } else {
      assert acts[0] in acts;
      assert forall i :: 0 <= i < |acts[1..]| ==> acts[1..][i] == acts[i + 1];
      LateKept(Apply(s, acts[0]), acts[1..]);
    }
  }

  /** A task added after the flag went down is remembered. */
  lemma {:induction false} LateRemembered(s: State, acts: seq<Action>)
    requires Feasible(s, acts) && !s.running && !After(s, acts).late
    ensures NoAddTask(acts) && !s.late
    decreases acts
  {
    if acts == [] {
    } else {
      var t := Apply(s, acts[0]);
      assert !t.running && (s.late || acts[0].AddTask? ==> t.late);
      LateRemembered(t, acts[1..]);
      forall i | 0 <= i < |acts|
        ensures !acts[i].AddTask?
      {
        if i > 0 {
          assert acts[i] == acts[1..][i - 1];
        }
      }
    }
  }

  /** Once the manager has returned every thread is joined, so nothing is in flight. */
  lemma AllJoined(s: State)
    requires Inv(s) && s.manager.Returned?
    ensures s.workerCount == 0 && Count(s.workers, Undecided) == 0 && Count(s.workers, AtDecision) == 0
    ensures Gather(s.workers, InFlight) == multiset{} && multiset(s.completed) == multiset(s.popped)
  {
    CountMonotone(s.workers, Undecided, Unjoined);
    CountMonotone(s.workers, AtDecision, Unjoined);
    forall pc | pc in s.workers
      ensures InFlight(pc) == multiset{}
    {
      var id :| 0 <= id < |s.workers| && s.workers[id] == pc;
      assert id !in s.pool;
    }
    GatherEmpty(s.workers, InFlight);
  }

  lemma SettledAtReturn(s: State)
    requires Inv(s) && s.manager.Returned? && Settled(s) && !s.late
    ensures s.queue == [] && s.popped == s.submitted && multiset(s.completed) == multiset(s.submitted)
  {
    AllJoined(s);
    assert s.queue == [];
    assert s.popped + [] == s.popped;
  }

  /** Guaranteed execution: if, when the manager leaves its loop, the unexited workers outnumber the
      tokens or some worker has left by the shutdown branch, and no task was added after the flag went
      down, then when the manager returns every submitted task has completed exactly once. */
  lemma DrainOnShutdown(acts: seq<Action>, more: seq<Action>)
    requires Feasible(Init(), acts)
    requires After(Init(), acts).manager.LoopTest? && !After(Init(), acts).running && Drainable(After(Init(), acts))
    requires !After(Init(), acts).late && NoAddTask(more)
    requires Feasible(Apply(After(Init(), acts), TestRunning), more)
    requires After(Apply(After(Init(), acts), TestRunning), more).manager.Returned?
    ensures var t := After(Apply(After(Init(), acts), TestRunning), more);
            && t.queue == [] && t.workerCount == 0
            && t.popped == t.submitted && multiset(t.completed) == multiset(t.submitted)
  {
    InitInv();
    InvAlong(Init(), acts);
    var s := After(Init(), acts);
    InvStep(s, TestRunning);
    SettledAlong(Apply(s, TestRunning), more);
    LateKept(Apply(s, TestRunning), more);
    var t := After(Apply(s, TestRunning), more);
    SettledAtReturn(t);
    AllJoined(t);
  }

  // ---- the guarantee at the call of shutdown ----

  /** Even then some worker outlives the tokens, or one has left by the shutdown branch already. */
  predicate Reserve(s: State) {
    Count(s.workers, Undecided) > s.killThread + TokensToCome(s.manager) || Count(s.workers, ShutdownKilled) > 0
  }

  lemma ReserveStep(s: State, a: Action)
    requires Enabled(s, a) && !s.running && Reserve(s)
    ensures Reserve(Apply(s, a))
  {
    CountStep(s, a, Undecided);
    CountStep(s, a, ShutdownKilled);
    if Actor(s, a).Some? {
      assert TokensToCome(Apply(s, a).manager) == TokensToCome(s.manager);
    }
  }

  lemma {:induction false} ReserveAlong(s: State, acts: seq<Action>)
    requires Feasible(s, acts) && !s.running && Reserve(s)
    ensures Reserve(After(s, acts))
    decreases acts
  {
    if acts == [] {
    } else {
      ReserveStep(s, acts[0]);
      ReserveAlong(Apply(s, acts[0]), acts[1..]);
    }
  }

  lemma {:induction false} NotLateWhileRunning(s: State, acts: seq<Action>)
    requires Feasible(s, acts) && (s.late ==> !s.running)
    ensures After(s, acts).late ==> !After(s, acts).running
    decreases acts
  {
    if acts == [] {
    } else {
      NotLateWhileRunning(Apply(s, acts[0]), acts[1..]);
    }
  }

  /** If at the moment of shutdown the unexited workers outnumber the token that is out and one more, and
      no task is added afterwards, then when the manager returns every submitted task has completed
      exactly once. */
  lemma ShutdownWithReserve(acts: seq<Action>, more: seq<Action>)
    requires Feasible(Init(), acts) && After(Init(), acts).running
    requires Count(After(Init(), acts).workers, Undecided) > After(Init(), acts).killThread + 1
    requires NoAddTask(more) && Feasible(Apply(After(Init(), acts), Shutdown), more)
    requires After(Apply(After(Init(), acts), Shutdown), more).manager.Returned?
    ensures var t := After(Apply(After(Init(), acts), Shutdown), more);
            && t.queue == [] && t.workerCount == 0
            && t.popped == t.submitted && multiset(t.completed) == multiset(t.submitted)
  {
    InitInv();
    InvAlong(Init(), acts);
    var s := Apply(After(Init(), acts), Shutdown);
    InvStep(After(Init(), acts), Shutdown);
    InvAlong(s, more);
    NotLateWhileRunning(Init(), acts);
    ReserveAlong(s, more);
    LateKept(s, more);
    var t := After(s, more);
    SettledAtReturn(t);
    AllJoined(t);
  }

  // ---- and when it does not ----

  /** The manager can return with a task still queued. */
  ghost predicate CanStrand(s: State) {
    exists acts :: Feasible(s, acts) && NoAddTask(acts)
                   && After(s, acts).manager.Returned? && After(s, acts).queue != []
  }

  lemma UnsettledStep(s: State)
    requires Inv(s) && InDrain(s.manager) && !s.running && !s.manager.Returned? && !Settled(s)
    ensures Enabled(s, Next(s)) && !Settled(Apply(s, Next(s)))
  {
    Progress(s);
    var a := Next(s);
    var t := Apply(s, a);
    CountPositive(s.workers, Undecided);
    if a.Decide? {
      PopUnsettled(s, a);
    } else if Actor(s, a).Some? {
      assert Holds(s.workers[Actor(s, a).value]) || !a.LoadKill?;
      assert a.LoadKill? ==> Undecided(s.workers[a.id]);
      assert a.CasKill? ==> Undecided(s.workers[a.id]) && !a.spurious;
      TakerUnsettled(s, a);
    } else {
      Effect(s, a);
    }
  }

  lemma PopUnsettled(s: State, a: Action)
    requires MutexInv(s) && !s.running && Enabled(s, a) && a.Decide? && !Settled(s)
    ensures !Settled(Apply(s, a))
  {
    CountStep(s, a, Undecided);
    CountStep(s, a, ShutdownKilled);
    CountStep(s, a, AtDecision);
    CountPositive(s.workers, AtDecision);
    assert AtDecision(s.workers[a.id]) && Holds(s.workers[a.id]);
    var t := Apply(s, a);
    assert forall id :: 0 <= id < |s.workers| && id != a.id ==> !Holds(s.workers[id]);
    assert forall id :: 0 <= id < |t.workers| ==> !AtDecision(t.workers[id]);
    CountPositive(t.workers, AtDecision);
  }

  lemma TakerUnsettled(s: State, a: Action)
    requires TokenInv(s) && Enabled(s, a) && !a.Decide? && Actor(s, a).Some? && !Settled(s)
    requires a.LoadKill? ==> s.killThread > 0
    requires a.CasKill? ==> !a.spurious
    ensures !Settled(Apply(s, a))
  {
    CountStep(s, a, Undecided);
    CountStep(s, a, ShutdownKilled);
    CountStep(s, a, AtDecision);
    assert Apply(s, a).queue == s.queue;
  }

  lemma {:induction false} Strand(s: State) returns (acts: seq<Action>)
    requires Inv(s) && InDrain(s.manager) && !Settled(s)
    ensures Feasible(s, acts) && NoAddTask(acts)
    ensures After(s, acts).manager.Returned? && After(s, acts).queue != []
    decreases Work(s), Scans(s.manager, |s.pool|)
  {
    acts := [];
    if !s.manager.Returned? {
      UnsettledStep(s);
      var a := OneStep(s);
      var rest := Strand(Apply(s, a));
      acts := [a] + rest;
      Prepend(s, a, rest);
      PrependQuiet(a, rest);
    }
  }

  /** Exactly when tasks can be lost: in the drain phase of any run without late tasks, some
      continuation leaves a task in the queue if and only if the state is not settled. */
  lemma StrandedIffUnsettled(acts: seq<Action>)
    requires Feasible(Init(), acts) && InDrain(After(Init(), acts).manager) && !After(Init(), acts).late
    ensures CanStrand(After(Init(), acts)) <==> !Settled(After(Init(), acts))
  {
    InitInv();
    InvAlong(Init(), acts);
    var s := After(Init(), acts);
    if Settled(s) {
      forall more | Feasible(s, more) && NoAddTask(more) && After(s, more).manager.Returned?
        ensures After(s, more).queue == []
      {
        SettledAlong(s, more);
        LateKept(s, more);
        SettledAtReturn(After(s, more));
      }
    } else {
      var more := Strand(s);
    }
  }

  /** A step of a sweep, or out of the first loop, or a return leaves the question as it was. */
  lemma SweepKeepsSettled(s: State, a: Action)
    requires Enabled(s, a) && (a.TestRunning? || a.Scan? || a.Join? || a.Leave?)
    ensures Settled(Apply(s, a)) <==> Settled(s)
  {
    CountStep(s, a, Undecided);
    CountStep(s, a, ShutdownKilled);
    CountStep(s, a, AtDecision);
  }

  /** How far the manager is from the end of a sweep of its first loop. */
  function SweepLeft(s: State): nat
    requires VectorInv(s)
  {
    match s.manager
    case Reaping(i, _) => 4 * (|s.pool| - i) + 3
    case Joining(i, _) => 4 * (|s.pool| - i) + if s.workers[s.pool[i]].Exited? then 1 else 2
    case _ => 0
  }

  /** The next action towards that end. */
  function SweepNext(s: State): Action
    requires VectorInv(s)
  {
    match s.manager
    case Reaping(_, _) => Scan
    case Joining(i, _) => if s.workers[s.pool[i]].Exited? then Join else Leave(s.pool[i])
    case _ => TestRunning
  }

  lemma SweepEnabled(s: State)
    requires VectorInv(s) && NoMoreTokens(s) && !InDrain(s.manager)
    ensures Enabled(s, SweepNext(s))
  {
    if s.manager.Joining? {
      assert s.pool[s.manager.at] in s.pool;
    }
  }

  lemma ScanShrinks(s: State)
    requires VectorInv(s) && NoMoreTokens(s) && s.manager.Reaping? && Enabled(s, Scan) && VectorInv(Apply(s, Scan))
    requires !s.manager.drain
    ensures SweepLeft(Apply(s, Scan)) < SweepLeft(s) && !InDrain(Apply(s, Scan).manager)
  {
  }

  lemma JoiningShrinks(s: State)
    requires VectorInv(s) && NoMoreTokens(s) && s.manager.Joining? && Enabled(s, SweepNext(s))
    requires VectorInv(Apply(s, SweepNext(s))) && !s.manager.drain
    ensures SweepLeft(Apply(s, SweepNext(s))) < SweepLeft(s) && !InDrain(Apply(s, SweepNext(s)).manager)
  {
    var t := Apply(s, SweepNext(s));
    if SweepNext(s).Join? {
      assert |t.pool| == |s.pool| - 1 && t.manager.Reaping?;
    } else {
      assert t.pool == s.pool && t.manager == s.manager && t.workers[s.pool[s.manager.at]].Exited?;
    }
  }

  lemma SweepProgress(s: State)
    requires VectorInv(s) && NoMoreTokens(s) && !InDrain(s.manager) && Enabled(s, SweepNext(s))
    requires VectorInv(Apply(s, SweepNext(s)))
    ensures var t := Apply(s, SweepNext(s));
            if s.manager.LoopTest? then t.manager.DrainTest? else !InDrain(t.manager) && SweepLeft(t) < SweepLeft(s)
  {
    match s.manager {
      case Reaping(_, _) => ScanShrinks(s);
      case Joining(_, _) => JoiningShrinks(s);
      case _ =>
    }
  }

  /** The manager can be brought out of its first loop with the question open. */
  lemma {:induction false} LeaveUnsettled(s: State) returns (acts: seq<Action>)
    requires Inv(s) && NoMoreTokens(s) && !InDrain(s.manager) && !Settled(s)
    ensures Feasible(s, acts) && NoAddTask(acts)
    ensures Inv(After(s, acts)) && InDrain(After(s, acts).manager) && !Settled(After(s, acts))
    decreases SweepLeft(s)
  {
    var a := SweepNext(s);
    SweepEnabled(s);
    InvStep(s, a);
    NoMoreTokensStep(s, a);
    SweepProgress(s);
    SweepKeepsSettled(s, a);
    var rest: seq<Action> := [];
    if !s.manager.LoopTest? {
      rest := LeaveUnsettled(Apply(s, a));
    }
    acts := [a] + rest;
    Prepend(s, a, rest);
    PrependQuiet(a, rest);
  }

  lemma AppendQuiet(acts: seq<Action>, more: seq<Action>)
    requires NoAddTask(acts) && NoAddTask(more)
    ensures NoAddTask(acts + more)
  {
  }

  /** At the call of shutdown, exactly: in any state reached by a run where the manager is at its loop test
      or in a sweep, so that it sends no more tokens, some continuation without a further task leaves a
      task in the queue if and only if the state is not settled. */
  lemma ShutdownStrandsIffUnsettled(acts: seq<Action>)
    requires Feasible(Init(), acts) && After(Init(), acts).running && TokensToCome(After(Init(), acts).manager) == 0
    ensures CanStrand(Apply(After(Init(), acts), Shutdown)) <==> !Settled(After(Init(), acts))
  {
    InitInv();
    InvAlong(Init(), acts);
    NotLateWhileRunning(Init(), acts);
    var s := Apply(After(Init(), acts), Shutdown);
    InvStep(After(Init(), acts), Shutdown);
    if Settled(s) {
      forall more | Feasible(s, more) && NoAddTask(more) && After(s, more).manager.Returned?
        ensures After(s, more).queue == []
      {
        SettledAlong(s, more);
        LateKept(s, more);
        SettledAtReturn(After(s, more));
      }
    } else {
      var first := LeaveUnsettled(s);
      var rest := Strand(After(s, first));
      Extend(s, first, rest);
      AppendQuiet(first, rest);
    }
  }

  /** The documented guarantee does fail: a pool shut down before its first pass returns with its
      task still queued. */
  lemma TasksCanBeLost(task: WorkerTask) returns (acts: seq<Action>)
    ensures Feasible(Init(), acts)
    ensures var s := After(Init(), acts);
            s.manager.Returned? && !s.late && s.submitted == [task] && s.popped == [] && s.queue == [task]
  {
    acts := [];
    ExtendOne(Init(), acts, AddTask(task));
    ExtendOne(Init(), acts + [AddTask(task)], Shutdown);
    ExtendOne(Init(), acts + [AddTask(task)] + [Shutdown], TestRunning);
    ExtendOne(Init(), acts + [AddTask(task)] + [Shutdown] + [TestRunning], TestDrained);
    acts := acts + [AddTask(task)] + [Shutdown] + [TestRunning] + [TestDrained];
  }
}
