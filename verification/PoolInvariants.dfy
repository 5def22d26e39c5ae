/** What every step of the pool keeps, in every run. */
module PoolInvariants {
  import opened Sequences
  import opened PoolModel

  // ---- classes of worker ----

  predicate Holds(pc: WorkerPc) {
    pc.Woken? || pc.AtCas? || pc.Deciding? || pc.Storing? || pc.Stored?
  }

  /** The worker has committed to leaving. */
  predicate Doomed(pc: WorkerPc) {
    pc.Storing? || pc.Stored? || pc.Exited? || pc.Joined?
  }

  predicate Undecided(pc: WorkerPc) {
    !Doomed(pc)
  }

  predicate Unjoined(pc: WorkerPc) {
    !pc.Joined?
  }

  predicate TokenKilled(pc: WorkerPc) {
    Doomed(pc) && pc.reason.ByToken?
  }

  predicate ShutdownKilled(pc: WorkerPc) {
    Doomed(pc) && pc.reason.ByShutdown?
  }

  function InFlight(pc: WorkerPc): multiset<WorkerTask> {
    if pc.Executing? then multiset{pc.job} else multiset{}
  }

  predicate InDrain(m: ManagerPc) {
    m.DrainTest? || m.Returned? || (m.Reaping? && m.drain) || (m.Joining? && m.drain)
  }

  // ---- the invariants ----

  /** The mutex is held by exactly the worker that is inside its critical section. */
  ghost predicate MutexInv(s: State) {
    && (forall id :: 0 <= id < |s.workers| ==> (Holds(s.workers[id]) <==> s.mutex == Some(id)))
    && (s.mutex.Some? ==> s.mutex.value < |s.workers|)
  }

  ghost predicate Distinct(ids: seq<nat>) {
    forall i, j :: 0 <= i < j < |ids| ==> ids[i] != ids[j]
  }

  /** `workerCount`, the vector and the set of unjoined threads agree. */
  ghost predicate PoolInv(s: State) {
    && s.workerCount == |s.pool|
    && |s.pool| == Count(s.workers, Unjoined)
    && VectorInv(s)
  }

  /** The vector lists exactly the unjoined threads, each once; only a finished one is joined. */
  ghost predicate VectorInv(s: State) {
    && Distinct(s.pool)
    && (forall i :: 0 <= i < |s.pool| ==> s.pool[i] < |s.workers|)
    && (forall id :: 0 <= id < |s.workers| ==> (id in s.pool <==> Unjoined(s.workers[id])))
    && (s.manager.Reaping? ==> s.manager.next <= |s.pool|)
    && (s.manager.Joining? ==> s.manager.at < |s.pool| && Finished(s.workers[s.pool[s.manager.at]]))
    && (s.manager.Returned? ==> s.pool == [])
  }

  /** At most one token is outstanding, and every issued token is accounted for. */
  ghost predicate TokenInv(s: State) {
    && s.killThread <= 1
    && s.issued == s.killThread + Count(s.workers, TokenKilled)
    && (forall id :: 0 <= id < |s.workers| && s.workers[id].AtCas? ==> s.workers[id].seen == s.killThread)
    && (s.manager.AtKillCas? ==> s.killThread == 0)
  }

  /** Each popped task is either completed or being executed, counted with multiplicity. */
  ghost predicate TasksKept(s: State) {
    multiset(s.popped) == multiset(s.completed) + Gather(s.workers, InFlight)
  }

  /** Tasks leave the queue in submission order, and none is lost or run twice. */
  ghost predicate QueueInv(s: State) {
    && s.submitted == s.popped + s.queue
    && TasksKept(s)
  }

  /** A worker leaves by the shutdown branch only with the flag down and nothing queued. */
  ghost predicate ShutdownInv(s: State) {
    && (InDrain(s.manager) ==> !s.running)
    && (Count(s.workers, ShutdownKilled) > 0 ==> !s.running && (s.late || s.queue == []))
  }

  ghost predicate Inv(s: State) {
    MutexInv(s) && PoolInv(s) && TokenInv(s) && QueueInv(s) && ShutdownInv(s)
  }

  lemma InitInv()
    ensures Inv(Init())
  {
  }

  // ---- preservation, one invariant at a time ----

  /** The worker an action moves, if it moves one. */
  function Actor(s: State, a: Action): Option<nat>
    requires Enabled(s, a)
  {
    match a
    case Wake(id) => Some(id)
    case LoadKill(id) => Some(id)
    case CasKill(id, _) => Some(id)
    case Decide(id) => Some(id)
    case Complete(id, _) => Some(id)
    case StoreFinished(id) => Some(id)
    case Leave(id) => Some(id)
    case Join => Some(s.pool[s.manager.at])
    case _ => None
  }

  predicate Spawns(s: State, a: Action) {
    a.TestUp? && s.scaleUp(AsUint(s.queueSize), AsUint(s.workerCount))
  }

  lemma Effect(s: State, a: Action)
    requires Enabled(s, a)
    ensures Actor(s, a).Some? ==>
              var id := Actor(s, a).value;
              At(s, id) && Apply(s, a).workers == s.workers[id := Apply(s, a).workers[id]]
    ensures Actor(s, a).None? ==>
              Apply(s, a).workers == if Spawns(s, a) then s.workers + [Waiting] else s.workers
  {
  }

  /** How an action changes the number of workers in a class. */
  function Delta(s: State, a: Action, p: WorkerPc -> bool): int
    requires Enabled(s, a)
  {
    if Actor(s, a).Some? then
      Effect(s, a);
      var id := Actor(s, a).value;
      (if p(Apply(s, a).workers[id]) then 1 else 0) - (if p(s.workers[id]) then 1 else 0)
    else if Spawns(s, a) && p(Waiting) then 1 else 0
  }

  lemma CountStep(s: State, a: Action, p: WorkerPc -> bool)
    requires Enabled(s, a)
    ensures Count(Apply(s, a).workers, p) == Count(s.workers, p) + Delta(s, a, p)
  {
    Effect(s, a);
    if Actor(s, a).Some? {
      var id := Actor(s, a).value;
      CountUpdate(s.workers, id, Apply(s, a).workers[id], p);
    } else if Spawns(s, a) {
      CountAppend(s.workers, Waiting, p);
    }
  }

  lemma MutexStep(s: State, a: Action)
    requires MutexInv(s) && Enabled(s, a)
    ensures MutexInv(Apply(s, a))
  {
    Effect(s, a);
    if Actor(s, a).Some? {
      WorkerKeepsMutex(s, a);
    } else {
      assert Apply(s, a).mutex == s.mutex;
    }
  }

  lemma WorkerKeepsMutex(s: State, a: Action)
    requires MutexInv(s) && Enabled(s, a) && Actor(s, a).Some?
    ensures MutexInv(Apply(s, a))
  {
  }

  lemma PoolStep(s: State, a: Action)
    requires PoolInv(s) && Enabled(s, a)
    ensures PoolInv(Apply(s, a))
  {
    CountStep(s, a, Unjoined);
    if a.Join? {
      JoinKeepsVector(s);
    } else if Actor(s, a).Some? {
      WorkerKeepsVector(s, a);
    } else if Spawns(s, a) {
      SpawnKeepsVector(s);
    } else {
      ManagerKeepsVector(s, a);
    }
  }

  lemma WorkerKeepsVector(s: State, a: Action)
    requires VectorInv(s) && Enabled(s, a) && !a.Join? && Actor(s, a).Some?
    ensures VectorInv(Apply(s, a))
  {
    var t := Apply(s, a);
    assert t.pool == s.pool && t.manager == s.manager;
    var id := Actor(s, a).value;
    assert t.workers == s.workers[id := t.workers[id]];
    assert Unjoined(t.workers[id]) && (Finished(s.workers[id]) ==> Finished(t.workers[id]));
  }

  lemma ManagerKeepsVector(s: State, a: Action)
    requires VectorInv(s) && Enabled(s, a) && Actor(s, a).None? && !Spawns(s, a)
    requires s.workerCount == |s.pool|
    ensures VectorInv(Apply(s, a))
  {
    var t := Apply(s, a);
    assert t.pool == s.pool && t.workers == s.workers;
  }

  lemma SpawnKeepsVector(s: State)
    requires VectorInv(s) && Enabled(s, TestUp)
    ensures VectorInv(Apply(s, TestUp))
  {
  }

  lemma JoinKeepsVector(s: State)
    requires VectorInv(s) && Enabled(s, Join)
    ensures VectorInv(Apply(s, Join))
  {
    var t := Apply(s, Join);
    var i := s.manager.at;
    var gone := s.pool[i];
    assert forall k :: 0 <= k < |t.pool| ==> t.pool[k] == s.pool[if k < i then k else k + 1];
    forall id | 0 <= id < |t.workers|
      ensures id in t.pool <==> Unjoined(t.workers[id])
    {
      if id != gone && id in s.pool {
        var k :| 0 <= k < |s.pool| && s.pool[k] == id;
        assert t.pool[if k < i then k else k - 1] == id;
      }
    }
  }

  lemma TokenStep(s: State, a: Action)
    requires MutexInv(s) && TokenInv(s) && Enabled(s, a)
    ensures TokenInv(Apply(s, a))
  {
    TokenCountStep(s, a);
    TokenSeenStep(s, a);
  }

  lemma TokenCountStep(s: State, a: Action)
    requires TokenInv(s) && Enabled(s, a)
    ensures var t := Apply(s, a);
            && t.killThread <= 1
            && t.issued == t.killThread + Count(t.workers, TokenKilled)
            && (t.manager.AtKillCas? ==> t.killThread == 0)
  {
    if Actor(s, a).Some? {
      WorkerKeepsTokens(s, a);
    } else {
      ManagerKeepsTokens(s, a);
    }
  }

  lemma WorkerKeepsTokens(s: State, a: Action)
    requires TokenInv(s) && Enabled(s, a) && Actor(s, a).Some?
    ensures var t := Apply(s, a);
            && t.killThread <= s.killThread
            && t.issued == t.killThread + Count(t.workers, TokenKilled)
            && (t.manager.AtKillCas? ==> s.manager.AtKillCas?)
  {
    CountStep(s, a, TokenKilled);
  }

  lemma ManagerKeepsTokens(s: State, a: Action)
    requires TokenInv(s) && Enabled(s, a) && Actor(s, a).None?
    ensures var t := Apply(s, a);
            && t.killThread <= 1
            && t.issued == t.killThread + Count(t.workers, TokenKilled)
            && (t.manager.AtKillCas? ==> t.killThread == 0)
  {
    Effect(s, a);
    if Spawns(s, a) {
      CountAppend(s.workers, Waiting, TokenKilled);
    }
  }

  /** A token seen by a worker under the mutex is still there when it swaps. */
  lemma TokenSeenStep(s: State, a: Action)
    requires MutexInv(s) && TokenInv(s) && Enabled(s, a)
    ensures var t := Apply(s, a);
            forall id :: 0 <= id < |t.workers| && t.workers[id].AtCas? ==> t.workers[id].seen == t.killThread
  {
    var t := Apply(s, a);
    forall id | 0 <= id < |t.workers| && t.workers[id].AtCas?
      ensures t.workers[id].seen == t.killThread
    {
      Effect(s, a);
    }
  }

  lemma QueueStep(s: State, a: Action)
    requires QueueInv(s) && Enabled(s, a)
    ensures QueueInv(Apply(s, a))
  {
    InFlightStep(s, a);
    FifoStep(s, a);
  }

  lemma FifoStep(s: State, a: Action)
    requires s.submitted == s.popped + s.queue && Enabled(s, a)
    ensures Apply(s, a).submitted == Apply(s, a).popped + Apply(s, a).queue
  {
    var t := Apply(s, a);
    if a.Decide? && s.queue != [] {
      assert t.submitted == s.submitted && t.popped == s.popped + [s.queue[0]] && t.queue == s.queue[1..];
      FrontMoves(s.popped, s.queue);
    } else if a.AddTask? {
      assert t.popped + t.queue == (s.popped + s.queue) + [a.t];
    } else {
      QueueUntouched(s, a);
    }
  }

  lemma FrontMoves(popped: seq<WorkerTask>, queue: seq<WorkerTask>)
    requires queue != []
    ensures (popped + [queue[0]]) + queue[1..] == popped + queue
  {
    assert queue == [queue[0]] + queue[1..];
  }

  lemma QueueUntouched(s: State, a: Action)
    requires Enabled(s, a) && !a.AddTask? && !(a.Decide? && s.queue != [])
    ensures Apply(s, a).submitted == s.submitted && Apply(s, a).popped == s.popped && Apply(s, a).queue == s.queue
  {
  }

  lemma InFlightStep(s: State, a: Action)
    requires Enabled(s, a) && TasksKept(s)
    ensures TasksKept(Apply(s, a))
  {
    if a.Complete? {
      CompleteKeepsTasks(s, a);
    } else if a.Decide? && s.queue != [] {
      PopKeepsTasks(s, a);
    } else {
      HistoriesUntouched(s, a);
      OthersKeepInFlight(s, a);
    }
  }

  lemma HistoriesUntouched(s: State, a: Action)
    requires Enabled(s, a) && !a.Complete? && !(a.Decide? && s.queue != [])
    ensures Apply(s, a).popped == s.popped && Apply(s, a).completed == s.completed
  {
  }

  lemma CompleteKeepsTasks(s: State, a: Action)
    requires Enabled(s, a) && a.Complete? && TasksKept(s)
    ensures TasksKept(Apply(s, a))
  {
    var job := s.workers[a.id].job;
    GatherUpdate(s.workers, a.id, Waiting, InFlight);
    var before, after := Gather(s.workers, InFlight), Gather(s.workers[a.id := Waiting], InFlight);
    assert before + multiset{} == before;
    assert multiset(s.completed + [job]) == multiset(s.completed) + multiset{job};
    assert multiset(s.completed) + multiset{job} + after == multiset(s.completed) + (after + multiset{job});
  }

  lemma PopKeepsTasks(s: State, a: Action)
    requires Enabled(s, a) && a.Decide? && s.queue != [] && TasksKept(s)
    ensures TasksKept(Apply(s, a))
  {
    var job := s.queue[0];
    GatherUpdate(s.workers, a.id, Executing(job), InFlight);
    var before, after := Gather(s.workers, InFlight), Gather(s.workers[a.id := Executing(job)], InFlight);
    assert after + multiset{} == after;
    assert multiset(s.popped + [job]) == multiset(s.popped) + multiset{job};
    assert multiset(s.completed) + before + multiset{job} == multiset(s.completed) + (before + multiset{job});
  }

  lemma OthersKeepInFlight(s: State, a: Action)
    requires Enabled(s, a) && !a.Complete? && !(a.Decide? && s.queue != [])
    ensures Gather(Apply(s, a).workers, InFlight) == Gather(s.workers, InFlight)
  {
    var t := Apply(s, a);
    Effect(s, a);
    if Actor(s, a).Some? {
      var id := Actor(s, a).value;
      assert !s.workers[id].Executing? && !t.workers[id].Executing?;
      GatherKept(s.workers, id, t.workers[id], InFlight);
    } else if Spawns(s, a) {
      GatherAppend(s.workers, Waiting, InFlight);
      assert Gather(s.workers, InFlight) + multiset{} == Gather(s.workers, InFlight);
    }
  }

  lemma ShutdownStep(s: State, a: Action)
    requires ShutdownInv(s) && Enabled(s, a)
    ensures ShutdownInv(Apply(s, a))
  {
    if Actor(s, a).Some? {
      WorkerKeepsShutdown(s, a);
    } else {
      ManagerKeepsShutdown(s, a);
    }
  }

  lemma WorkerKeepsShutdown(s: State, a: Action)
    requires ShutdownInv(s) && Enabled(s, a) && Actor(s, a).Some?
    ensures ShutdownInv(Apply(s, a))
  {
    CountStep(s, a, ShutdownKilled);
  }

  lemma ManagerKeepsShutdown(s: State, a: Action)
    requires ShutdownInv(s) && Enabled(s, a) && Actor(s, a).None?
    ensures ShutdownInv(Apply(s, a))
  {
    var t := Apply(s, a);
    Effect(s, a);
    if Spawns(s, a) {
      CountAppend(s.workers, Waiting, ShutdownKilled);
      assert t.running == s.running && t.queue == s.queue && t.late == s.late && !InDrain(t.manager);
    } else {
      assert t.running ==> s.running;
      assert t.queue == s.queue || (a.AddTask? && t.late == (s.late || !s.running));
    }
  }

  lemma InvStep(s: State, a: Action)
    requires Inv(s) && Enabled(s, a)
    ensures Inv(Apply(s, a))
  {
    MutexStep(s, a);
    PoolStep(s, a);
    TokenStep(s, a);
    QueueStep(s, a);
    ShutdownStep(s, a);
  }

  lemma {:induction false} InvAlong(s: State, acts: seq<Action>)
    requires Inv(s) && Feasible(s, acts)
    ensures Inv(After(s, acts))
    decreases acts
  {
    if acts == [] {
    } else {
      InvStep(s, acts[0]);
      InvAlong(Apply(s, acts[0]), acts[1..]);
    }
  }

  /** In every run tasks are popped in submission order, the rest is still queued in that order, and
      each popped task is completed or in execution exactly as often as it was popped, whether or not
      tasks throw and however the pool was scaled. */
  lemma ExactlyOnceFifo(acts: seq<Action>)
    requires Feasible(Init(), acts)
    ensures var s := After(Init(), acts);
            && s.submitted == s.popped + s.queue
            && multiset(s.popped) == multiset(s.completed) + Gather(s.workers, InFlight)
            && multiset(s.completed) <= multiset(s.submitted)
  {
    InitInv();
    InvAlong(Init(), acts);
    var s := After(Init(), acts);
    assert multiset(s.submitted) == multiset(s.popped) + multiset(s.queue);
  }

  /** In every run at most one kill token is out, a worker swaps in exactly the value it saw less one,
      and issued tokens equal the one outstanding plus the workers that left by taking one. */
  lemma TokenAccounting(acts: seq<Action>)
    requires Feasible(Init(), acts)
    ensures var s := After(Init(), acts);
            && s.killThread <= 1
            && s.issued == s.killThread + Count(s.workers, TokenKilled)
            && (forall id :: 0 <= id < |s.workers| && s.workers[id].AtCas? ==> s.killThread == s.workers[id].seen == 1)
            && (s.manager.AtKillCas? ==> s.killThread == 0)
  {
    InitInv();
    InvAlong(Init(), acts);
  }

  /** In every run no swap on the kill token is lost to another thread: a worker's takes the token, and the
      manager's sends one, exactly if it does not fail for no reason. */
  lemma SwapsFailOnlySpuriously(acts: seq<Action>, id: nat, spurious: bool)
    requires Feasible(Init(), acts)
    ensures var s := After(Init(), acts);
            && (Enabled(s, CasKill(id, spurious)) ==>
                  var t := Apply(s, CasKill(id, spurious));
                  if spurious then t.killThread == s.killThread == 1 && t.workers[id].Deciding?
                  else t.killThread == 0 && t.workers[id] == Storing(ByToken(s.passes)))
            && (Enabled(s, IssueToken(spurious)) ==>
                  var t := Apply(s, IssueToken(spurious));
                  if spurious then t.killThread == 0 && t.issued == s.issued
                  else t.killThread == 1 && t.issued == s.issued + 1)
  {
    TokenAccounting(acts);
  }
}
