/** The thread pool as an object whose methods change its fields in place.

    Every method is proved to extend a run of the transition system: `trace` is the run that led
    to the current fields, so whatever holds of all runs holds of every pool object. Where the
    source can be preempted, `Interfere` lets the other threads take any steps they can. */
module ThreadPoolObject {
  import opened Sequences
  import opened PoolModel
  import opened PoolInvariants
  import opened PoolShutdown
  import opened PoolThreads

  /** What the rest of the system does at the n-th point where a thread can be preempted. */
  type Schedule = nat -> seq<Action>

  class ThreadPool {
    // members of the source's class
    var running_: bool
    var killThread: nat
    var taskQueue_: seq<WorkerTask>
    var taskMutex_: Option<nat>
    var scaleUp: Policy
    var scaleDown: Policy
    // locals of managerFunction
    var workerPool: seq<nat>
    var workerCount: int
    var queueSize: nat
    // where each thread is
    var threads: seq<WorkerPc>
    var manager: ManagerPc
    // histories
    var submitted: seq<WorkerTask>
    var popped: seq<WorkerTask>
    var completed: seq<WorkerTask>
    var issued: nat
    var passes: nat
    var late: bool
    ghost var trace: seq<Action>

    /** The fields as a state of the transition system. */
    function Model(): State
      reads this
    {
      State(running_, killThread, taskQueue_, taskMutex_, threads, workerPool, workerCount, queueSize,
            manager, scaleUp, scaleDown, submitted, popped, completed, issued, passes, late)
    }

    /** The fields are where the recorded run leads. */
    ghost predicate Valid()
      reads this
    {
      Feasible(Init(), trace) && After(Init(), trace) == Model()
    }

    ghost method Record(before: State, a: Action)
      requires Feasible(Init(), trace) && After(Init(), trace) == before
      requires Enabled(before, a) && Model() == Apply(before, a)
      modifies this`trace
      ensures Valid() && trace == old(trace) + [a]
    {
      ExtendOne(Init(), trace, a);
      trace := trace + [a];
    }

    constructor ()
      ensures Valid() && trace == [] && Model() == Init()
    {
      running_, killThread, taskQueue_, taskMutex_ := true, 0, [], None;
      scaleUp, scaleDown := DefaultScaleUp, DefaultScaleDown;
      workerPool, workerCount, queueSize := [], 0, 0;
      threads, manager := [], LoopTest;
      submitted, popped, completed, issued, passes, late := [], [], [], 0, 0, false;
      trace := [];
    }

    // ---- calls by clients ----

    /** Enqueues a task; the call gets the mutex when no worker holds it. */
    method AddTask(task: nat, payload: string)
      requires Valid() && taskMutex_.None?
      modifies this
      ensures Valid() && trace == old(trace) + [PoolModel.AddTask(WorkerTask(task, payload))]
      ensures taskQueue_ == old(taskQueue_) + [WorkerTask(task, payload)]
      ensures submitted == old(submitted) + [WorkerTask(task, payload)] && popped == old(popped)
    {
      ghost var before := Model();
      taskQueue_ := taskQueue_ + [WorkerTask(task, payload)];
      submitted := submitted + [WorkerTask(task, payload)];
      late := late || !running_;
      Record(before, PoolModel.AddTask(WorkerTask(task, payload)));
    }

    method SetScaleUp(policy: Policy)
      requires Valid() && taskMutex_.None?
      modifies this
      ensures Valid() && trace == old(trace) + [PoolModel.SetScaleUp(policy)] && scaleUp == policy
    {
      ghost var before := Model();
      scaleUp := policy;
      Record(before, PoolModel.SetScaleUp(policy));
    }

    method SetScaleDown(policy: Policy)
      requires Valid() && taskMutex_.None?
      modifies this
      ensures Valid() && trace == old(trace) + [PoolModel.SetScaleDown(policy)] && scaleDown == policy
    {
      ghost var before := Model();
      scaleDown := policy;
      Record(before, PoolModel.SetScaleDown(policy));
    }

    /** Lowers the flag; waiting for the manager is the caller's business. */
    method Shutdown()
      requires Valid()
      modifies this
      ensures Valid() && trace == old(trace) + [PoolModel.Shutdown] && !running_
    {
      ghost var before := Model();
      running_ := false;
      Record(before, PoolModel.Shutdown);
    }

    // ---- atomic steps of a worker ----

    /** The wait returns: the predicate held and the mutex is ours. */
    method WakeUp(id: nat)
      requires Valid() && Enabled(Model(), Wake(id))
      modifies this`taskMutex_, this`threads, this`trace
      ensures Valid() && trace == old(trace) + [Wake(id)]
      ensures threads == old(threads)[id := Woken]
    {
      ghost var before := Model();
      taskMutex_ := Some(id);
      threads := threads[id := Woken];
      Record(before, Wake(id));
    }

    method LoadKillThread(id: nat) returns (killCount: nat)
      requires Valid() && Enabled(Model(), LoadKill(id))
      modifies this`threads, this`trace
      ensures Valid() && trace == old(trace) + [LoadKill(id)] && killCount == killThread == old(killThread)
      ensures threads == old(threads)[id := if killCount > 0 then AtCas(killCount) else Deciding]
    {
      ghost var before := Model();
      killCount := killThread;
      threads := threads[id := if killCount > 0 then AtCas(killCount) else Deciding];
      Record(before, LoadKill(id));
    }

    /** compare_exchange_weak: may fail although the value matches. */
    method TakeToken(id: nat, spurious: bool) returns (taken: bool)
      requires Valid() && Enabled(Model(), CasKill(id, spurious))
      modifies this`killThread, this`threads, this`trace
      ensures Valid() && trace == old(trace) + [CasKill(id, spurious)]
      ensures taken <==> !spurious && old(killThread) == old(threads[id]).seen
      ensures killThread == if taken then old(killThread) - 1 else old(killThread)
      ensures id < |threads| && if taken then threads[id] == Storing(ByToken(passes)) else threads[id].Deciding?
    {
      ghost var before := Model();
      var killCount: nat := threads[id].seen;
      taken := !spurious && killThread == killCount;
      if taken {
        killThread := killCount - 1;
        threads := threads[id := Storing(ByToken(passes))];
      } else {
        threads := threads[id := Deciding];
      }
      Record(before, CasKill(id, spurious));
    }

    /** Leaves, takes the front task, or goes round again; the last two release the mutex. */
    method LeaveOrPop(id: nat)
      requires Valid() && Enabled(Model(), Decide(id))
      modifies this
      ensures Valid() && trace == old(trace) + [Decide(id)]
      ensures old(taskQueue_) == [] ==> taskQueue_ == [] && popped == old(popped)
      ensures old(taskQueue_) != [] ==>
                id < |threads| && threads[id] == Executing(old(taskQueue_)[0]) && taskQueue_ == old(taskQueue_)[1..]
      ensures id < |threads| && (threads[id] == Storing(ByShutdown) || threads[id].Executing? || threads[id].Waiting?)
      ensures threads[id].Waiting? ==> old(running_) && old(taskQueue_) == []
    {
      ghost var before := Model();
      LeaveOrPopLocked(id);
      Record(before, Decide(id));
    }

    method LeaveOrPopLocked(id: nat)
      requires Enabled(Model(), Decide(id))
      modifies this`threads, this`taskQueue_, this`popped, this`taskMutex_
      ensures Model() == Apply(old(Model()), Decide(id))
    {
      if !running_ && taskQueue_ == [] {
        threads := threads[id := Storing(ByShutdown)];
      } else if taskQueue_ != [] {
        var task := taskQueue_[0];
        taskQueue_ := taskQueue_[1..];
        popped := popped + [task];
        taskMutex_ := None;
        threads := threads[id := Executing(task)];
      } else {
        taskMutex_ := None;
        threads := threads[id := Waiting];
      }
    }

    /** The task's function returns or throws a std::exception that is logged; either way the loop goes on. */
    method RunTask(id: nat, threw: bool)
      requires Valid() && Enabled(Model(), Complete(id, threw))
      modifies this
      ensures Valid() && trace == old(trace) + [Complete(id, threw)]
      ensures id < |threads| && threads[id].Waiting?
    {
      ghost var before := Model();
      completed := completed + [threads[id].job];
      threads := threads[id := Waiting];
      Record(before, Complete(id, threw));
    }

    method SetFinished(id: nat)
      requires Valid() && Enabled(Model(), StoreFinished(id))
      modifies this
      ensures Valid() && trace == old(trace) + [StoreFinished(id)]
      ensures threads == old(threads)[id := Stored(old(threads)[id].reason)]
    {
      ghost var before := Model();
      threads := threads[id := Stored(threads[id].reason)];
      Record(before, StoreFinished(id));
    }

    method Exit(id: nat)
      requires Valid() && Enabled(Model(), PoolModel.Leave(id))
      modifies this
      ensures Valid() && trace == old(trace) + [PoolModel.Leave(id)] && taskMutex_.None?
      ensures threads == old(threads)[id := Exited(old(threads)[id].reason)]
    {
      ghost var before := Model();
      taskMutex_ := None;
      threads := threads[id := Exited(threads[id].reason)];
      Record(before, PoolModel.Leave(id));
    }

    // ---- atomic steps of the manager ----

    method LoadRunning() returns (r: bool)
      requires Valid() && manager.LoopTest?
      modifies this`manager, this`trace
      ensures Valid() && trace == old(trace) + [TestRunning] && r == running_ == old(running_)
      ensures manager == if r then Sampling else DrainTest
    {
      ghost var before := Model();
      r := running_;
      manager := if r then Sampling else DrainTest;
      Record(before, TestRunning);
    }

    method SampleQueue()
      requires Valid() && manager.Sampling? && taskMutex_.None?
      modifies this`queueSize, this`passes, this`manager, this`trace
      ensures Valid() && trace == old(trace) + [Sample] && queueSize == |taskQueue_| && manager == UpTest
    {
      ghost var before := Model();
      queueSize := |taskQueue_|;
      passes := passes + 1;
      manager := UpTest;
      Record(before, Sample);
    }

    /** Consults scaleUp and starts one worker if it says so. */
    method MaybeSpawn() returns (spawned: bool)
      requires Valid() && manager.UpTest?
      modifies this`workerPool, this`threads, this`workerCount, this`manager, this`trace
      ensures Valid() && trace == old(trace) + [TestUp]
      ensures spawned <==> old(scaleUp)(AsUint(old(queueSize)), AsUint(old(workerCount)))
      ensures workerPool == if spawned then old(workerPool) + [|old(threads)|] else old(workerPool)
      ensures workerCount == old(workerCount) + (if spawned then 1 else 0)
      ensures manager == if spawned then LoopTest else DownTest
    {
      ghost var before := Model();
      spawned := SpawnIfAsked();
      Record(before, TestUp);
    }

    method SpawnIfAsked() returns (spawned: bool)
      requires manager.UpTest?
      modifies this`workerPool, this`threads, this`workerCount, this`manager
      ensures Model() == Apply(old(Model()), TestUp) && spawned == Spawns(old(Model()), TestUp)
    {
      spawned := scaleUp(AsUint(queueSize), AsUint(workerCount));
      if spawned {
        workerPool := workerPool + [|threads|];
        threads := threads + [Waiting];
        workerCount := workerCount + 1;
        manager := LoopTest;
      } else {
        manager := DownTest;
      }
    }

    method ConsultScaleDown() returns (down: bool)
      requires Valid() && manager.DownTest?
      modifies this`manager, this`trace
      ensures Valid() && trace == old(trace) + [TestDown] && manager == if down then LoadingKill else LoopTest
      ensures down <==> scaleDown(AsUint(queueSize), AsUint(workerCount))
    {
      ghost var before := Model();
      down := scaleDown(AsUint(queueSize), AsUint(workerCount));
      manager := if down then LoadingKill else LoopTest;
      Record(before, TestDown);
    }

    method LoadOutstanding() returns (killCount: nat)
      requires Valid() && manager.LoadingKill?
      modifies this`manager, this`trace
      ensures Valid() && trace == old(trace) + [LoadToken] && killCount == killThread
      ensures manager == if killCount == 0 then AtKillCas else Reaping(0, false)
    {
      ghost var before := Model();
      killCount := killThread;
      manager := if killCount == 0 then AtKillCas else Reaping(0, false);
      Record(before, LoadToken);
    }

    method SendToken(spurious: bool)
      requires Valid() && manager.AtKillCas?
      modifies this`killThread, this`issued, this`manager, this`trace
      ensures Valid() && trace == old(trace) + [IssueToken(spurious)] && manager == Reaping(0, false)
      ensures killThread == if !spurious && old(killThread) == 0 then 1 else old(killThread)
    {
      ghost var before := Model();
      if !spurious && killThread == 0 {
        killThread := 1;
        issued := issued + 1;
      }
      manager := Reaping(0, false);
      Record(before, IssueToken(spurious));
    }

    /** One look at the iterator: at the end, at a finished worker, or at a live one. */
    method LoadFinished() returns (finished: bool)
      requires Valid() && Enabled(Model(), Scan)
      modifies this`manager, this`trace
      ensures Valid() && trace == old(trace) + [Scan] && workerPool == old(workerPool)
      ensures var i, drain := old(manager).next, old(manager).drain;
              && (i == |workerPool| ==> !finished && manager == if drain then DrainTest else LoopTest)
              && (i < |workerPool| ==> manager == if finished then Joining(i, drain) else Reaping(i + 1, drain))
    {
      ghost var before := Model();
      var i, drain := manager.next, manager.drain;
      if i == |workerPool| {
        finished := false;
        manager := if drain then DrainTest else LoopTest;
      } else {
        finished := Finished(threads[workerPool[i]]);
        manager := if finished then Joining(i, drain) else Reaping(i + 1, drain);
      }
      Record(before, Scan);
    }

    /** Joins the thread under the iterator, which has exited, and erases it from the vector. */
    method JoinAndErase()
      requires Valid() && Enabled(Model(), Join)
      modifies this
      ensures Valid() && trace == old(trace) + [Join]
      ensures var i := old(manager).at;
              workerPool == old(workerPool)[..i] + old(workerPool)[i + 1..] && manager == Reaping(i, old(manager).drain)
      ensures workerCount == old(workerCount) - 1
    {
      ghost var before := Model();
      EraseJoined();
      Record(before, Join);
    }

    method EraseJoined()
      requires Enabled(Model(), Join)
      modifies this`threads, this`workerPool, this`workerCount, this`manager
      ensures Model() == Apply(old(Model()), Join)
    {
      var i, drain := manager.at, manager.drain;
      var id := workerPool[i];
      threads := threads[id := Joined(threads[id].reason)];
      workerPool := workerPool[..i] + workerPool[i + 1..];
      workerCount := workerCount - 1;
      manager := Reaping(i, drain);
    }

    method TestCount() returns (more: bool)
      requires Valid() && manager.DrainTest?
      modifies this
      ensures Valid() && trace == old(trace) + [TestDrained] && workerPool == old(workerPool)
      ensures more <==> workerCount != 0
      ensures manager == if more then Reaping(0, true) else Returned
    {
      ghost var before := Model();
      more := workerCount != 0;
      manager := if more then Reaping(0, true) else Returned;
      Record(before, TestDrained);
    }

    // ---- the other threads ----

    /** Any one enabled step of any thread or client. */
    method Perform(a: Action)
      requires Valid() && Enabled(Model(), a)
      modifies this
      ensures Valid() && trace == old(trace) + [a] && Model() == Apply(old(Model()), a)
    {
      ExtendOne(Init(), trace, a);
      match a {
        case AddTask(t) => AddTask(t.task, t.payload);
        case SetScaleUp(policy) => SetScaleUp(policy);
        case SetScaleDown(policy) => SetScaleDown(policy);
        case Shutdown => Shutdown();
        case Wake(id) => WakeUp(id);
        case LoadKill(id) => var _ := LoadKillThread(id);
        case CasKill(id, spurious) => var _ := TakeToken(id, spurious);
        case Decide(id) => LeaveOrPop(id);
        case Complete(id, threw) => RunTask(id, threw);
        case StoreFinished(id) => SetFinished(id);
        case Leave(id) => Exit(id);
        case TestRunning => var _ := LoadRunning();
        case Sample => SampleQueue();
        case TestUp => var _ := MaybeSpawn();
        case TestDown => var _ := ConsultScaleDown();
        case LoadToken => var _ := LoadOutstanding();
        case IssueToken(spurious) => SendToken(spurious);
        case Scan => var _ := LoadFinished();
        case Join => JoinAndErase();
        case TestDrained => var _ := TestCount();
      }
    }

    /** The run since `before` is an extension in which `me` took exactly the steps `mine`. */
    ghost predicate Since(before: seq<Action>, me: Thread, mine: seq<Action>)
      reads this
    {
      Valid() && before <= trace && Steps(me, trace[|before|..]) == mine
    }

    /** Whatever the other threads do while `me` can be preempted; steps that are not enabled, or that
        are not theirs, are skipped. */
    method Interfere(me: Thread, steps: seq<Action>, ghost before: seq<Action>, ghost mine: seq<Action>)
      requires Since(before, me, mine)
      modifies this
      ensures Since(before, me, mine)
      ensures Undisturbed(me, old(Model()), Model()) && Guarded(me, old(Model()), Model())
      ensures steps == [] ==> Model() == old(Model())
    {
      for n := 0 to |steps|
        invariant Since(before, me, mine)
        invariant Undisturbed(me, old(Model()), Model()) && Guarded(me, old(Model()), Model())
        invariant steps == [] ==> Model() == old(Model())
      {
        if !By(me, steps[n]) && Enabled(Model(), steps[n]) {
          ghost var s, run := Model(), trace;
          Known();
          Perform(steps[n]);
          OthersLeave(me, s, steps[n]);
          OthersKeepOut(me, s, steps[n]);
          StillGuarded(me, old(Model()), s, Model());
          StepsExtend(me, before, run, steps[n]);
        }
      }
    }

    /** A step of the thread itself, taken right after the run was `run`. */
    lemma Own(me: Thread, before: seq<Action>, run: seq<Action>, mine: seq<Action>, a: Action)
      requires Valid() && before <= run && trace == run + [a] && By(me, a)
      requires Steps(me, run[|before|..]) == mine
      ensures Since(before, me, mine + [a])
    {
      StepsExtend(me, before, run, a);
    }

    /** The steps up to the run `run`, and those since. */
    lemma Onward(me: Thread, before: seq<Action>, run: seq<Action>, mine: seq<Action>, more: seq<Action>)
      requires before <= run && Steps(me, run[|before|..]) == mine && Since(run, me, more)
      ensures Since(before, me, mine + more)
    {
      assert trace[|before|..] == run[|before|..] + trace[|run|..];
      StepsConcat(me, run[|before|..], trace[|run|..]);
    }

    lemma Known()
      requires Valid()
      ensures Inv(Model())
    {
      InitInv();
      InvAlong(Init(), trace);
    }

    /** The vector only holds threads that were started. */
    lemma Indices()
      requires Valid()
      ensures forall i :: 0 <= i < |workerPool| ==> workerPool[i] < |threads|
    {
      Known();
    }

    // ---- the manager thread ----

    /** The manager is held up by a worker inside its critical section. */
    predicate AwaitingMutex()
      reads this
    {
      manager.Sampling? && taskMutex_.Some?
    }

    /** The manager is held up by a thread that has not returned yet. */
    predicate AwaitingExit()
      reads this
    {
      && manager.Joining? && manager.at < |workerPool|
      && workerPool[manager.at] < |threads| && !threads[workerPool[manager.at]].Exited?
    }

    /** Where a pass ends that began with this vector and these threads. */
    predicate PassEnds(pass: Pass, pool: seq<nat>, earlier: seq<WorkerPc>)
      reads this
    {
      match pass
      case Left => manager.DrainTest? && !running_ && workerPool == pool
      case AtMutex => AwaitingMutex() && workerPool == pool
      case Spawned => manager.LoopTest? && |workerPool| == |pool| + 1 && workerPool[..|pool|] == pool
      case Steady => manager.LoopTest? && workerPool == pool
      case AtJoin(_, joins) => AwaitingExit() && |joins| < |pool| && workerPool == Kept(pool, joins)
      case Swept(_, joins) =>
        && manager.LoopTest? && |joins| == |pool| && workerPool == Kept(pool, joins)
        && AllGone(earlier, threads)
    }

    /** One pass of the manager loop: its own steps are those of a pass that went one of six ways. A pass
        that sweeps goes over the whole vector and joins every thread finished before the pass began. It
        stops early only where the thread waits for the mutex or for a thread to return. */
    method ManagerPass(env: Schedule, spurious: bool) returns (blocked: bool, ghost pass: Pass)
      requires Valid() && manager.LoopTest?
      modifies this
      ensures Since(old(trace), Manager, PassSteps(pass, spurious))
      ensures PassEnds(pass, old(workerPool), old(threads))
      ensures blocked <==> Blocked(pass)
    {
      ghost var before, start := trace, Model();
      var shrink: bool;
      blocked, shrink, pass := Consult(env);
      if shrink {
        ghost var run := trace;
        blocked, pass := ShrinkPool(env, spurious, before, start);
        assert PassSteps(Steady, spurious) + ShrinkSteps(pass, spurious) == PassSteps(pass, spurious);
        Onward(Manager, before, run, PassSteps(Steady, spurious), ShrinkSteps(pass, spurious));
      }
    }

    /** The first half of a pass: test the flag, sample the queue, grow or decide to shrink. */
    method Consult(env: Schedule) returns (blocked: bool, shrink: bool, ghost pass: Pass)
      requires Valid() && manager.LoopTest?
      modifies this
      ensures Since(old(trace), Manager, PassSteps(pass, false))
      ensures !pass.AtJoin? && !pass.Swept? && (blocked <==> pass.AtMutex?)
      ensures if shrink then pass.Steady? && manager.LoadingKill? && workerPool == old(workerPool)
              else PassEnds(pass, old(workerPool), old(threads))
    {
      shrink := false;
      ghost var before := trace;
      var running;
      running, blocked := TestFlag(env(0));
      if !running { pass := Left; return; }
      if blocked { pass := AtMutex; return; }
      ghost var run := trace;
      var spawned;
      spawned, shrink := ConsultPolicies(env);
      pass := if spawned then Spawned else Steady;
      Onward(Manager, before, run, [TestRunning], if spawned then [Sample, TestUp] else [Sample, TestUp, TestDown]);
    }

    /** Loads running_ and, while it is up, waits for the mutex. */
    method TestFlag(others: seq<Action>) returns (running: bool, blocked: bool)
      requires Valid() && manager.LoopTest?
      modifies this
      ensures Since(old(trace), Manager, [TestRunning]) && workerPool == old(workerPool)
      ensures if running then manager.Sampling? && (blocked <==> taskMutex_.Some?)
              else !blocked && manager.DrainTest? && !running_
    {
      ghost var before := trace;
      blocked := false;
      running := LoadRunning();
      Own(Manager, before, before, [], TestRunning);
      if running {
        Interfere(Manager, others, before, [TestRunning]);
        blocked := taskMutex_.Some?;
      }
    }

    /** Samples the queue and consults scaleUp and, unless that asks for a worker, scaleDown. */
    method ConsultPolicies(env: Schedule) returns (spawned: bool, shrink: bool)
      requires Valid() && manager.Sampling? && taskMutex_.None?
      modifies this
      ensures Since(old(trace), Manager, if spawned then [Sample, TestUp] else [Sample, TestUp, TestDown])
      ensures if spawned then
                && !shrink && manager.LoopTest? && |workerPool| == |old(workerPool)| + 1
                && workerPool[..|old(workerPool)|] == old(workerPool)
              else manager == (if shrink then LoadingKill else LoopTest) && workerPool == old(workerPool)
      ensures !spawned ==> (shrink <==> scaleDown(AsUint(|old(taskQueue_)|), AsUint(old(workerCount))))
    {
      ghost var before := trace;
      shrink := false;
      spawned := Grow(env(1));
      if !spawned {
        Interfere(Manager, env(2), before, [Sample, TestUp]);
        ghost var run := trace;
        shrink := ConsultScaleDown();
        Own(Manager, before, run, [Sample, TestUp], TestDown);
      }
    }

    /** Samples the queue under the mutex and consults scaleUp. */
    method Grow(others: seq<Action>) returns (spawned: bool)
      requires Valid() && manager.Sampling? && taskMutex_.None?
      modifies this
      ensures Since(old(trace), Manager, [Sample, TestUp])
      ensures if spawned then
                && manager.LoopTest? && |workerPool| == |old(workerPool)| + 1
                && workerPool[..|old(workerPool)|] == old(workerPool)
              else manager.DownTest? && workerPool == old(workerPool)
      // by the queue as it is now
      ensures spawned <==> scaleUp(AsUint(|old(taskQueue_)|), AsUint(old(workerCount)))
      ensures queueSize == |old(taskQueue_)| && (!spawned ==> workerCount == old(workerCount))
    {
      ghost var before := trace;
      SampleQueue();
      Own(Manager, before, before, [], Sample);
      Interfere(Manager, others, before, [Sample]);
      ghost var run := trace;
      spawned := MaybeSpawn();
      Own(Manager, before, run, [Sample], TestUp);
    }

    /** The second half of a pass: offer a token and sweep the vector. */
    method ShrinkPool(env: Schedule, spurious: bool, ghost before: seq<Action>, ghost start: State)
      returns (blocked: bool, ghost pass: Pass)
      requires Valid() && manager.LoadingKill?
      requires before <= trace && Feasible(Init(), before) && After(Init(), before) == start
      modifies this
      ensures pass.AtJoin? || pass.Swept?
      ensures Since(old(trace), Manager, ShrinkSteps(pass, spurious))
      ensures PassEnds(pass, old(workerPool), start.workers)
      ensures blocked <==> pass.AtJoin?
    {
      ghost var run := trace;
      ghost var offered := OfferToken((n: nat) => env(n + 3), spurious);
      ghost var mid := trace;
      FinishedSince(before, start);
      ghost var joins;
      blocked, joins := Reap((n: nat) => env(n + 5), start.workers);
      pass := if blocked then AtJoin(offered, joins) else Swept(offered, joins);
      Onward(Manager, run, mid, OfferSteps(offered, spurious), SweepSteps(joins));
    }

    /** Sends a kill token unless one is still out. */
    method OfferToken(env: Schedule, spurious: bool) returns (ghost offered: bool)
      requires Valid() && manager.LoadingKill?
      modifies this
      ensures Since(old(trace), Manager, OfferSteps(offered, spurious))
      ensures manager == Reaping(0, false) && workerPool == old(workerPool)
    {
      ghost var before := trace;
      Interfere(Manager, env(0), before, []);
      ghost var run := trace;
      var killCount := LoadOutstanding();
      Own(Manager, before, run, [], LoadToken);
      offered := killCount == 0;
      if killCount == 0 {
        Interfere(Manager, env(1), before, [LoadToken]);
        run := trace;
        SendToken(spurious);
        Own(Manager, before, run, [LoadToken], IssueToken(spurious));
      }
    }

    /** Everything that had finished when the run was `before` still has. */
    lemma FinishedSince(before: seq<Action>, start: State)
      requires Valid() && before <= trace && Feasible(Init(), before) && After(Init(), before) == start
      ensures StillFinished(start.workers, threads)
    {
      var more := trace[|before|..];
      assert trace == before + more;
      Split(Init(), before, more);
      FinishedStays(start, more);
    }

    /** The erase-while-iterating sweep over the vector, in either manager loop: it looks at each worker
        once, in order, and joins and erases it if it has finished, as all those finished earlier have.
        It stops early only at a finished worker whose thread has not returned. */
    method Reap(env: Schedule, ghost earlier: seq<WorkerPc>) returns (blocked: bool, ghost joins: seq<bool>)
      requires Valid() && manager.Reaping? && manager.next == 0
      requires StillFinished(earlier, threads)
      modifies this
      ensures Since(old(trace), Manager, SweepSteps(joins))
      ensures |joins| <= |old(workerPool)| && workerPool == Kept(old(workerPool), joins)
      ensures blocked ==> |joins| < |old(workerPool)| && AwaitingExit()
      ensures !blocked ==> |joins| == |old(workerPool)| && AllGone(earlier, threads)
      ensures !blocked ==> manager == if old(manager).drain then DrainTest else LoopTest
    {
      ghost var before, pool := trace, workerPool;
      var drain := manager.drain;
      var it: nat, tick: nat := 0, 0;
      joins := [];
      ghost var run := trace;
      while it < |workerPool|
        invariant manager == Reaping(it, drain) && |joins| <= |pool|
        invariant it == |PassedOver(pool, joins)| && workerPool == Kept(pool, joins)
        invariant Since(before, Manager, Turns(joins))
        invariant StillFinished(earlier, threads) && Cleared(earlier, workerPool, it)
        decreases |pool| - |joins|
      {
        run := trace;
        ghost var joined;
        blocked, it, joined := SweepOne(it, env(tick), env(tick + 1), earlier);
        if blocked {
          Onward(Manager, before, run, Turns(joins), [Scan]);
          return;
        }
        AnotherTurn(before, run, joins, joined);
        KeptTurn(pool, joins, joined);
        joins := joins + [joined];
        tick := tick + 2;
      }
      run := trace;
      SweepEnd(earlier);
      Onward(Manager, before, run, Turns(joins), [Scan]);
      blocked := false;
    }

    lemma AnotherTurn(before: seq<Action>, run: seq<Action>, joins: seq<bool>, joined: bool)
      requires before <= run && Steps(Manager, run[|before|..]) == Turns(joins) && Since(run, Manager, Turn(joined))
      ensures Since(before, Manager, Turns(joins + [joined]))
    {
      TurnsExtend(joins, joined);
      Onward(Manager, before, run, Turns(joins), Turn(joined));
    }

    /** One turn of the sweep: go past a live worker, or join and erase a finished one. */
    method SweepOne(it: nat, first: seq<Action>, second: seq<Action>, ghost earlier: seq<WorkerPc>)
      returns (blocked: bool, it': nat, ghost joined: bool)
      requires Valid() && manager.Reaping? && manager.next == it < |workerPool|
      requires StillFinished(earlier, threads) && Cleared(earlier, workerPool, it)
      modifies this
      ensures Since(old(trace), Manager, if blocked then [Scan] else Turn(joined))
      ensures blocked ==> AwaitingExit() && workerPool == old(workerPool)
      ensures !blocked ==>
                && it' == (if joined then it else it + 1) && manager == Reaping(it', old(manager).drain)
                && workerPool == (if joined then old(workerPool)[..it] + old(workerPool)[it + 1..] else old(workerPool))
                && StillFinished(earlier, threads) && Cleared(earlier, workerPool, it')
    {
      ghost var before := trace;
      it' := it;
      var finished := Peek(first, earlier);
      joined := finished;
      if finished {
        ghost var run := trace;
        blocked := Erase(second, earlier);
        if blocked {
          Onward(Manager, before, run, [Scan], []);
        } else {
          Onward(Manager, before, run, [Scan], [Join]);
        }
      } else {
        blocked, it' := false, it + 1;
      }
    }

    /** Looks at the worker under the iterator. */
    method Peek(others: seq<Action>, ghost earlier: seq<WorkerPc>) returns (finished: bool)
      requires Valid() && manager.Reaping? && manager.next < |workerPool|
      requires StillFinished(earlier, threads) && Cleared(earlier, workerPool, manager.next)
      modifies this
      ensures Since(old(trace), Manager, [Scan]) && workerPool == old(workerPool) && StillFinished(earlier, threads)
      ensures var it, drain := old(manager).next, old(manager).drain;
              && manager == (if finished then Joining(it, drain) else Reaping(it + 1, drain))
              && Cleared(earlier, workerPool, if finished then it else it + 1)
    {
      ghost var before := trace;
      Interfere(Manager, others, before, []);
      Indices();
      ghost var run, s := trace, Model();
      finished := LoadFinished();
      Own(Manager, before, run, [], Scan);
      FinishedOne(s, run, Scan);
    }

    /** Joins and erases the finished worker under the iterator once its thread has returned. */
    method Erase(others: seq<Action>, ghost earlier: seq<WorkerPc>) returns (blocked: bool)
      requires Valid() && manager.Joining? && manager.at < |workerPool|
      requires StillFinished(earlier, threads) && Cleared(earlier, workerPool, manager.at)
      modifies this
      ensures Since(old(trace), Manager, if blocked then [] else [Join])
      ensures blocked ==> AwaitingExit() && workerPool == old(workerPool)
      ensures !blocked ==>
                var it := old(manager).at;
                && manager == Reaping(it, old(manager).drain)
                && workerPool == old(workerPool)[..it] + old(workerPool)[it + 1..]
                && StillFinished(earlier, threads) && Cleared(earlier, workerPool, it)
    {
      blocked := false;
      ghost var before := trace;
      Interfere(Manager, others, before, []);
      Indices();
      if !threads[workerPool[manager.at]].Exited? { blocked := true; return; }
      ghost var run, s := trace, Model();
      JoinAndErase();
      Own(Manager, before, run, [], Join);
      FinishedOne(s, run, Join);
      ClearedErase(earlier, s.pool, s.manager.at);
    }

    /** The look at the end of the vector. */
    method SweepEnd(ghost earlier: seq<WorkerPc>)
      requires Valid() && manager.Reaping? && manager.next == |workerPool|
      requires StillFinished(earlier, threads) && Cleared(earlier, workerPool, |workerPool|)
      modifies this
      ensures Since(old(trace), Manager, [Scan])
      ensures manager == (if old(manager).drain then DrainTest else LoopTest) && workerPool == old(workerPool)
      ensures AllGone(earlier, threads)
    {
      Known();
      ClearedAll(earlier);
      ghost var run := trace;
      var _ := LoadFinished();
      Own(Manager, run, run, [], Scan);
    }

    /** The whole manager thread, cut off after `fuel` turns of its loops: its own steps are those of the
        passes, of the drain sweeps after the pass that found the flag down, and of the last count. It
        stops before that only out of turns, or where it waits for the mutex or for a thread to return.
        When it returns every thread has been joined, and if the pool was settled on leaving the first
        loop (see `Settled`) and no task came late, every submitted task has run exactly once. */
    method ManagerFunction(env: nat -> Schedule, spurious: nat -> bool, fuel: nat)
      returns (returned: bool, ghost left: seq<Action>, ghost passes: seq<Pass>, ghost sweeps: seq<seq<bool>>)
      requires Valid() && manager.LoopTest?
      modifies this
      ensures Since(old(trace), Manager,
                    PassesSteps(passes, spurious) + DrainSteps(sweeps) + if returned then [TestDrained] else [])
      ensures passes != [] ==> GoOn(passes[..|passes| - 1])
      ensures returned || sweeps != [] ==> passes != [] && passes[|passes| - 1].Left?
      ensures !returned ==> |passes| + |sweeps| >= fuel || AwaitingMutex() || AwaitingExit()
      ensures returned ==>
                && manager.Returned? && old(trace) <= left <= trace
                && Feasible(Init(), left) && After(Init(), left).manager.DrainTest?
                && workerCount == 0 && (forall id :: 0 <= id < |threads| ==> threads[id].Joined?)
      ensures returned && !late && Settled(After(Init(), left)) ==>
                taskQueue_ == [] && popped == submitted && multiset(completed) == multiset(submitted)
    {
      ghost var before := trace;
      var cut: bool, n: nat;
      returned, sweeps := false, [];
      cut, n, passes := RunPasses(env, spurious, fuel);
      left := trace;
      if cut {
        assert PassesSteps(passes, spurious) + [] + [] == PassesSteps(passes, spurious);
        return;
      }
      returned, sweeps := Drain(env, n, fuel);
      ghost var more := DrainSteps(sweeps) + if returned then [TestDrained] else [];
      Onward(Manager, before, left, PassesSteps(passes, spurious), more);
      if returned { AtReturn(left); }
    }

    /** The first loop. */
    method RunPasses(env: nat -> Schedule, spurious: nat -> bool, fuel: nat)
      returns (cut: bool, n: nat, ghost passes: seq<Pass>)
      requires Valid() && manager.LoopTest?
      modifies this
      ensures Since(old(trace), Manager, PassesSteps(passes, spurious)) && n == |passes|
      ensures passes != [] ==> GoOn(passes[..n - 1])
      ensures if cut then n >= fuel || AwaitingMutex() || AwaitingExit()
              else manager.DrainTest? && passes != [] && passes[n - 1].Left?
    {
      cut, n, passes := false, 0, [];
      ghost var before := trace;
      while manager.LoopTest?
        invariant Since(before, Manager, PassesSteps(passes, spurious)) && n == |passes|
        invariant manager.LoopTest? || manager.DrainTest?
        invariant if manager.LoopTest? then GoOn(passes) else n > 0 && passes[n - 1].Left? && GoOn(passes[..n - 1])
        decreases fuel - n
      {
        if n >= fuel { cut := true; return; }
        ghost var run := trace;
        ghost var pass;
        cut, pass := ManagerPass(env(n), spurious(n));
        Onward(Manager, before, run, PassesSteps(passes, spurious), PassSteps(pass, spurious(n)));
        assert (passes + [pass])[..n] == passes;
        n, passes := n + 1, passes + [pass];
        if cut { return; }
      }
    }

    /** The second loop, after so many turns of the first. */
    method Drain(env: nat -> Schedule, turns: nat, fuel: nat) returns (returned: bool, ghost sweeps: seq<seq<bool>>)
      requires Valid() && manager.DrainTest?
      modifies this
      ensures Since(old(trace), Manager, DrainSteps(sweeps) + if returned then [TestDrained] else [])
      ensures if returned then manager.Returned? else turns + |sweeps| >= fuel || AwaitingExit()
    {
      returned, sweeps := false, [];
      ghost var before := trace;
      var n := turns;
      while n < fuel
        invariant Since(before, Manager, DrainSteps(sweeps)) && manager.DrainTest? && n == turns + |sweeps|
      {
        ghost var run := trace;
        var more := TestCount();
        returned := !more;
        Own(Manager, before, run, DrainSteps(sweeps), TestDrained);
        if returned { return; }
        run := trace;
        var blocked;
        ghost var joins;
        blocked, joins := Reap(env(n), []);
        Onward(Manager, before, run, DrainSteps(sweeps) + [TestDrained], SweepSteps(joins));
        assert (sweeps + [joins])[..|sweeps|] == sweeps;
        sweeps := sweeps + [joins];
        if blocked { return; }
        n := n + 1;
      }
    }

    lemma AtReturn(left: seq<Action>)
      requires Valid() && manager.Returned? && left <= trace
      requires Feasible(Init(), left) && After(Init(), left).manager.DrainTest?
      ensures workerCount == 0 && (forall id :: 0 <= id < |threads| ==> threads[id].Joined?)
      ensures !late && Settled(After(Init(), left)) ==>
                taskQueue_ == [] && popped == submitted && multiset(completed) == multiset(submitted)
    {
      Known();
      AllJoined(Model());
      forall id | 0 <= id < |threads|
        ensures threads[id].Joined?
      {
        assert id !in workerPool;
      }
      var s := After(Init(), left);
      var rest := trace[|left|..];
      assert trace == left + rest;
      Split(Init(), left, rest);
      InitInv();
      InvAlong(Init(), left);
      if !late && Settled(s) {
        LateRemembered(s, rest);
        SettledAlong(s, rest);
        SettledAtReturn(Model());
      }
    }

    // ---- a worker thread ----

    /** The worker would still wait: the mutex is taken, or the pool runs with nothing queued and no token. */
    predicate AwaitingWork(id: nat)
      reads this
    {
      && id < |threads| && threads[id].Waiting?
      && (taskMutex_.Some? || (taskQueue_ == [] && running_ && killThread == 0))
    }

    /** The worker loop, cut off after `fuel` rounds: its own steps are those of its rounds, each of which
        went one of four ways. It stops short of leaving only out of rounds or where the wait would not
        return. It leaves in its last round, by storing its flag and returning, and it took a token or
        found the pool shut down with an empty queue. It goes round empty-handed only after a
        compare-and-swap that failed for no reason, and left alone on an idle pool not at all. */
    method WorkerFunction(id: nat, env: nat -> Schedule, spurious: nat -> bool, threw: nat -> bool, fuel: nat)
      returns (left: bool, ghost rounds: seq<Round>)
      requires Valid() && id < |threads| && threads[id].Waiting?
      modifies this
      ensures Since(old(trace), Worker(id), WorkerSteps(id, rounds, spurious, threw))
      ensures LeavesLast(rounds, left)
      ensures EmptyOnlySpuriously(rounds, spurious)
      ensures old(running_) && old(taskQueue_) == [] && old(killThread) == 0 && env(0)(0) == [] ==> rounds == []
      ensures !left ==> |rounds| == fuel || AwaitingWork(id)
      ensures left ==>
                && rounds != [] && id < |threads| && threads[id].Exited?
                && (threads[id].reason.ByToken? <==> rounds[|rounds| - 1].TookToken?)
                && (threads[id].reason.ByShutdown? ==> !running_ && (late || taskQueue_ == []))
    {
      ghost var before := trace;
      left, rounds := false, [];
      var n := 0;
      while n < fuel
        invariant Since(before, Worker(id), WorkerSteps(id, rounds, spurious, threw)) && n == |rounds| <= fuel
        invariant id < |threads| && threads[id].Waiting? && LeavesLast(rounds, false)
        invariant EmptyOnlySpuriously(rounds, spurious)
        invariant n == 0 ==> Model() == old(Model())
        invariant n > 0 ==> !(old(running_) && old(taskQueue_) == [] && old(killThread) == 0 && env(0)(0) == [])
      {
        ghost var run := trace;
        ghost var round;
        var waits;
        waits, left, round := WaitAndRound(id, env(n), spurious(n), threw(n));
        if waits {
          Onward(Worker(id), before, run, WorkerSteps(id, rounds, spurious, threw), []);
          return;
        }
        AnotherRound(id, before, run, rounds, round, spurious, threw);
        LeavesLastExtend(rounds, round);
        EmptyOnlySpuriouslyExtend(rounds, round, spurious);
        n, rounds := n + 1, rounds + [round];
        if left { return; }
      }
    }

    lemma AnotherRound(id: nat, before: seq<Action>, run: seq<Action>, rounds: seq<Round>, round: Round,
                       spurious: nat -> bool, threw: nat -> bool)
      requires before <= run && Steps(Worker(id), run[|before|..]) == WorkerSteps(id, rounds, spurious, threw)
      requires Since(run, Worker(id), RoundSteps(id, round, spurious(|rounds|), threw(|rounds|)))
      ensures Since(before, Worker(id), WorkerSteps(id, rounds + [round], spurious, threw))
    {
      assert (rounds + [round])[..|rounds|] == rounds;
      Onward(Worker(id), before, run, WorkerSteps(id, rounds, spurious, threw),
             RoundSteps(id, round, spurious(|rounds|), threw(|rounds|)));
    }

    /** A round, once the wait returns. */
    method WaitAndRound(id: nat, env: Schedule, spurious: bool, threw: bool)
      returns (waits: bool, left: bool, ghost round: Round)
      requires Valid() && id < |threads| && threads[id].Waiting?
      modifies this
      ensures Since(old(trace), Worker(id), if waits then [] else RoundSteps(id, round, spurious, threw))
      ensures if waits then !left && AwaitingWork(id) else left <==> Leaves(round)
      ensures !waits && round.FoundNothing? ==> round.raced && spurious
      ensures old(running_) && old(taskQueue_) == [] && old(killThread) == 0 && env(0) == [] ==> waits
      ensures id < |threads| && if left then threads[id].Exited? else threads[id].Waiting?
      ensures left ==>
                && (threads[id].reason.ByToken? <==> round.TookToken?)
                && (threads[id].reason.ByShutdown? ==> !running_ && (late || taskQueue_ == []))
    {
      ghost var before := trace;
      Interfere(Worker(id), env(0), before, []);
      waits, left, round := !(taskMutex_.None? && WaitPredicate(Model())), false, TookToken;
      if !waits {
        ghost var run := trace;
        left, round := OneRound(id, env, spurious, threw);
        Onward(Worker(id), before, run, [], RoundSteps(id, round, spurious, threw));
      }
    }

    /** One round: wake, race for a token, else leave or pop; then return, go round, or run the task. */
    method OneRound(id: nat, env: Schedule, spurious: bool, threw: bool) returns (left: bool, ghost round: Round)
      requires Valid() && Enabled(Model(), Wake(id))
      modifies this
      ensures Since(old(trace), Worker(id), RoundSteps(id, round, spurious, threw))
      ensures left <==> Leaves(round)
      ensures round.FoundNothing? ==> round.raced && spurious
      ensures id < |threads| && if left then threads[id].Exited? else threads[id].Waiting?
      ensures left ==>
                && (threads[id].reason.ByToken? <==> round.TookToken?)
                && (threads[id].reason.ByShutdown? ==> !running_ && (late || taskQueue_ == []))
    {
      ghost var before := trace;
      var raced: bool;
      left, raced := Race(id, env, spurious);
      ghost var run := trace;
      if left {
        round := TookToken;
        Finish(id, env, threads[id].reason);
      } else {
        left, round := LeaveOrGoOn(id, env, threw, raced);
      }
      Onward(Worker(id), before, run, RaceSteps(id, raced, spurious), LateSteps(id, round, threw));
    }

    /** Past the tokens: leaves, runs the front task, or goes round again. */
    method LeaveOrGoOn(id: nat, env: Schedule, threw: bool, raced: bool) returns (left: bool, ghost round: Round)
      requires Valid() && Enabled(Model(), Decide(id))
      modifies this
      ensures !round.TookToken? && round.raced == raced && (left <==> Leaves(round))
      ensures Since(old(trace), Worker(id), LateSteps(id, round, threw))
      ensures id < |threads| && if left then threads[id] == Exited(ByShutdown) else threads[id].Waiting?
      ensures round.FoundNothing? ==> old(running_) && old(taskQueue_) == []
      ensures left ==> !running_ && (late || taskQueue_ == [])
    {
      ghost var before := trace;
      left := DecideNow(id, env(4));
      ghost var run := trace;
      if left {
        Finish(id, env, ByShutdown);
        round := LeftAtShutdown(raced);
        Onward(Worker(id), before, run, [Decide(id)], [StoreFinished(id), PoolModel.Leave(id)]);
      } else if threads[id].Executing? {
        Execute(id, env(3), threw);
        round := RanTask(raced);
        Onward(Worker(id), before, run, [Decide(id)], [Complete(id, threw)]);
      } else {
        round := FoundNothing(raced);
      }
    }

    /** Wakes up and tries for a token if it sees one. It comes out with none only if the swap failed for no
        reason or there is something else to do. */
    method Race(id: nat, env: Schedule, spurious: bool) returns (won: bool, raced: bool)
      requires Valid() && Enabled(Model(), Wake(id))
      modifies this
      ensures Since(old(trace), Worker(id), RaceSteps(id, raced, spurious)) && id < |threads|
      ensures if won then raced && threads[id].Storing? && threads[id].reason.ByToken? else threads[id].Deciding?
      ensures !won ==> (raced && spurious) || taskQueue_ != [] || !running_
    {
      ghost var before := trace;
      raced := LookForToken(id, env(1));
      won := false;
      if raced {
        ghost var run := trace;
        won := TryForToken(id, env(2), spurious);
        Onward(Worker(id), before, run, [Wake(id), LoadKill(id)], [CasKill(id, spurious)]);
      }
    }

    method LookForToken(id: nat, others: seq<Action>) returns (seen: bool)
      requires Valid() && Enabled(Model(), Wake(id))
      modifies this
      ensures Since(old(trace), Worker(id), [Wake(id), LoadKill(id)]) && id < |threads|
      ensures if seen then threads[id].AtCas? else threads[id].Deciding?
      ensures !seen ==> taskQueue_ != [] || !running_
    {
      ghost var before := trace;
      WakeUp(id);
      Own(Worker(id), before, before, [], Wake(id));
      Interfere(Worker(id), others, before, [Wake(id)]);
      ghost var run := trace;
      var killCount := LoadKillThread(id);
      Own(Worker(id), before, run, [Wake(id)], LoadKill(id));
      seen := killCount > 0;
    }

    /** Nobody else can take the token that a worker saw under the mutex. */
    method TryForToken(id: nat, others: seq<Action>, spurious: bool) returns (won: bool)
      requires Valid() && id < |threads| && threads[id].AtCas?
      modifies this
      ensures Since(old(trace), Worker(id), [CasKill(id, spurious)]) && id < |threads|
      ensures won <==> !spurious
      ensures if won then threads[id].Storing? && threads[id].reason.ByToken? else threads[id].Deciding?
    {
      ghost var before := trace;
      Interfere(Worker(id), others, before, []);
      Known();
      ghost var run := trace;
      won := TakeToken(id, spurious);
      Own(Worker(id), before, run, [], CasKill(id, spurious));
    }

    method DecideNow(id: nat, others: seq<Action>) returns (leaving: bool)
      requires Valid() && Enabled(Model(), Decide(id))
      modifies this
      ensures Since(old(trace), Worker(id), [Decide(id)]) && id < |threads|
      ensures if leaving then threads[id] == Storing(ByShutdown) else threads[id].Executing? || threads[id].Waiting?
      ensures !leaving && threads[id].Waiting? ==> old(running_) && old(taskQueue_) == []
    {
      ghost var before := trace;
      Interfere(Worker(id), others, before, []);
      ghost var run := trace;
      LeaveOrPop(id);
      Own(Worker(id), before, run, [], Decide(id));
      leaving := threads[id].Storing?;
    }

    method Execute(id: nat, others: seq<Action>, threw: bool)
      requires Valid() && id < |threads| && threads[id].Executing?
      modifies this
      ensures Since(old(trace), Worker(id), [Complete(id, threw)]) && id < |threads| && threads[id].Waiting?
    {
      ghost var before := trace;
      Interfere(Worker(id), others, before, []);
      ghost var run := trace;
      RunTask(id, threw);
      Own(Worker(id), before, run, [], Complete(id, threw));
    }

    /** Stores the flag and returns. */
    method Finish(id: nat, env: Schedule, ghost reason: Reason)
      requires Valid() && id < |threads| && threads[id] == Storing(reason)
      modifies this
      ensures Since(old(trace), Worker(id), [StoreFinished(id), PoolModel.Leave(id)])
      ensures id < |threads| && threads[id] == Exited(reason)
      ensures reason.ByShutdown? ==> !running_ && (late || taskQueue_ == [])
    {
      ghost var before := trace;
      Interfere(Worker(id), env(5), before, []);
      ghost var run := trace;
      SetFinished(id);
      Own(Worker(id), before, run, [], StoreFinished(id));
      run := trace;
      ReturnFrom(id, env(6), reason);
      Onward(Worker(id), before, run, [StoreFinished(id)], [PoolModel.Leave(id)]);
    }

    method ReturnFrom(id: nat, others: seq<Action>, ghost reason: Reason)
      requires Valid() && id < |threads| && threads[id] == Stored(reason)
      modifies this
      ensures Since(old(trace), Worker(id), [PoolModel.Leave(id)])
      ensures id < |threads| && threads[id] == Exited(reason)
      ensures reason.ByShutdown? ==> !running_ && (late || taskQueue_ == [])
    {
      ghost var before := trace;
      Interfere(Worker(id), others, before, []);
      ghost var run := trace;
      Exit(id);
      Own(Worker(id), before, run, [], PoolModel.Leave(id));
      if reason.ByShutdown? {
        LeftByShutdown(id);
      }
    }

    lemma LeftByShutdown(id: nat)
      requires Valid() && id < |threads| && threads[id].Exited? && threads[id].reason.ByShutdown?
      ensures !running_ && (late || taskQueue_ == [])
    {
      Known();
      CountPositive(threads, ShutdownKilled);
      assert ShutdownKilled(threads[id]);
    }

    lemma FinishedOne(s: State, run: seq<Action>, a: Action)
      requires Valid() && Feasible(Init(), run) && After(Init(), run) == s && Enabled(s, a) && trace == run + [a]
      ensures Model() == Apply(s, a) && StillFinished(s.workers, threads)
    {
      ExtendOne(Init(), run, a);
      FinishedStep(s, a);
    }

    /** A thread finished earlier and no longer in the vector has been joined. */
    lemma ClearedAll(earlier: seq<WorkerPc>)
      requires Inv(Model()) && StillFinished(earlier, threads)
      requires Cleared(earlier, workerPool, |workerPool|)
      ensures AllGone(earlier, threads)
    {
      forall id | 0 <= id < |earlier| && Finished(earlier[id])
        ensures threads[id].Joined?
      {
        assert forall i :: 0 <= i < |workerPool| ==> workerPool[i] != id;
        assert id !in workerPool;
      }
    }
  }
}
