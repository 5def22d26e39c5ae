/** When the workers can go on serving the queue by themselves, at any time of the pool's life. */
module PoolService {
  import opened Sequences
  import opened PoolModel
  import opened PoolInvariants
  import opened PoolShutdown

  /** A step of a worker whose compare-and-swap does not fail for no reason. */
  predicate WorkerStep(a: Action) {
    Productive(a) && !a.Join? && (a.CasKill? ==> !a.spurious)
  }

  predicate WorkersOnly(acts: seq<Action>) {
    forall i :: 0 <= i < |acts| ==> WorkerStep(acts[i])
  }

  /** Some worker will get past the tokens: there are more undecided workers than tokens, or one is
      past the token test already. */
  predicate Served(s: State) {
    Count(s.workers, Undecided) > s.killThread || Count(s.workers, AtDecision) > 0
  }

  /** The workers alone can pop the task at the front of the queue. */
  ghost predicate CanPop(s: State) {
    s.queue != [] &&
    exists acts :: Feasible(s, acts) && WorkersOnly(acts) && After(s, acts).popped == s.popped + [s.queue[0]]
  }

  // ---- if no worker gets past the tokens, nothing is popped ----

  lemma UnservedStep(s: State, a: Action)
    requires MutexInv(s) && TokenInv(s) && Enabled(s, a) && WorkerStep(a) && !Served(s) && s.queue != []
    ensures !Served(Apply(s, a)) && Apply(s, a).queue == s.queue && Apply(s, a).popped == s.popped
  {
    CountPositive(s.workers, AtDecision);
    CountPositive(s.workers, Undecided);
    assert !a.Decide?;
    assert a.LoadKill? ==> Undecided(s.workers[a.id]) && s.killThread > 0;
    CountStep(s, a, Undecided);
    CountStep(s, a, AtDecision);
    UnservedMove(s, a);
  }

  lemma UnservedMove(s: State, a: Action)
    requires TokenInv(s) && Enabled(s, a) && WorkerStep(a) && !a.Decide? && (a.LoadKill? ==> s.killThread > 0)
    ensures Delta(s, a, Undecided) == Apply(s, a).killThread - s.killThread && Delta(s, a, AtDecision) <= 0
    ensures Apply(s, a).queue == s.queue && Apply(s, a).popped == s.popped
  {
  }

  lemma {:induction false} UnservedAlong(s: State, acts: seq<Action>)
    requires Inv(s) && Feasible(s, acts) && WorkersOnly(acts) && !Served(s) && s.queue != []
    ensures After(s, acts).popped == s.popped
    decreases acts
  {
    if acts == [] {
    } else {
      assert WorkerStep(acts[0]);
      UnservedStep(s, acts[0]);
      InvStep(s, acts[0]);
      assert forall i :: 0 <= i < |acts[1..]| ==> acts[1..][i] == acts[i + 1];
      UnservedAlong(Apply(s, acts[0]), acts[1..]);
    }
  }

  // ---- if one does, it can pop the front task ----

  /** The mutex holder, or else any worker that has not left. */
  ghost function NextWorker(s: State): nat
    requires MutexInv(s) && Served(s)
    ensures NextWorker(s) < |s.workers| && Rank(s.workers[NextWorker(s)]) > 0
    ensures s.mutex.Some? ==> s.mutex == Some(NextWorker(s))
    ensures s.mutex.None? ==> Undecided(s.workers[NextWorker(s)])
  {
    if s.mutex.Some? then
      assert Holds(s.workers[s.mutex.value]);
      s.mutex.value
    else
      CountPositive(s.workers, AtDecision);
      CountPositive(s.workers, Undecided);
      assert forall id :: 0 <= id < |s.workers| ==> !Holds(s.workers[id]);
      var id :| 0 <= id < |s.workers| && Undecided(s.workers[id]);
      id
  }

  lemma ServeStep(s: State) returns (a: Action)
    requires Inv(s) && Served(s) && s.queue != []
    ensures Enabled(s, a) && WorkerStep(a)
    ensures a.Decide? ==> Apply(s, a).popped == s.popped + [s.queue[0]]
    ensures !a.Decide? ==>
              var t := Apply(s, a);
              Served(t) && t.queue == s.queue && t.popped == s.popped && Sum(t.workers, Rank) < Sum(s.workers, Rank)
  {
    var id := NextWorker(s);
    a := WorkerAction(s, id);
    if !a.Decide? {
      SumStep(s, a);
      StaysServed(s, a);
    }
  }

  lemma StaysServed(s: State, a: Action)
    requires MutexInv(s) && TokenInv(s) && Served(s) && Enabled(s, a) && WorkerStep(a) && !a.Decide?
    requires s.mutex.Some? ==> Actor(s, a) == s.mutex
    ensures Served(Apply(s, a)) && Apply(s, a).queue == s.queue && Apply(s, a).popped == s.popped
  {
    CountStep(s, a, Undecided);
    CountStep(s, a, AtDecision);
    CountPositive(s.workers, AtDecision);
    assert !AtDecision(s.workers[Actor(s, a).value]);
    assert forall id :: 0 <= id < |s.workers| && AtDecision(s.workers[id]) ==> s.mutex == Some(id);
    assert Count(s.workers, AtDecision) == 0;
    KeepsMargin(s, a);
  }

  lemma KeepsMargin(s: State, a: Action)
    requires TokenInv(s) && Enabled(s, a) && WorkerStep(a) && !a.Decide?
    ensures Delta(s, a, Undecided) == Apply(s, a).killThread - s.killThread
    ensures Apply(s, a).queue == s.queue && Apply(s, a).popped == s.popped
  {
  }

  lemma {:induction false} Serve(s: State) returns (acts: seq<Action>)
    requires Inv(s) && Served(s) && s.queue != []
    ensures Feasible(s, acts) && WorkersOnly(acts) && After(s, acts).popped == s.popped + [s.queue[0]]
    decreases Sum(s.workers, Rank)
  {
    var a := ServeStep(s);
    var t := Apply(s, a);
    if a.Decide? {
      acts := [a];
      assert [a][1..] == [];
    } else {
      InvStep(s, a);
      var rest := Serve(t);
      acts := [a] + rest;
      Prepend(s, a, rest);
    }
  }

  /** In every reachable state with a queue, the workers alone can pop its front task, with no help from
      the manager and no spurious failure, if and only if one of them gets past the tokens. */
  lemma FrontCanPopIffServed(acts: seq<Action>)
    requires Feasible(Init(), acts) && After(Init(), acts).queue != []
    ensures CanPop(After(Init(), acts)) <==> Served(After(Init(), acts))
  {
    InitInv();
    InvAlong(Init(), acts);
    var s := After(Init(), acts);
    if Served(s) {
      var more := Serve(s);
    } else {
      forall more | Feasible(s, more) && WorkersOnly(more)
        ensures After(s, more).popped == s.popped
      {
        UnservedAlong(s, more);
      }
      assert |s.popped + [s.queue[0]]| == |s.popped| + 1;
    }
  }
}
