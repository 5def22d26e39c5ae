/** Idle workers wait: nobody goes round the worker loop empty-handed but for a spurious failure. */
module PoolWaiting {
  import opened Sequences
  import opened PoolModel
  import opened PoolInvariants
  import opened PoolThreads

  /** The last step of the worker was a compare-and-swap that failed for no reason. */
  ghost predicate JustFailed(acts: seq<Action>, id: nat) {
    var mine := Steps(Worker(id), acts);
    mine != [] && mine[|mine| - 1] == CasKill(id, true)
  }

  /** A worker that has the mutex had a reason to wake. */
  ghost predicate WokenInv(s: State, acts: seq<Action>) {
    && (forall id :: 0 <= id < |s.workers| && s.workers[id].Woken? ==>
          s.queue != [] || !s.running || s.killThread > 0)
    && (forall id :: 0 <= id < |s.workers| && s.workers[id].Deciding? ==>
          s.queue != [] || !s.running || JustFailed(acts, id))
  }

  lemma FailedStays(acts: seq<Action>, a: Action, id: nat)
    ensures !ByWorker(id, a) ==> (JustFailed(acts + [a], id) <==> JustFailed(acts, id))
    ensures a == CasKill(id, true) ==> JustFailed(acts + [a], id)
  {
    FilterAppend(acts, a, IsBy(Worker(id)));
    assert Steps(Worker(id), acts) + [] == Steps(Worker(id), acts);
  }

  /** The worker that acts. */
  lemma OwnWokenStep(s: State, acts: seq<Action>, a: Action, id: nat)
    requires MutexInv(s) && TokenInv(s) && WokenInv(s, acts) && Enabled(s, a) && ByWorker(id, a)
    ensures var t := Apply(s, a);
            && id < |t.workers|
            && (t.workers[id].Woken? ==> t.queue != [] || !t.running || t.killThread > 0)
            && (t.workers[id].Deciding? ==> t.queue != [] || !t.running || JustFailed(acts + [a], id))
  {
    FailedStays(acts, a, id);
  }

  /** Any other worker. */
  lemma OtherWokenStep(s: State, acts: seq<Action>, a: Action, id: nat)
    requires MutexInv(s) && WokenInv(s, acts) && Enabled(s, a) && !ByWorker(id, a) && id < |Apply(s, a).workers|
    ensures var t := Apply(s, a);
            && (t.workers[id].Woken? ==> t.queue != [] || !t.running || t.killThread > 0)
            && (t.workers[id].Deciding? ==> t.queue != [] || !t.running || JustFailed(acts + [a], id))
  {
    FailedStays(acts, a, id);
    Effect(s, a);
    if id < |s.workers| && Holds(s.workers[id]) {
      OthersKeepOut(Worker(id), s, a);
      OthersLeave(Worker(id), s, a);
    }
  }

  lemma WokenStep(s: State, acts: seq<Action>, a: Action)
    requires MutexInv(s) && TokenInv(s) && WokenInv(s, acts) && Enabled(s, a)
    ensures WokenInv(Apply(s, a), acts + [a])
  {
    var t := Apply(s, a);
    forall id | 0 <= id < |t.workers|
      ensures t.workers[id].Woken? ==> t.queue != [] || !t.running || t.killThread > 0
      ensures t.workers[id].Deciding? ==> t.queue != [] || !t.running || JustFailed(acts + [a], id)
    {
      if ByWorker(id, a) {
        OwnWokenStep(s, acts, a, id);
      } else {
        OtherWokenStep(s, acts, a, id);
      }
    }
  }

  lemma {:induction false} WokenAlong(acts: seq<Action>)
    requires Feasible(Init(), acts)
    ensures WokenInv(After(Init(), acts), acts)
    decreases |acts|
  {
    if acts == [] {
    } else {
      var front, a := acts[..|acts| - 1], acts[|acts| - 1];
      assert acts == front + [a];
      Split(Init(), front, [a]);
      WokenAlong(front);
      InitInv();
      InvAlong(Init(), front);
      var s := After(Init(), front);
      assert Feasible(s, [a]) && Enabled(s, a);
      ExtendOne(Init(), front, a);
      WokenStep(s, front, a);
    }
  }

  /** In every run a worker that wakes and finds the pool running with nothing queued lost a token just
      before, by a compare-and-swap that failed for no reason; and nobody wakes unless something is
      queued, the pool is stopped or a token is out. */
  lemma EmptyRoundIsSpurious(acts: seq<Action>, id: nat)
    requires Feasible(Init(), acts)
    ensures var s := After(Init(), acts);
            && (Enabled(s, Wake(id)) ==> s.queue != [] || !s.running || s.killThread > 0)
            && (Enabled(s, Decide(id)) && Apply(s, Decide(id)).workers[id].Waiting? ==>
                  s.queue == [] && s.running && JustFailed(acts, id))
  {
    WokenAlong(acts);
  }
}
