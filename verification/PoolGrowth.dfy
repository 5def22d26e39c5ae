/** How the pool grows under the policies in use: what a pass decides, how far the pool goes and where it
    comes to rest while the queue is frozen. */
module PoolGrowth {
  import opened PoolModel
  import opened PoolInvariants
  import opened PoolScaling
  import opened PoolThreads
  import opened PoolMinimum
  import opened ScalingPolicies

  // ---- what a pass decides on ----

  predicate NoManager(acts: seq<Action>) {
    forall i :: 0 <= i < |acts| ==> !ByManager(acts[i])
  }

  lemma {:induction false} ManagerUndisturbed(s: State, acts: seq<Action>)
    requires Feasible(s, acts) && NoManager(acts)
    ensures Undisturbed(Manager, s, After(s, acts))
    decreases acts
  {
    if acts == [] {
    } else {
      OthersLeave(Manager, s, acts[0]);
      assert forall i :: 0 <= i < |acts[1..]| ==> acts[1..][i] == acts[i + 1];
      ManagerUndisturbed(Apply(s, acts[0]), acts[1..]);
    }
  }

  /** A pass decides by the queue as it was when it was sampled, whatever has happened to it since: it starts
      a worker exactly if the scale-up policy says so of that size and the number of workers, and otherwise
      goes on to offer a token exactly if the scale-down policy does. */
  lemma SampleDecides(s: State, others: seq<Action>, more: seq<Action>)
    requires Enabled(s, Sample)
    requires Feasible(Apply(s, Sample), others) && NoManager(others)
    ensures var t := After(Apply(s, Sample), others);
            && Enabled(t, TestUp)
            && if t.scaleUp(AsUint(|s.queue|), AsUint(s.workerCount)) then
                 Apply(t, TestUp).workerCount == s.workerCount + 1 && Apply(t, TestUp).workers == t.workers + [Waiting]
               else
                 && Apply(t, TestUp).workers == t.workers && Apply(t, TestUp).manager.DownTest?
                 && (Feasible(Apply(t, TestUp), more) && NoManager(more) ==>
                       var u := After(Apply(t, TestUp), more);
                       && Enabled(u, TestDown)
                       && (Apply(u, TestDown).manager.LoadingKill?
                           <==> u.scaleDown(AsUint(|s.queue|), AsUint(s.workerCount))))
  {
    var t := After(Apply(s, Sample), others);
    ManagerUndisturbed(Apply(s, Sample), others);
    if !t.scaleUp(AsUint(|s.queue|), AsUint(s.workerCount)) && Feasible(Apply(t, TestUp), more) && NoManager(more) {
      ManagerUndisturbed(Apply(t, TestUp), more);
    }
  }

  /** And one that goes on to offer a token sweeps the whole vector, whether or not a token is still out
      when it looks. */
  lemma ShrinkSweeps(s: State, others: seq<Action>, spurious: bool)
    requires Enabled(s, LoadToken)
    requires Feasible(Apply(s, LoadToken), others) && NoManager(others)
    ensures var t := After(Apply(s, LoadToken), others);
            if s.killThread == 0 then
              Enabled(t, IssueToken(spurious)) && Apply(t, IssueToken(spurious)).manager == Reaping(0, false)
            else
              t.manager == Reaping(0, false)
  {
    ManagerUndisturbed(Apply(s, LoadToken), others);
  }

  // ---- how far the pool goes ----

  lemma {:induction false} PoliciesStay(s: State, acts: seq<Action>)
    requires Feasible(s, acts) && KeepsPolicies(acts)
    ensures After(s, acts).scaleUp == s.scaleUp && After(s, acts).scaleDown == s.scaleDown
    decreases acts
  {
    if acts == [] {
    } else {
      assert !acts[0].SetScaleUp? && !acts[0].SetScaleDown?;
      assert forall i :: 0 <= i < |acts[1..]| ==> acts[1..][i] == acts[i + 1];
      PoliciesStay(Apply(s, acts[0]), acts[1..]);
    }
  }

  lemma {:induction false} UpStaysBelow(s: State, acts: seq<Action>, cap: nat)
    requires Feasible(s, acts) && KeepsPolicies(acts) && UpImplies(s.scaleUp, cap)
    ensures Throughout(s, acts, UpBelow(cap))
    decreases acts
  {
    if acts == [] {
    } else {
      assert !acts[0].SetScaleUp?;
      assert forall i :: 0 <= i < |acts[1..]| ==> acts[1..][i] == acts[i + 1];
      UpStaysBelow(Apply(s, acts[0]), acts[1..], cap);
    }
  }

  /** A pool that keeps its default policies never has more than ten workers. */
  lemma DefaultWorkerCap(acts: seq<Action>)
    requires Feasible(Init(), acts) && KeepsPolicies(acts)
    ensures After(Init(), acts).workerCount <= 10
  {
    ThresholdsInUse();
    UpStaysBelow(Init(), acts, 10);
    WorkerCap(acts, 10);
  }

  /** One worker for every ten tasks begun, up to the cap. */
  function Rest(cap: nat, n: nat): nat {
    if (n + 9) / 10 < cap then (n + 9) / 10 else cap
  }

  /** Nothing happens in a further pass. */
  ghost predicate AtRest(s: State) {
    var pass := [TestRunning, Sample, TestUp, TestDown];
    Feasible(s, pass) && After(s, pass) == s.(queueSize := |s.queue|, passes := s.passes + 1)
  }

  /** No task is added or begun and no policy changes: only manager steps. */
  predicate OnlyManager(acts: seq<Action>) {
    forall i :: 0 <= i < |acts| ==> ByManager(acts[i])
  }

  lemma Pass4(s: State, cap: nat)
    requires Calm(s) && |s.queue| < UINT_MODULUS && 0 <= s.workerCount == Rest(cap, |s.queue|) && cap < 100
    requires UpRule(s.scaleUp, cap) && DownRule(s.scaleDown, cap)
    ensures AtRest(s)
  {
    var acts, t := [], s;
    assert AsUint(|s.queue|) == |s.queue| && AsUint(s.workerCount) == s.workerCount;
    acts, t := Take(s, acts, t, TestRunning);
    acts, t := Take(s, acts, t, Sample);
    acts, t := Take(s, acts, t, TestUp);
    acts, t := Take(s, acts, t, TestDown);
    assert acts == [TestRunning, Sample, TestUp, TestDown];
  }

  lemma {:induction false} GrowToRest(s: State, acts: seq<Action>, t: State, cap: nat)
    returns (acts': seq<Action>, t': State)
    requires Leads(s, acts, t) && OnlyManager(acts) && Calm(t)
    requires |t.queue| < UINT_MODULUS && 0 <= t.workerCount <= Rest(cap, |t.queue|) && cap < 100
    requires UpRule(t.scaleUp, cap) && DownRule(t.scaleDown, cap)
    ensures Leads(s, acts', t') && OnlyManager(acts') && Calm(t')
    ensures t'.queue == t.queue && t'.workerCount == Rest(cap, |t.queue|) && AtRest(t')
    decreases Rest(cap, |t.queue|) - t.workerCount
  {
    acts', t' := acts, t;
    assert AsUint(|t.queue|) == |t.queue| && AsUint(t.workerCount) == t.workerCount;
    if t.workerCount < Rest(cap, |t.queue|) {
      acts', t' := Take(s, acts', t', TestRunning);
      acts', t' := Take(s, acts', t', Sample);
      acts', t' := Take(s, acts', t', TestUp);
      acts', t' := GrowToRest(s, acts', t', cap);
    } else {
      Pass4(t, cap);
    }
  }

  /** From every state of a pool with default policies between two passes, with no more workers than that and
      while the queue is frozen, passes bring the pool to one worker for every ten tasks begun, at most ten,
      and no further pass changes that. */
  lemma DefaultComesToRest(acts: seq<Action>) returns (more: seq<Action>)
    requires Feasible(Init(), acts) && KeepsPolicies(acts) && Calm(After(Init(), acts))
    requires |After(Init(), acts).queue| < UINT_MODULUS
    requires After(Init(), acts).workerCount <= Rest(10, |After(Init(), acts).queue|)
    ensures var t := After(Init(), acts);
            && Feasible(t, more) && OnlyManager(more)
            && var u := After(t, more);
               && u.queue == t.queue && AtRest(u)
               && u.workerCount == if |t.queue| >= 91 then 10 else (|t.queue| + 9) / 10
  {
    var t := After(Init(), acts);
    InitInv();
    InvAlong(Init(), acts);
    PoliciesStay(Init(), acts);
    ThresholdsInUse();
    var u;
    more, u := GrowToRest(t, [], t, 10);
  }
}
