/** How far the three worker counts can drift apart: threads in the vector,
    threads already killed, and kill tokens still outstanding. */
module PoolScaling {
  import opened Sequences
  import opened PoolModel
  import opened PoolInvariants

  // ---- what the installed policies promise ----

  /** A scale-up policy that never asks for more than `cap` workers. */
  ghost predicate UpImplies(policy: Policy, cap: nat) {
    forall q: nat, w: nat :: policy(q, w) ==> w < cap
  }

  /** A scale-down policy that only fires above `m` workers. */
  ghost predicate DownImplies(policy: Policy, m: nat) {
    forall q: nat, w: nat :: policy(q, w) ==> w > m
  }

  /** Whenever the manager consults scaleUp, the policy in force keeps to `cap`. */
  ghost function UpBelow(cap: nat): (State, Action) -> bool {
    (s: State, a: Action) => a.TestUp? ==> UpImplies(s.scaleUp, cap)
  }

  /** Whenever the manager consults scaleDown, the policy in force keeps above `m`. */
  ghost function DownAbove(m: nat): (State, Action) -> bool {
    (s: State, a: Action) => a.TestDown? ==> DownImplies(s.scaleDown, m)
  }

  // ---- the worker cap ----

  lemma CapStep(s: State, a: Action, cap: nat)
    requires 0 <= s.workerCount <= cap < UINT_MODULUS && Enabled(s, a) && UpBelow(cap)(s, a)
    ensures Apply(s, a).workerCount <= cap
  {
    assert AsUint(s.workerCount) == s.workerCount;
    assert Apply(s, a).workerCount <= s.workerCount + (if Spawns(s, a) then 1 else 0);
  }

  lemma {:induction false} CapAlong(s: State, acts: seq<Action>, cap: nat)
    requires Inv(s) && Feasible(s, acts) && Throughout(s, acts, UpBelow(cap))
    requires cap < UINT_MODULUS && s.workerCount <= cap
    ensures After(s, acts).workerCount <= cap
    decreases acts
  {
    if acts == [] {
    } else {
      InvStep(s, acts[0]);
      CapStep(s, acts[0], cap);
      CapAlong(Apply(s, acts[0]), acts[1..], cap);
    }
  }

  /** The vector, its counter and the unjoined threads agree in every reachable state, and a cap
      kept by every consulted scale-up policy is a cap on the threads alive. (The policies see worker
      counts as 32-bit numbers, so only a cap that is one can be kept.) */
  lemma WorkerCap(acts: seq<Action>, cap: nat)
    requires Feasible(Init(), acts) && Throughout(Init(), acts, UpBelow(cap)) && cap < UINT_MODULUS
    ensures var s := After(Init(), acts);
            && s.workerCount == |s.pool| == Count(s.workers, Unjoined) <= cap
            && (forall id :: 0 <= id < |s.workers| && !Finished(s.workers[id]) ==> id in s.pool)
            && Count(s.workers, Undecided) <= cap
  {
    InitInv();
    InvAlong(Init(), acts);
    CapAlong(Init(), acts, cap);
    var s := After(Init(), acts);
    CountMonotone(s.workers, Undecided, Unjoined);
  }

  // ---- the over-kill bound ----

  /** Killed by a token, but still in the vector. */
  predicate KilledUnjoined(pc: WorkerPc) {
    Doomed(pc) && !pc.Joined? && pc.reason.ByToken?
  }

  /** In the vector and not killed by a token. */
  predicate Spared(pc: WorkerPc) {
    !pc.Joined? && !KilledUnjoined(pc)
  }

  /** Killed by a token during the given manager pass, and not yet joined. */
  function KilledIn(pass: nat): WorkerPc -> bool {
    (pc: WorkerPc) => KilledUnjoined(pc) && pc.reason.pass == pass
  }

  /** Killed before the last sampling of the queue, and not yet joined. */
  predicate Stale(pc: WorkerPc, passes: nat) {
    KilledUnjoined(pc) && pc.reason.pass < passes
  }

  /** Outstanding tokens plus killed but unjoined workers. */
  function Overkill(s: State): nat {
    s.killThread + Count(s.workers, KilledUnjoined)
  }

  /** The same, not counting kills from before the last sampling. */
  function RecentOverkill(s: State): nat {
    s.killThread + Count(s.workers, KilledIn(s.passes))
  }

  predicate MidPass(m: ManagerPc) {
    m.UpTest? || m.DownTest? || m.LoadingKill? || m.AtKillCas? || InReap(m)
  }

  predicate InReap(m: ManagerPc) {
    (m.Reaping? && !m.drain) || (m.Joining? && !m.drain)
  }

  /** How much of the vector the reap loop has gone over. */
  function Swept(m: ManagerPc): nat {
    if m.Reaping? then m.next else if m.Joining? then m.at else 0
  }

  ghost predicate StaleInv(s: State) {
    && (forall id :: 0 <= id < |s.workers| && KilledUnjoined(s.workers[id]) ==> s.workers[id].reason.pass <= s.passes)
    && (MidPass(s.manager) ==>
          forall id :: 0 <= id < |s.workers| && Stale(s.workers[id], s.passes) ==> s.workers[id].Exited?)
    && (InReap(s.manager) ==>
          forall i :: 0 <= i < Swept(s.manager) && i < |s.pool| && s.pool[i] < |s.workers| ==>
              !Stale(s.workers[s.pool[i]], s.passes))
  }

  ghost predicate OverkillInv(s: State) {
    && Overkill(s) <= (if InReap(s.manager) then 3 else 2)
    && (MidPass(s.manager) ==> RecentOverkill(s) <= (if InReap(s.manager) then 2 else 1))
  }

  lemma StaleStep(s: State, a: Action)
    requires Inv(s) && StaleInv(s) && Enabled(s, a)
    ensures StaleInv(Apply(s, a))
  {
    if a.Join? {
      JoinKeepsStale(s);
    } else if Actor(s, a).Some? {
      WorkerKeepsStale(s, a);
    } else if Spawns(s, a) {
      assert Apply(s, a).workers == s.workers + [Waiting];
    } else if a.Sample? {
      SampleStartsStale(s);
    } else {
      ManagerKeepsStale(s, a);
    }
  }

  lemma SampleStartsStale(s: State)
    requires MutexInv(s) && StaleInv(s) && Enabled(s, Sample)
    ensures StaleInv(Apply(s, Sample))
  {
    assert forall id :: 0 <= id < |s.workers| ==> !Holds(s.workers[id]);
  }

  lemma ManagerKeepsStale(s: State, a: Action)
    requires StaleInv(s) && Enabled(s, a) && Actor(s, a).None? && !Spawns(s, a) && !a.Sample?
    ensures StaleInv(Apply(s, a))
  {
    var t := Apply(s, a);
    assert t.pool == s.pool && t.workers == s.workers && t.passes == s.passes;
  }

  lemma WorkerKeepsStale(s: State, a: Action)
    requires StaleInv(s) && Enabled(s, a) && !a.Join? && Actor(s, a).Some?
    ensures StaleInv(Apply(s, a))
  {
    var t := Apply(s, a);
    var id := Actor(s, a).value;
    assert t.pool == s.pool && t.manager == s.manager && t.passes == s.passes;
    assert t.workers == s.workers[id := t.workers[id]];
    assert Stale(t.workers[id], t.passes) ==> Stale(s.workers[id], s.passes);
  }

  lemma JoinKeepsStale(s: State)
    requires VectorInv(s) && StaleInv(s) && Enabled(s, Join)
    ensures StaleInv(Apply(s, Join))
  {
    var t := Apply(s, Join);
    var i := s.manager.at;
    assert forall k :: 0 <= k < i ==> t.pool[k] == s.pool[k];
  }

  lemma OverkillStep(s: State, a: Action)
    requires Inv(s) && StaleInv(s) && OverkillInv(s) && Enabled(s, a)
    ensures OverkillInv(Apply(s, a))
  {
    if a.Sample? {
      SampleForgets(s);
    } else if a.Scan? && s.manager.next == |s.pool| {
      if !s.manager.drain {
        SweepLeavesRecent(s);
      }
    } else {
      OtherOverkillStep(s, a);
    }
  }

  lemma OtherOverkillStep(s: State, a: Action)
    requires TokenInv(s) && OverkillInv(s) && Enabled(s, a)
    requires !a.Sample? && !(a.Scan? && s.manager.next == |s.pool|)
    ensures OverkillInv(Apply(s, a))
  {
    if Actor(s, a).Some? {
      WorkerOverkillStep(s, a, KilledUnjoined);
      WorkerOverkillStep(s, a, KilledIn(s.passes));
      assert Apply(s, a).passes == s.passes;
      assert InReap(s.manager) == InReap(Apply(s, a).manager) && MidPass(s.manager) == MidPass(Apply(s, a).manager);
    } else {
      ManagerOverkillStep(s, a);
    }
  }

  /** Winning a token turns it into a kill; nothing a worker does adds to the sum. */
  lemma WorkerOverkillStep(s: State, a: Action, killed: WorkerPc -> bool)
    requires Enabled(s, a) && Actor(s, a).Some?
    requires forall pc :: killed(pc) ==> KilledUnjoined(pc)
    requires forall r :: killed(Storing(r)) == killed(Stored(r)) == killed(Exited(r))
    ensures Apply(s, a).killThread + Count(Apply(s, a).workers, killed) <= s.killThread + Count(s.workers, killed)
  {
    CountStep(s, a, killed);
  }

  lemma ManagerOverkillStep(s: State, a: Action)
    requires TokenInv(s) && OverkillInv(s) && Enabled(s, a) && Actor(s, a).None?
    requires !a.Sample? && !(a.Scan? && s.manager.next == |s.pool|)
    ensures OverkillInv(Apply(s, a))
  {
    CountStep(s, a, KilledUnjoined);
    CountStep(s, a, KilledIn(s.passes));
    assert Apply(s, a).passes == s.passes;
  }

  /** At a sampling every earlier kill is already over: only an unclaimed token is recent. */
  lemma SampleForgets(s: State)
    requires StaleInv(s) && Enabled(s, Sample)
    ensures RecentOverkill(Apply(s, Sample)) == s.killThread
  {
    CountPositive(s.workers, KilledIn(s.passes + 1));
  }

  /** After a full sweep only kills from this pass are left in the vector. */
  lemma SweepLeavesRecent(s: State)
    requires Inv(s) && StaleInv(s) && InReap(s.manager) && s.manager.Reaping? && s.manager.next == |s.pool|
    ensures Overkill(s) <= RecentOverkill(s)
  {
    forall id | 0 <= id < |s.workers| && KilledUnjoined(s.workers[id])
      ensures KilledIn(s.passes)(s.workers[id])
    {
      assert id in s.pool;
      var i :| 0 <= i < |s.pool| && s.pool[i] == id;
      assert !Stale(s.workers[s.pool[i]], s.passes);
    }
    CountMonotone(s.workers, KilledUnjoined, KilledIn(s.passes));
  }

  lemma {:induction false} OverkillAlong(s: State, acts: seq<Action>)
    requires Inv(s) && StaleInv(s) && OverkillInv(s) && Feasible(s, acts)
    ensures Inv(After(s, acts)) && StaleInv(After(s, acts)) && OverkillInv(After(s, acts))
    decreases acts
  {
    if acts == [] {
    } else {
      InvStep(s, acts[0]);
      StaleStep(s, acts[0]);
      OverkillStep(s, acts[0]);
      OverkillAlong(Apply(s, acts[0]), acts[1..]);
    }
  }

  /** In every reachable state outstanding tokens plus killed but unjoined workers number at most
      three, and at most two outside a reap sweep of the running pool. */
  lemma OverkillBound(acts: seq<Action>)
    requires Feasible(Init(), acts)
    ensures var s := After(Init(), acts);
            Overkill(s) <= 3 && (!InReap(s.manager) ==> Overkill(s) <= 2)
  {
    InitInv();
    OverkillAlong(Init(), acts);
  }

  // ---- what one more token leaves alive ----

  /** Workers in the vector that neither lost a token race nor will be taken by a token. */
  function Undoomed(s: State): int {
    Count(s.workers, Spared) - s.killThread
  }

  predicate MarginInv(s: State, m: nat) {
    s.manager.LoadingKill? || s.manager.AtKillCas? ==> s.workerCount > m
  }

  lemma MarginStep(s: State, a: Action, m: nat)
    requires MarginInv(s, m) && s.workerCount >= 0 && Enabled(s, a) && DownAbove(m)(s, a)
    ensures MarginInv(Apply(s, a), m)
  {
    assert AsUint(s.workerCount) <= s.workerCount;
  }

  lemma {:induction false} MarginAlong(s: State, acts: seq<Action>, m: nat)
    requires Inv(s) && MarginInv(s, m) && Feasible(s, acts) && Throughout(s, acts, DownAbove(m))
    ensures MarginInv(After(s, acts), m)
    decreases acts
  {
    if acts == [] {
    } else {
      InvStep(s, acts[0]);
      MarginStep(s, acts[0], m);
      MarginAlong(Apply(s, acts[0]), acts[1..], m);
    }
  }

  lemma SparedOrKilled(s: State)
    requires Inv(s)
    ensures s.workerCount == Count(s.workers, Spared) + Count(s.workers, KilledUnjoined)
  {
    CountSplit(s.workers, Unjoined, Spared, KilledUnjoined);
  }

  /** With every consulted scale-down policy firing only above `m` workers, a token that is issued
      leaves at least m - 2 workers that no token takes; while the pool runs these are all at work. */
  lemma TokenLeaves(acts: seq<Action>, m: nat)
    requires Feasible(Init(), acts) && Throughout(Init(), acts, DownAbove(m))
    requires After(Init(), acts).manager.AtKillCas?
    ensures var s := After(Init(), acts);
            var t := Apply(s, IssueToken(false));
            && t.issued == s.issued + 1
            && Undoomed(t) == s.workerCount - Overkill(s) - 1
            && Undoomed(t) >= m - 2
            && (t.running ==> Count(t.workers, Undecided) - t.killThread == Undoomed(t))
  {
    InitInv();
    InvAlong(Init(), acts);
    MarginAlong(Init(), acts, m);
    OverkillBound(acts);
    var s := After(Init(), acts);
    var t := Apply(s, IssueToken(false));
    InvStep(s, IssueToken(false));
    SparedOrKilled(s);
    if t.running {
      CountPositive(s.workers, ShutdownKilled);
      CountMonotone(s.workers, Undecided, Spared);
      CountMonotone(s.workers, Spared, Undecided);
    }
  }
}
