/** When a scale-down threshold keeps a worker at work: exactly from three upwards.  Below that, runs
    are built in which every worker is taken by a token, one of them with the default policies. */
module PoolMinimum {
  import opened Sequences
  import opened PoolModel
  import opened PoolInvariants
  import opened PoolScaling

  // ---- the minimum, in every state ----

  /** Once a worker was started and while the pool runs, more workers are at work than tokens are out. */
  ghost predicate OneAtWork(s: State) {
    s.running && s.workers != [] ==> Count(s.workers, Undecided) > s.killThread
  }

  /** So it is in every state of every run whose consulted scale-down policies fire only above `m`. */
  ghost predicate AlwaysOneAtWork(m: nat) {
    forall acts :: Feasible(Init(), acts) && Throughout(Init(), acts, DownAbove(m)) ==> OneAtWork(After(Init(), acts))
  }

  lemma AtWorkIsUndoomed(s: State)
    requires Inv(s) && s.running
    ensures Count(s.workers, Undecided) - s.killThread == Undoomed(s)
  {
    CountPositive(s.workers, ShutdownKilled);
    CountMonotone(s.workers, Undecided, Spared);
    CountMonotone(s.workers, Spared, Undecided);
  }

  predicate NoEarlyToken(s: State) {
    s.workers == [] ==> s.killThread == 0
  }

  /** Workers turn tokens into kills one for one, and a running pool joins nobody but the killed. */
  lemma WorkerKeepsOne(s: State, a: Action)
    requires Inv(s) && s.running && Enabled(s, a) && Actor(s, a).Some?
    ensures Count(Apply(s, a).workers, Undecided) - Apply(s, a).killThread == Count(s.workers, Undecided) - s.killThread
  {
    CountStep(s, a, Undecided);
  }

  lemma TokenKeepsOne(s: State, m: nat)
    requires Inv(s) && OverkillInv(s) && MarginInv(s, m) && s.running && s.manager.AtKillCas? && m >= 3
    ensures OneAtWork(Apply(s, IssueToken(false)))
  {
    SparedOrKilled(s);
    AtWorkIsUndoomed(s);
  }

  lemma ManagerKeepsOne(s: State, a: Action)
    requires NoEarlyToken(s) && OneAtWork(s) && s.running && Enabled(s, a) && Actor(s, a).None? && !a.IssueToken?
    ensures OneAtWork(Apply(s, a))
  {
    CountStep(s, a, Undecided);
  }

  lemma NoEarlyTokenStep(s: State, a: Action, m: nat)
    requires PoolInv(s) && MarginInv(s, m) && NoEarlyToken(s) && Enabled(s, a)
    ensures NoEarlyToken(Apply(s, a))
  {
    Effect(s, a);
  }

  lemma OneStays(s: State, a: Action, m: nat)
    requires Inv(s) && OverkillInv(s) && MarginInv(s, m) && m >= 3 && NoEarlyToken(s) && OneAtWork(s) && Enabled(s, a)
    ensures OneAtWork(Apply(s, a))
  {
    if s.running {
      if Actor(s, a).Some? {
        WorkerKeepsOne(s, a);
      } else if a.IssueToken? {
        TokenKeepsOne(s, m);
      } else {
        ManagerKeepsOne(s, a);
      }
    }
  }

  lemma {:induction false} OneStaysAlong(s: State, acts: seq<Action>, m: nat)
    requires Inv(s) && StaleInv(s) && OverkillInv(s) && MarginInv(s, m) && NoEarlyToken(s) && OneAtWork(s) && m >= 3
    requires Feasible(s, acts) && Throughout(s, acts, DownAbove(m))
    ensures OneAtWork(After(s, acts))
    decreases acts
  {
    if acts == [] {
    } else {
      InvStep(s, acts[0]);
      StaleStep(s, acts[0]);
      OverkillStep(s, acts[0]);
      MarginStep(s, acts[0], m);
      NoEarlyTokenStep(s, acts[0], m);
      OneStays(s, acts[0], m);
      OneStaysAlong(Apply(s, acts[0]), acts[1..], m);
    }
  }

  // ---- building runs ----

  predicate KeepsPolicies(acts: seq<Action>) {
    forall i :: 0 <= i < |acts| ==> !acts[i].SetScaleUp? && !acts[i].SetScaleDown?
  }

  /** `acts` leads from `s` to `t` and installs no policy. */
  ghost predicate Leads(s: State, acts: seq<Action>, t: State) {
    Feasible(s, acts) && After(s, acts) == t && KeepsPolicies(acts)
  }

  lemma Take(s: State, acts: seq<Action>, t: State, a: Action) returns (acts': seq<Action>, t': State)
    requires Leads(s, acts, t) && Enabled(t, a) && !a.SetScaleUp? && !a.SetScaleDown?
    ensures t' == Apply(t, a) && Leads(s, acts', t') && acts' == acts + [a]
  {
    acts', t' := acts + [a], Apply(t, a);
    ExtendOne(s, acts, a);
  }

  lemma {:induction false} PoliciesFire(s: State, acts: seq<Action>, m: nat)
    requires Feasible(s, acts) && KeepsPolicies(acts) && DownImplies(s.scaleDown, m)
    ensures Throughout(s, acts, DownAbove(m))
    decreases acts
  {
    if acts == [] {
    } else {
      assert !acts[0].SetScaleDown?;
      assert DownAbove(m)(s, acts[0]);
      assert forall i :: 0 <= i < |acts[1..]| ==> acts[1..][i] == acts[i + 1];
      PoliciesFire(Apply(s, acts[0]), acts[1..], m);
    }
  }

  /** The manager is at its loop test and nobody holds the mutex. */
  predicate Calm(s: State) {
    s.running && s.mutex.None? && s.manager.LoopTest?
  }

  predicate WantsMore(s: State) {
    s.scaleUp(AsUint(|s.queue|), AsUint(s.workerCount))
  }

  predicate WantsLess(s: State) {
    !WantsMore(s) && s.scaleDown(AsUint(|s.queue|), AsUint(s.workerCount))
  }

  /** A pass that starts a worker. */
  lemma SpawnPass(s: State, acts: seq<Action>, t: State) returns (acts': seq<Action>, t': State)
    requires Leads(s, acts, t) && Calm(t) && WantsMore(t)
    ensures Leads(s, acts', t')
    ensures t' == t.(workers := t.workers + [Waiting], pool := t.pool + [|t.workers|], workerCount := t.workerCount + 1,
                     queueSize := |t.queue|, passes := t.passes + 1)
  {
    acts', t' := Take(s, acts, t, TestRunning);
    acts', t' := Take(s, acts', t', Sample);
    acts', t' := Take(s, acts', t', TestUp);
  }

  /** From the loop test to the decision to send a token. */
  lemma WantToken(s: State, acts: seq<Action>, t: State) returns (acts': seq<Action>, t': State)
    requires Leads(s, acts, t) && Calm(t) && WantsLess(t)
    ensures Leads(s, acts', t')
    ensures t' == t.(manager := LoadingKill, queueSize := |t.queue|, passes := t.passes + 1)
  {
    acts', t' := Take(s, acts, t, TestRunning);
    acts', t' := Take(s, acts', t', Sample);
    acts', t' := Take(s, acts', t', TestUp);
    acts', t' := Take(s, acts', t', TestDown);
  }

  predicate NobodyFinished(s: State) {
    forall i :: 0 <= i < |s.pool| ==> s.pool[i] < |s.workers| && !Finished(s.workers[s.pool[i]])
  }

  /** A sweep that finds nobody finished. */
  lemma {:induction false} SweepNobody(s: State, acts: seq<Action>, t: State) returns (acts': seq<Action>, t': State)
    requires Leads(s, acts, t) && NobodyFinished(t) && t.manager.Reaping? && !t.manager.drain
    requires t.manager.next <= |t.pool|
    ensures Leads(s, acts', t') && t' == t.(manager := LoopTest)
    decreases |t.pool| - t.manager.next
  {
    acts', t' := Take(s, acts, t, Scan);
    if t.manager.next < |t.pool| {
      acts', t' := SweepNobody(s, acts', t');
    }
  }

  lemma SendAndSweep(s: State, acts: seq<Action>, t: State) returns (acts': seq<Action>, t': State)
    requires Leads(s, acts, t) && t.manager.LoadingKill? && t.killThread == 0 && NobodyFinished(t)
    ensures Leads(s, acts', t') && t' == t.(killThread := 1, issued := t.issued + 1, manager := LoopTest)
  {
    acts', t' := Take(s, acts, t, LoadToken);
    acts', t' := Take(s, acts', t', IssueToken(false));
    acts', t' := SweepNobody(s, acts', t');
  }

  /** A waiting worker takes the token and stops just before storing `finished`. */
  lemma TakeToken(s: State, acts: seq<Action>, t: State, id: nat) returns (acts': seq<Action>, t': State)
    requires Leads(s, acts, t) && id < |t.workers| && t.workers[id].Waiting? && t.mutex.None? && t.killThread == 1
    ensures Leads(s, acts', t')
    ensures t' == t.(workers := t.workers[id := Storing(ByToken(t.passes))], killThread := 0, mutex := Some(id))
  {
    acts', t' := Take(s, acts, t, Wake(id));
    acts', t' := Take(s, acts', t', LoadKill(id));
    acts', t' := Take(s, acts', t', CasKill(id, false));
    assert t'.workers == t.workers[id := Storing(ByToken(t.passes))];
  }

  lemma Depart(s: State, acts: seq<Action>, t: State, id: nat) returns (acts': seq<Action>, t': State)
    requires Leads(s, acts, t) && id < |t.workers| && t.workers[id].Storing?
    ensures Leads(s, acts', t') && t' == t.(workers := t.workers[id := Exited(t.workers[id].reason)], mutex := None)
  {
    acts', t' := Take(s, acts, t, StoreFinished(id));
    acts', t' := Take(s, acts', t', Leave(id));
    assert t'.workers == t.workers[id := Exited(t.workers[id].reason)];
  }

  // ---- policies that fire only above two ----

  predicate UpToThree(queueSize: nat, workerCount: nat) {
    workerCount < 3
  }

  predicate AboveTwo(queueSize: nat, workerCount: nat) {
    workerCount > 2
  }

  /** The pool after these two policies were installed. */
  function Tuned(): State {
    Init().(scaleUp := UpToThree, scaleDown := AboveTwo)
  }

  lemma InstallPolicies(acts: seq<Action>, t: State) returns (all: seq<Action>)
    requires Leads(Tuned(), acts, t)
    ensures Feasible(Init(), all) && After(Init(), all) == t && Throughout(Init(), all, DownAbove(2))
  {
    var up, down := SetScaleUp(UpToThree), SetScaleDown(AboveTwo);
    var s := Apply(Init(), up);
    PoliciesFire(Tuned(), acts, 2);
    Prepend(s, down, acts);
    Prepend(Init(), up, [down] + acts);
    all := [up] + ([down] + acts);
    assert all[1..] == [down] + acts && ([down] + acts)[1..] == acts;
  }

  lemma ThreeWorkers() returns (acts: seq<Action>, t: State)
    ensures Leads(Tuned(), acts, t) && Calm(t) && t.queue == [] && t.killThread == 0
    ensures t.workers == [Waiting, Waiting, Waiting] && t.pool == [0, 1, 2] && t.workerCount == 3
    ensures t.scaleUp == UpToThree && t.scaleDown == AboveTwo
  {
    acts, t := [], Tuned();
    acts, t := SpawnPass(Tuned(), acts, t);
    acts, t := SpawnPass(Tuned(), acts, t);
    acts, t := SpawnPass(Tuned(), acts, t);
  }

  /** A first token, and a second one sent while the first victim has not yet stored `finished`. */
  lemma FirstVictim() returns (acts: seq<Action>, t: State)
    ensures Leads(Tuned(), acts, t) && Calm(t) && t.queue == [] && t.killThread == 1
    ensures |t.workers| == 3 && t.workers[0].Exited? && t.workers[1].Waiting? && t.workers[2].Waiting?
    ensures t.pool == [0, 1, 2] && t.workerCount == 3
    ensures t.scaleUp == UpToThree && t.scaleDown == AboveTwo
  {
    acts, t := ThreeWorkers();
    acts, t := WantToken(Tuned(), acts, t);
    acts, t := SendAndSweep(Tuned(), acts, t);
    acts, t := WantToken(Tuned(), acts, t);
    acts, t := TakeToken(Tuned(), acts, t, 0);
    acts, t := SendAndSweep(Tuned(), acts, t);
    acts, t := Depart(Tuned(), acts, t, 0);
  }

  /** The second victim leaves before the third token is sent: two killed workers are still in the
      vector, and the third token is for the last one. */
  lemma LastToken() returns (acts: seq<Action>, t: State)
    ensures Leads(Tuned(), acts, t) && t.running && t.killThread == 1 && t.mutex.None? && t.workerCount == 3
    ensures |t.workers| == 3 && t.workers[0].Exited? && t.workers[1].Exited? && t.workers[2].Waiting?
  {
    acts, t := FirstVictim();
    acts, t := WantToken(Tuned(), acts, t);
    acts, t := TakeToken(Tuned(), acts, t, 1);
    acts, t := Depart(Tuned(), acts, t, 1);
    acts, t := Take(Tuned(), acts, t, LoadToken);
    acts, t := Take(Tuned(), acts, t, IssueToken(false));
  }

  /** A running pool can be left without a single worker at work, although every consulted
      scale-down policy fired only with more than two workers in the vector. */
  lemma MinimumCanFail() returns (acts: seq<Action>)
    ensures Feasible(Init(), acts) && Throughout(Init(), acts, DownAbove(2))
    ensures var s := After(Init(), acts);
            s.running && |s.workers| == s.workerCount == 3 && Count(s.workers, Undecided) == 0
  {
    var run, t := LastToken();
    run, t := TakeToken(Tuned(), run, t, 2);
    CountPositive(t.workers, Undecided);
    acts := InstallPolicies(run, t);
  }

  lemma {:induction false} WeakenThreshold(s: State, acts: seq<Action>, m: nat)
    requires Feasible(s, acts) && Throughout(s, acts, DownAbove(2)) && m <= 2
    ensures Throughout(s, acts, DownAbove(m))
    decreases acts
  {
    if acts == [] {
    } else {
      assert DownAbove(2)(s, acts[0]);
      WeakenThreshold(Apply(s, acts[0]), acts[1..], m);
    }
  }

  /** The documented minimum of one worker is kept, from the first worker on and in every state of the
      running pool, exactly by thresholds of three and more. */
  lemma MinimumWorkers(m: nat)
    ensures AlwaysOneAtWork(m) <==> m >= 3
  {
    if m >= 3 {
      forall acts | Feasible(Init(), acts) && Throughout(Init(), acts, DownAbove(m))
        ensures OneAtWork(After(Init(), acts))
      {
        InitInv();
        OneStaysAlong(Init(), acts, m);
      }
    } else {
      var acts := MinimumCanFail();
      WeakenThreshold(Init(), acts, m);
      var s := After(Init(), acts);
      assert !OneAtWork(s);
    }
  }

  // ---- the default policies ----

  lemma {:induction false} AddTasks(acts: seq<Action>, t: State, n: nat) returns (acts': seq<Action>, t': State)
    requires Leads(Init(), acts, t) && Calm(t)
    ensures Leads(Init(), acts', t') && Calm(t') && |t'.queue| == |t.queue| + n
    ensures t' == t.(queue := t'.queue, submitted := t'.submitted)
    decreases n
  {
    acts', t' := acts, t;
    if n > 0 {
      acts', t' := Take(Init(), acts, t, AddTask(WorkerTask(0, "")));
      acts', t' := AddTasks(acts', t', n - 1);
    }
  }

  /** One worker runs everything that is queued. */
  lemma {:induction false} RunAll(acts: seq<Action>, t: State, id: nat) returns (acts': seq<Action>, t': State)
    requires Leads(Init(), acts, t) && Calm(t) && id < |t.workers| && t.workers[id].Waiting? && t.killThread == 0
    ensures Leads(Init(), acts', t')
    ensures t' == t.(queue := [], popped := t'.popped, completed := t'.completed)
    decreases |t.queue|
  {
    acts', t' := acts, t;
    if t.queue != [] {
      acts', t' := Take(Init(), acts', t', Wake(id));
      acts', t' := Take(Init(), acts', t', LoadKill(id));
      acts', t' := Take(Init(), acts', t', Decide(id));
      acts', t' := Take(Init(), acts', t', Complete(id, false));
      assert t'.workers == t.workers;
      acts', t' := RunAll(acts', t', id);
    }
  }

  /** Eleven tasks bring in two workers; then the queue runs empty. */
  lemma TwoWorkers() returns (acts: seq<Action>, t: State)
    ensures Leads(Init(), acts, t) && Calm(t) && t.queue == [] && t.killThread == 0
    ensures t.workers == [Waiting, Waiting] && t.pool == [0, 1] && t.workerCount == 2
    ensures t.scaleUp == DefaultScaleUp && t.scaleDown == DefaultScaleDown
  {
    acts, t := [], Init();
    acts, t := AddTasks(acts, t, 11);
    acts, t := SpawnPass(Init(), acts, t);
    acts, t := SpawnPass(Init(), acts, t);
    acts, t := RunAll(acts, t, 0);
  }

  /** Nobody ever called setScaleUp or setScaleDown, and yet both workers of a running pool are gone: the
      second token was sent before the first victim stored `finished`. */
  lemma DefaultMinimumCanFail() returns (acts: seq<Action>)
    ensures Feasible(Init(), acts) && KeepsPolicies(acts)
    ensures var s := After(Init(), acts);
            s.running && |s.workers| == s.workerCount == 2 && Count(s.workers, Undecided) == 0
  {
    var t;
    acts, t := TwoWorkers();
    acts, t := WantToken(Init(), acts, t);
    acts, t := SendAndSweep(Init(), acts, t);
    acts, t := WantToken(Init(), acts, t);
    acts, t := TakeToken(Init(), acts, t, 0);
    acts, t := SendAndSweep(Init(), acts, t);
    acts, t := Depart(Init(), acts, t, 0);
    acts, t := TakeToken(Init(), acts, t, 1);
    CountPositive(t.workers, Undecided);
  }
}
