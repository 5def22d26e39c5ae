/** What each thread of the pool does in a run: its own steps, in the order of its program. */
module PoolThreads {
  import opened Sequences
  import opened PoolModel
  import opened PoolInvariants

  predicate ByManager(a: Action) {
    a.TestRunning? || a.Sample? || a.TestUp? || a.TestDown? || a.LoadToken? || a.IssueToken?
    || a.Scan? || a.Join? || a.TestDrained?
  }

  predicate ByWorker(id: nat, a: Action) {
    match a
    case Wake(k) => k == id
    case LoadKill(k) => k == id
    case CasKill(k, _) => k == id
    case Decide(k) => k == id
    case Complete(k, _) => k == id
    case StoreFinished(k) => k == id
    case Leave(k) => k == id
    case _ => false
  }

  datatype Thread = Manager | Worker(id: nat)

  predicate By(me: Thread, a: Action) {
    match me
    case Manager => ByManager(a)
    case Worker(id) => ByWorker(id, a)
  }

  function IsBy(me: Thread): Action -> bool {
    (a: Action) => By(me, a)
  }

  /** The steps of one thread, in order. */
  function Steps(me: Thread, acts: seq<Action>): seq<Action> {
    Filter(acts, IsBy(me))
  }

  lemma StepsConcat(me: Thread, first: seq<Action>, second: seq<Action>)
    ensures Steps(me, first + second) == Steps(me, first) + Steps(me, second)
  {
    FilterConcat(first, second, IsBy(me));
  }

  lemma StepsExtend(me: Thread, before: seq<Action>, run: seq<Action>, a: Action)
    requires before <= run
    ensures Steps(me, (run + [a])[|before|..]) == Steps(me, run[|before|..]) + (if By(me, a) then [a] else [])
  {
    assert (run + [a])[|before|..] == run[|before|..] + [a];
    FilterAppend(run[|before|..], a, IsBy(me));
  }

  /** What a thread relies on: nobody else changes its own variables or moves it. */
  predicate Undisturbed(me: Thread, s: State, t: State) {
    match me
    case Manager =>
      t.manager == s.manager && t.pool == s.pool && t.workerCount == s.workerCount && t.queueSize == s.queueSize
      && StillFinished(s.workers, t.workers)
    case Worker(id) =>
      id < |s.workers| && !s.workers[id].Exited? ==> id < |t.workers| && t.workers[id] == s.workers[id]
  }

  lemma OthersLeave(me: Thread, s: State, a: Action)
    requires Enabled(s, a) && !By(me, a)
    ensures Undisturbed(me, s, Apply(s, a))
  {
    if me.Manager? {
      FinishedStep(s, a);
    }
  }

  /** While a worker holds the mutex nobody takes or adds a task or a kill, and the flag can only fall. */
  predicate Guarded(me: Thread, s: State, t: State) {
    me.Worker? && me.id < |s.workers| && Holds(s.workers[me.id]) ==>
      t.queue == s.queue && (t.running ==> s.running) && t.killThread >= s.killThread
  }

  lemma OthersKeepOut(me: Thread, s: State, a: Action)
    requires MutexInv(s) && Enabled(s, a) && !By(me, a)
    ensures Guarded(me, s, Apply(s, a))
  {
    if me.Worker? && me.id < |s.workers| && Holds(s.workers[me.id]) {
      assert s.mutex == Some(me.id);
      assert forall k :: 0 <= k < |s.workers| && Holds(s.workers[k]) ==> k == me.id;
    }
  }

  lemma StillGuarded(me: Thread, s: State, t: State, u: State)
    requires Undisturbed(me, s, t) && Guarded(me, s, t) && Guarded(me, t, u)
    ensures Guarded(me, s, u)
  {
  }

  predicate StillFinished(before: seq<WorkerPc>, after: seq<WorkerPc>) {
    |before| <= |after| && forall id :: 0 <= id < |before| && Finished(before[id]) ==> Finished(after[id])
  }

  /** None of the first `n` of the vector had finished earlier. */
  predicate Cleared(earlier: seq<WorkerPc>, pool: seq<nat>, n: nat) {
    forall i :: 0 <= i < n && i < |pool| && pool[i] < |earlier| ==> !Finished(earlier[pool[i]])
  }

  lemma ClearedErase(earlier: seq<WorkerPc>, pool: seq<nat>, it: nat)
    requires it < |pool| && Cleared(earlier, pool, it)
    ensures Cleared(earlier, pool[..it] + pool[it + 1..], it)
  {
  }

  /** Every thread finished before is joined after. */
  predicate AllGone(before: seq<WorkerPc>, after: seq<WorkerPc>) {
    |before| <= |after| && forall id :: 0 <= id < |before| && Finished(before[id]) ==> after[id].Joined?
  }

  lemma FinishedStep(s: State, a: Action)
    requires Enabled(s, a)
    ensures StillFinished(s.workers, Apply(s, a).workers)
  {
    Effect(s, a);
  }

  lemma {:induction false} FinishedStays(s: State, acts: seq<Action>)
    requires Feasible(s, acts)
    ensures StillFinished(s.workers, After(s, acts).workers)
    decreases acts
  {
    if acts == [] {
    } else {
      FinishedStep(s, acts[0]);
      FinishedStays(Apply(s, acts[0]), acts[1..]);
    }
  }

  // ---- the steps of the manager ----

  /** A sweep looks at each worker of the vector and joins it if it has finished. */
  function Turn(join: bool): seq<Action> {
    if join then [Scan, Join] else [Scan]
  }

  function Turns(joins: seq<bool>): seq<Action> {
    if joins == [] then [] else Turns(joins[..|joins| - 1]) + Turn(joins[|joins| - 1])
  }

  /** The sweep of so many workers, and the look at the next one or at the end of the vector. */
  function SweepSteps(joins: seq<bool>): seq<Action> {
    Turns(joins) + [Scan]
  }

  /** Those of the first |joins| workers of the vector that a sweep passes over. */
  function PassedOver(pool: seq<nat>, joins: seq<bool>): (ids: seq<nat>)
    requires |joins| <= |pool|
    ensures |ids| <= |joins|
  {
    if joins == [] then []
    else
      var last := |joins| - 1;
      PassedOver(pool, joins[..last]) + if joins[last] then [] else [pool[last]]
  }

  /** The vector when the sweep has got so far. */
  function Kept(pool: seq<nat>, joins: seq<bool>): seq<nat>
    requires |joins| <= |pool|
  {
    PassedOver(pool, joins) + pool[|joins|..]
  }

  lemma TurnsExtend(joins: seq<bool>, join: bool)
    ensures Turns(joins + [join]) == Turns(joins) + Turn(join)
  {
    assert (joins + [join])[..|joins|] == joins;
  }

  lemma PassedOverExtend(pool: seq<nat>, joins: seq<bool>, join: bool)
    requires |joins| < |pool|
    ensures PassedOver(pool, joins + [join]) == PassedOver(pool, joins) + if join then [] else [pool[|joins|]]
  {
    assert (joins + [join])[..|joins|] == joins;
  }

  lemma Shift(front: seq<nat>, tail: seq<nat>)
    requires tail != []
    ensures (front + [tail[0]]) + tail[1..] == front + tail
    ensures front + tail[1..] == (front + tail)[..|front|] + (front + tail)[|front| + 1..]
  {
  }

  /** Passing over a worker moves the iterator on; joining it erases it under the iterator. */
  lemma KeptTurn(pool: seq<nat>, joins: seq<bool>, join: bool)
    requires |joins| < |pool|
    ensures var it, now := |PassedOver(pool, joins)|, Kept(pool, joins);
            && |PassedOver(pool, joins + [join])| == (if join then it else it + 1)
            && Kept(pool, joins + [join]) == (if join then now[..it] + now[it + 1..] else now)
  {
    var front, tail := PassedOver(pool, joins), pool[|joins|..];
    PassedOverExtend(pool, joins, join);
    Shift(front, tail);
    assert tail[1..] == pool[|joins| + 1..];
    assert join ==> front + [] == front;
  }

  /** How a pass of the manager loop went. */
  datatype Pass =
    | Left                                        // the flag was down
    | AtMutex                                     // still waiting for taskMutex_
    | Spawned                                     // scaleUp asked for a worker
    | Steady                                      // neither policy asked
    | AtJoin(offered: bool, joins: seq<bool>)     // still waiting for a finished thread to exit
    | Swept(offered: bool, joins: seq<bool>)      // scaleDown asked; swept the whole vector

  predicate Blocked(pass: Pass) {
    pass.AtMutex? || pass.AtJoin?
  }

  /** A token is sent unless one was still out. */
  function OfferSteps(offered: bool, spurious: bool): seq<Action> {
    [LoadToken] + if offered then [IssueToken(spurious)] else []
  }

  /** What follows when scaleDown asked for less. */
  function ShrinkSteps(pass: Pass, spurious: bool): seq<Action>
    requires pass.AtJoin? || pass.Swept?
  {
    OfferSteps(pass.offered, spurious) + SweepSteps(pass.joins)
  }

  function PassSteps(pass: Pass, spurious: bool): seq<Action> {
    match pass
    case Left => [TestRunning]
    case AtMutex => [TestRunning]
    case Spawned => [TestRunning, Sample, TestUp]
    case Steady => [TestRunning, Sample, TestUp, TestDown]
    case _ => [TestRunning, Sample, TestUp, TestDown] + ShrinkSteps(pass, spurious)
  }

  function PassesSteps(passes: seq<Pass>, spurious: nat -> bool): seq<Action> {
    if passes == [] then []
    else
      var n := |passes| - 1;
      PassesSteps(passes[..n], spurious) + PassSteps(passes[n], spurious(n))
  }

  /** The second loop of the manager: each turn tests the count and sweeps. */
  function DrainSteps(sweeps: seq<seq<bool>>): seq<Action> {
    if sweeps == [] then []
    else DrainSteps(sweeps[..|sweeps| - 1]) + [TestDrained] + SweepSteps(sweeps[|sweeps| - 1])
  }

  /** All passes but the last went on to another one. */
  predicate GoOn(passes: seq<Pass>) {
    forall i :: 0 <= i < |passes| ==> !Blocked(passes[i]) && !passes[i].Left?
  }

  // ---- the steps of a worker ----

  /** How a round of the worker loop went, and whether the worker tried for a token in it. */
  datatype Round =
    | TookToken
    | LeftAtShutdown(raced: bool)
    | FoundNothing(raced: bool)
    | RanTask(raced: bool)

  predicate Leaves(r: Round) {
    r.TookToken? || r.LeftAtShutdown?
  }

  /** A worker that leaves does so in its last round, and only then. */
  predicate LeavesLast(rounds: seq<Round>, left: bool) {
    forall i :: 0 <= i < |rounds| ==> (Leaves(rounds[i]) <==> left && i == |rounds| - 1)
  }

  lemma LeavesLastExtend(rounds: seq<Round>, round: Round)
    requires LeavesLast(rounds, false)
    ensures LeavesLast(rounds + [round], Leaves(round))
  {
  }

  /** A worker goes round empty-handed only after a compare-and-swap that failed for no reason. */
  predicate EmptyOnlySpuriously(rounds: seq<Round>, spurious: nat -> bool) {
    forall i :: 0 <= i < |rounds| && rounds[i].FoundNothing? ==> rounds[i].raced && spurious(i)
  }

  lemma EmptyOnlySpuriouslyExtend(rounds: seq<Round>, round: Round, spurious: nat -> bool)
    requires EmptyOnlySpuriously(rounds, spurious) && (round.FoundNothing? ==> round.raced && spurious(|rounds|))
    ensures EmptyOnlySpuriously(rounds + [round], spurious)
  {
  }

  function RaceSteps(id: nat, raced: bool, spurious: bool): seq<Action> {
    [Wake(id), LoadKill(id)] + if raced then [CasKill(id, spurious)] else []
  }

  /** The steps of a round once the worker is past the tokens or has taken one. */
  function LateSteps(id: nat, r: Round, threw: bool): seq<Action> {
    match r
    case TookToken => [StoreFinished(id), Leave(id)]
    case LeftAtShutdown(_) => [Decide(id), StoreFinished(id), Leave(id)]
    case FoundNothing(_) => [Decide(id)]
    case RanTask(_) => [Decide(id), Complete(id, threw)]
  }

  function RoundSteps(id: nat, r: Round, spurious: bool, threw: bool): seq<Action> {
    RaceSteps(id, r.TookToken? || r.raced, spurious) + LateSteps(id, r, threw)
  }

  function WorkerSteps(id: nat, rounds: seq<Round>, spurious: nat -> bool, threw: nat -> bool): seq<Action> {
    if rounds == [] then []
    else
      var n := |rounds| - 1;
      WorkerSteps(id, rounds[..n], spurious, threw) + RoundSteps(id, rounds[n], spurious(n), threw(n))
  }
}
