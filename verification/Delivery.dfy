/** The channel and its pool together: what happens to a message from its arrival to its execution. */
module Delivery {
  import opened Sequences
  import Pool = PoolModel
  import PoolInvariants
  import PoolScaling
  import PoolMinimum
  import PoolGrowth
  import PoolShutdown
  import Channel = ChannelModel
  import opened ScalingPolicies

  datatype State = State(channel: Channel.State, pool: Pool.State)

  /** A call or server event of the channel, or a step of the pool's own threads. */
  datatype Action = Api(event: Channel.Event) | Threads(step: Pool.Action)

  /** The pool of a channel is used by nobody else: tasks come from messages only, and the policies
      stay as installed. */
  predicate Internal(a: Pool.Action) {
    !a.AddTask? && !a.SetScaleUp? && !a.SetScaleDown?
  }

  /** The pool steps a joint step stands for. */
  function PoolSteps(s: State, a: Action): seq<Pool.Action> {
    match a
    case Api(e) =>
      (match Channel.TaskFor(s.channel, e)
       case None => []
       case Some(task) => [Pool.AddTask(task)])
    case Threads(step) => [step]
  }

  predicate Enabled(s: State, a: Action) {
    && (a.Api? ==> Channel.Enabled(s.channel, a.event))
    && (a.Threads? ==> Internal(a.step))
    && Pool.Feasible(s.pool, PoolSteps(s, a))
  }

  function Apply(s: State, a: Action): State
    requires Enabled(s, a)
  {
    State(if a.Api? then Channel.Apply(s.channel, a.event) else s.channel,
          Pool.After(s.pool, PoolSteps(s, a)))
  }

  /** The constructor: the pool starts first and may already take steps of its own, then the channel
      installs its policies. */
  function Start(early: seq<Pool.Action>): State
    requires Pool.Feasible(Pool.Init(), early + [Pool.SetScaleUp(ChannelScaleUp), Pool.SetScaleDown(ChannelScaleDown)])
  {
    State(Channel.Init(),
          Pool.After(Pool.Init(), early + [Pool.SetScaleUp(ChannelScaleUp), Pool.SetScaleDown(ChannelScaleDown)]))
  }

  predicate Quiet(acts: seq<Pool.Action>) {
    forall i :: 0 <= i < |acts| ==> Internal(acts[i])
  }

  predicate Feasible(s: State, acts: seq<Action>)
    decreases acts
  {
    acts == [] || (Enabled(s, acts[0]) && Feasible(Apply(s, acts[0]), acts[1..]))
  }

  function After(s: State, acts: seq<Action>): State
    requires Feasible(s, acts)
    decreases acts
  {
    if acts == [] then s else After(Apply(s, acts[0]), acts[1..])
  }

  /** The run of the pool inside a joint run. */
  function PoolRun(s: State, acts: seq<Action>): seq<Pool.Action>
    requires Feasible(s, acts)
    decreases acts
  {
    if acts == [] then [] else PoolSteps(s, acts[0]) + PoolRun(Apply(s, acts[0]), acts[1..])
  }

  lemma {:induction false} Project(s: State, acts: seq<Action>)
    requires Feasible(s, acts)
    ensures Pool.Feasible(s.pool, PoolRun(s, acts)) && Pool.After(s.pool, PoolRun(s, acts)) == After(s, acts).pool
    ensures forall i :: 0 <= i < |PoolRun(s, acts)| ==>
              !PoolRun(s, acts)[i].SetScaleUp? && !PoolRun(s, acts)[i].SetScaleDown?
    decreases acts
  {
    if acts == [] {
    } else {
      Project(Apply(s, acts[0]), acts[1..]);
      Pool.Extend(s.pool, PoolSteps(s, acts[0]), PoolRun(Apply(s, acts[0]), acts[1..]));
    }
  }

  /** What has been submitted so far is what the history says should be delivered. */
  ghost predicate DeliveryInv(s: State) {
    Channel.TableInv(s.channel) && s.pool.submitted == Channel.Deliveries(s.channel.history)
  }

  lemma SubmittedStep(s: Pool.State, acts: seq<Pool.Action>)
    requires Pool.Feasible(s, acts) && |acts| <= 1
    ensures Pool.After(s, acts).submitted
            == if acts != [] && acts[0].AddTask? then s.submitted + [acts[0].t] else s.submitted
  {
    if acts == [] {
    } else {
      OneSubmitted(s, acts[0]);
      assert acts[1..] == [];
      assert Pool.After(s, acts) == Pool.After(Pool.Apply(s, acts[0]), []);
    }
  }

  lemma OneSubmitted(s: Pool.State, a: Pool.Action)
    requires Pool.Enabled(s, a)
    ensures Pool.Apply(s, a).submitted == if a.AddTask? then s.submitted + [a.t] else s.submitted
  {
  }

  lemma DeliveryStep(s: State, a: Action)
    requires DeliveryInv(s) && Enabled(s, a)
    ensures DeliveryInv(Apply(s, a))
  {
    SubmittedStep(s.pool, PoolSteps(s, a));
    if a.Api? {
      Channel.TableStep(s.channel, a.event);
      Channel.DeliveryStep(s.channel, a.event, None);
    }
  }

  lemma {:induction false} DeliveryAlong(s: State, acts: seq<Action>)
    requires DeliveryInv(s) && Feasible(s, acts)
    ensures DeliveryInv(After(s, acts))
    decreases acts
  {
    if acts == [] {
    } else {
      DeliveryStep(s, acts[0]);
      DeliveryAlong(Apply(s, acts[0]), acts[1..]);
    }
  }

  lemma {:induction false} NothingSubmitted(s: Pool.State, early: seq<Pool.Action>)
    requires Pool.Feasible(s, early) && Quiet(early)
    ensures Pool.After(s, early).submitted == s.submitted
    decreases early
  {
    if early == [] {
    } else {
      assert Internal(early[0]);
      assert forall i :: 0 <= i < |early[1..]| ==> early[1..][i] == early[i + 1];
      NothingSubmitted(Pool.Apply(s, early[0]), early[1..]);
    }
  }

  lemma AfterTwo(s: Pool.State, a: Pool.Action, b: Pool.Action)
    requires Pool.Feasible(s, [a, b])
    ensures Pool.Enabled(s, a) && Pool.Enabled(Pool.Apply(s, a), b)
    ensures Pool.After(s, [a, b]) == Pool.Apply(Pool.Apply(s, a), b)
  {
    var t := Pool.Apply(s, a);
    assert [a, b][1..] == [b] && [b][1..] == [];
    assert Pool.Feasible(t, [b]) && Pool.After(t, [b]) == Pool.Apply(t, b);
  }

  lemma StartDelivers(early: seq<Pool.Action>)
    requires Quiet(early)
    requires Pool.Feasible(Pool.Init(), early + [Pool.SetScaleUp(ChannelScaleUp), Pool.SetScaleDown(ChannelScaleDown)])
    ensures DeliveryInv(Start(early))
  {
    var sets := [Pool.SetScaleUp(ChannelScaleUp), Pool.SetScaleDown(ChannelScaleDown)];
    Pool.Split(Pool.Init(), early, sets);
    NothingSubmitted(Pool.Init(), early);
    var s := Pool.After(Pool.Init(), early);
    AfterTwo(s, sets[0], sets[1]);
  }

  /** End to end: in every run the pool has been given exactly the received messages whose channel was
      registered on arrival, each with the callback latest at that time; it pops them in arrival order,
      each at most once, and completes none it was not given. */
  lemma EndToEnd(early: seq<Pool.Action>, acts: seq<Action>)
    requires Quiet(early)
    requires Pool.Feasible(Pool.Init(), early + [Pool.SetScaleUp(ChannelScaleUp), Pool.SetScaleDown(ChannelScaleDown)])
    requires Feasible(Start(early), acts)
    ensures var s := After(Start(early), acts);
            var due := Channel.Deliveries(s.channel.history);
            && s.pool.submitted == due
            && s.pool.popped <= due && due == s.pool.popped + s.pool.queue
            && multiset(s.pool.popped) == multiset(s.pool.completed) + Gather(s.pool.workers, PoolInvariants.InFlight)
  {
    StartDelivers(early);
    DeliveryAlong(Start(early), acts);
    Project(Start(early), acts);
    var sets := [Pool.SetScaleUp(ChannelScaleUp), Pool.SetScaleDown(ChannelScaleDown)];
    Pool.Extend(Pool.Init(), early + sets, PoolRun(Start(early), acts));
    PoolInvariants.ExactlyOnceFifo(early + sets + PoolRun(Start(early), acts));
  }

  /** And if the pool was shut down from a settled state with no late message, then by the time its
      manager returns every message due has been executed exactly once. */
  lemma EveryDueMessageRuns(early: seq<Pool.Action>, acts: seq<Action>, more: seq<Action>)
    requires Quiet(early)
    requires Pool.Feasible(Pool.Init(), early + [Pool.SetScaleUp(ChannelScaleUp), Pool.SetScaleDown(ChannelScaleDown)])
    requires Feasible(Start(early), acts) && Feasible(After(Start(early), acts), more)
    requires var s := After(Start(early), acts);
             PoolInvariants.InDrain(s.pool.manager) && PoolShutdown.Settled(s.pool)
    requires var t := After(After(Start(early), acts), more);
             t.pool.manager.Returned? && !t.pool.late
    ensures var t := After(After(Start(early), acts), more);
            multiset(t.pool.completed) == multiset(Channel.Deliveries(t.channel.history))
  {
    StartDelivers(early);
    DeliveryAlong(Start(early), acts);
    var s := After(Start(early), acts);
    DeliveryAlong(s, more);
    Project(Start(early), acts);
    Project(s, more);
    var sets := [Pool.SetScaleUp(ChannelScaleUp), Pool.SetScaleDown(ChannelScaleDown)];
    Pool.Extend(Pool.Init(), early + sets, PoolRun(Start(early), acts));
    PoolInvariants.InitInv();
    PoolInvariants.InvAlong(Pool.Init(), early + sets + PoolRun(Start(early), acts));
    var run := PoolRun(s, more);
    PoolShutdown.LateRemembered(s.pool, run);
    PoolShutdown.SettledAlong(s.pool, run);
    PoolShutdown.SettledAtReturn(After(s, more).pool);
  }

  // ---- the worker cap of the channel's pool ----

  ghost predicate EarlyInv(s: Pool.State) {
    s.workerCount == 0 && s.queue == [] && s.queueSize == 0 && s.scaleUp == Pool.DefaultScaleUp
    && s.pool == [] && s.workers == []
  }

  lemma {:induction false} EarlyAlong(s: Pool.State, early: seq<Pool.Action>)
    requires EarlyInv(s) && Pool.Feasible(s, early) && Quiet(early)
    ensures EarlyInv(Pool.After(s, early))
    decreases early
  {
    if early == [] {
    } else {
      assert Internal(early[0]);
      EarlyStep(s, early[0]);
      assert forall i :: 0 <= i < |early[1..]| ==> early[1..][i] == early[i + 1];
      EarlyAlong(Pool.Apply(s, early[0]), early[1..]);
    }
  }

  lemma EarlyStep(s: Pool.State, a: Pool.Action)
    requires EarlyInv(s) && Pool.Enabled(s, a) && Internal(a)
    ensures EarlyInv(Pool.Apply(s, a))
  {
    assert !Pool.DefaultScaleUp(0, 0);
  }

  lemma {:induction false} PolicyStays(s: Pool.State, acts: seq<Pool.Action>)
    requires Pool.Feasible(s, acts) && PoolScaling.UpImplies(s.scaleUp, MAX_WORKER_COUNT)
    requires forall i :: 0 <= i < |acts| ==> !acts[i].SetScaleUp?
    ensures Pool.Throughout(s, acts, PoolScaling.UpBelow(MAX_WORKER_COUNT))
    decreases acts
  {
    if acts == [] {
    } else {
      assert Pool.Apply(s, acts[0]).scaleUp == s.scaleUp;
      assert forall i :: 0 <= i < |acts[1..]| ==> acts[1..][i] == acts[i + 1];
      PolicyStays(Pool.Apply(s, acts[0]), acts[1..]);
    }
  }

  /** The channel's pool never has more than five workers, although it starts with the default policy
      and its cap of ten. */
  lemma ChannelWorkerCap(early: seq<Pool.Action>, acts: seq<Action>)
    requires Quiet(early)
    requires Pool.Feasible(Pool.Init(), early + [Pool.SetScaleUp(ChannelScaleUp), Pool.SetScaleDown(ChannelScaleDown)])
    requires Feasible(Start(early), acts)
    ensures After(Start(early), acts).pool.workerCount <= MAX_WORKER_COUNT
  {
    var sets := [Pool.SetScaleUp(ChannelScaleUp), Pool.SetScaleDown(ChannelScaleDown)];
    Pool.Split(Pool.Init(), early, sets);
    EarlyAlong(Pool.Init(), early);
    var s := Pool.After(Pool.Init(), early);
    AfterTwo(s, sets[0], sets[1]);
    var p := Start(early).pool;
    assert p.scaleUp == ChannelScaleUp && p.workerCount == 0;
    PoolInvariants.InitInv();
    PoolInvariants.InvAlong(Pool.Init(), early + sets);
    Project(Start(early), acts);
    PolicyStays(p, PoolRun(Start(early), acts));
    PoolScaling.CapAlong(p, PoolRun(Start(early), acts), MAX_WORKER_COUNT);
  }

  // ---- and where it comes to rest ----

  lemma PoliciesInForce(early: seq<Pool.Action>, acts: seq<Action>)
    requires Quiet(early)
    requires Pool.Feasible(Pool.Init(), early + [Pool.SetScaleUp(ChannelScaleUp), Pool.SetScaleDown(ChannelScaleDown)])
    requires Feasible(Start(early), acts)
    ensures var p := After(Start(early), acts).pool;
            p.scaleUp == ChannelScaleUp && p.scaleDown == ChannelScaleDown && PoolInvariants.Inv(p)
  {
    var sets := [Pool.SetScaleUp(ChannelScaleUp), Pool.SetScaleDown(ChannelScaleDown)];
    Pool.Split(Pool.Init(), early, sets);
    var s := Pool.After(Pool.Init(), early);
    AfterTwo(s, sets[0], sets[1]);
    Project(Start(early), acts);
    PoolGrowth.PoliciesStay(Start(early).pool, PoolRun(Start(early), acts));
    PoolInvariants.InitInv();
    PoolInvariants.InvAlong(Pool.Init(), early + sets);
    PoolInvariants.InvAlong(Start(early).pool, PoolRun(Start(early), acts));
  }

  /** Steps of the pool's own threads as joint steps. */
  function Lifted(steps: seq<Pool.Action>): seq<Action> {
    if steps == [] then [] else [Threads(steps[0])] + Lifted(steps[1..])
  }

  lemma OneStep(s: Pool.State, a: Pool.Action)
    requires Pool.Enabled(s, a)
    ensures Pool.Feasible(s, [a]) && Pool.After(s, [a]) == Pool.Apply(s, a)
  {
    Pool.ExtendOne(s, [], a);
    assert [] + [a] == [a];
  }

  lemma {:induction false} Lift(s: State, steps: seq<Pool.Action>)
    requires Pool.Feasible(s.pool, steps) && Quiet(steps)
    ensures Feasible(s, Lifted(steps)) && After(s, Lifted(steps)) == s.(pool := Pool.After(s.pool, steps))
    decreases steps
  {
    if steps == [] {
    } else {
      var a := Threads(steps[0]);
      assert Internal(steps[0]);
      OneStep(s.pool, steps[0]);
      assert forall i :: 0 <= i < |steps[1..]| ==> steps[1..][i] == steps[i + 1];
      Lift(Apply(s, a), steps[1..]);
      assert Lifted(steps)[1..] == Lifted(steps[1..]);
    }
  }

  /** From every joint state with the manager between two passes and no more workers than that, and while no
      message comes and no task is begun, passes bring the channel's pool to one worker for every ten tasks
      begun, at most five; so a message that is due gets its worker. */
  lemma ChannelComesToRest(early: seq<Pool.Action>, acts: seq<Action>) returns (steps: seq<Pool.Action>)
    requires Quiet(early)
    requires Pool.Feasible(Pool.Init(), early + [Pool.SetScaleUp(ChannelScaleUp), Pool.SetScaleDown(ChannelScaleDown)])
    requires Feasible(Start(early), acts) && PoolMinimum.Calm(After(Start(early), acts).pool)
    requires |After(Start(early), acts).pool.queue| < Pool.UINT_MODULUS
    requires var p := After(Start(early), acts).pool; p.workerCount <= PoolGrowth.Rest(5, |p.queue|)
    ensures var s := After(Start(early), acts);
            && Feasible(s, Lifted(steps)) && PoolGrowth.OnlyManager(steps)
            && var t := After(s, Lifted(steps));
               && t.channel == s.channel && t.pool.queue == s.pool.queue && PoolGrowth.AtRest(t.pool)
               && t.pool.workerCount == if |s.pool.queue| >= 41 then 5 else (|s.pool.queue| + 9) / 10
  {
    var s := After(Start(early), acts);
    PoliciesInForce(early, acts);
    ThresholdsInUse();
    var p;
    steps, p := PoolGrowth.GrowToRest(s.pool, [], s.pool, 5);
    Lift(s, steps);
  }
}
