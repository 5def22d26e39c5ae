/** The threshold policies: when scaling up and down cannot undo each other. */
module ScalingPolicies {
  import opened PoolModel

  const MAX_WORKER_COUNT: nat := 5

  /** The policies that the channel installs. */
  predicate ChannelScaleUp(queueSize: nat, workerCount: nat) {
    ScaleUpAt(10, MAX_WORKER_COUNT, queueSize, workerCount)
  }

  predicate ChannelScaleDown(queueSize: nat, workerCount: nat) {
    ScaleDownAt(3, queueSize, workerCount)
  }

  /** Thresholds whose products with a worker count up to the cap stay within 32 bits. */
  predicate Fits(up: nat, down: nat, cap: nat) {
    up * cap < UINT_MODULUS && down * cap < UINT_MODULUS
  }

  /** Some queue size at which one more worker is at once one too many, or one fewer one too few. */
  ghost predicate Thrashes(up: nat, down: nat, cap: nat) {
    exists q: nat, w: nat :: ScaleUpAt(up, cap, q, w) && ScaleDownAt(down, q, w + 1)
  }

  /** The width of a policy's arguments. */
  lemma UintRange(n: nat)
    ensures n < 4294967296 ==> AsUint(n) == n
    ensures AsUint(n + 4294967296) == AsUint(n)
    ensures AsUint(-1) == 4294967295
  {
  }

  lemma Product(up: nat, k: nat, cap: nat)
    requires k <= cap && up * cap < UINT_MODULUS
    ensures AsUint(up * k) == up * k
  {
    assert up * k <= up * cap;
  }

  /** A gap of a factor two between the thresholds is exactly what rules thrashing out. */
  lemma NoThrash(up: nat, down: nat, cap: nat)
    requires Fits(up, down, cap)
    ensures !Thrashes(up, down, cap) <==> cap <= 1 || 2 * down <= up + 1
  {
    if cap > 1 && 2 * down > up + 1 {
      Product(up, 1, cap);
      Product(down, 2, cap);
      assert ScaleUpAt(up, cap, up + 1, 1) && ScaleDownAt(down, up + 1, 1 + 1);
    } else {
      forall q: nat, w: nat | ScaleUpAt(up, cap, q, w) && w >= 1
        ensures !ScaleDownAt(down, q, w + 1)
      {
        Product(up, w, cap);
        Product(down, w + 1, cap);
        Gap(up, down, w);
      }
    }
  }

  lemma Gap(up: nat, down: nat, w: nat)
    requires w >= 1 && 2 * down <= up + 1
    ensures down * (w + 1) <= up * w + 1 && down * w <= up * w
  {
    assert down <= up;
    assert down * (w - 1) <= up * (w - 1);
    assert down * (w + 1) == down * (w - 1) + 2 * down;
    assert up * w == up * (w - 1) + up;
  }

  lemma NeverBoth(up: nat, down: nat, cap: nat, q: nat, w: nat)
    requires Fits(up, down, cap) && 2 * down <= up + 1
    ensures !(ScaleUpAt(up, cap, q, w) && ScaleDownAt(down, q, w))
  {
    if w < cap && w >= 1 {
      Product(up, w, cap);
      Product(down, w, cap);
      Gap(up, down, w);
    }
  }

  /** One more worker for more than ten tasks a worker, up to a cap. */
  ghost predicate UpRule(policy: Policy, cap: nat) {
    forall q: nat, w: nat :: policy(q, w) <==> q > 10 * w && w < cap
  }

  /** One fewer for less than three tasks a worker, down to one worker. */
  ghost predicate DownRule(policy: Policy, cap: nat) {
    forall q: nat, w: nat :: w <= cap ==> (policy(q, w) <==> q < 3 * w && w > 1)
  }

  /** The two never fire together, and neither undoes the other at once. */
  ghost predicate Steadies(up: Policy, down: Policy, cap: nat) {
    && (forall q: nat, w: nat :: w <= cap && up(q, w) ==> !down(q, w))
    && (forall q: nat, w: nat :: w <= cap && up(q, w) ==> !down(q, w + 1))
    && (forall q: nat, w: nat :: w <= cap && down(q, w) ==> w >= 1 && !up(q, w - 1))
  }

  /** The policies in use, of the default pool and of the channel's, are these rules with caps ten and five,
      overflow included, and steady. */
  lemma ThresholdsInUse()
    ensures UpRule(DefaultScaleUp, 10) && DownRule(DefaultScaleDown, 10)
    ensures UpRule(ChannelScaleUp, 5) && DownRule(ChannelScaleDown, 5)
    ensures Steadies(DefaultScaleUp, DefaultScaleDown, 10) && Steadies(ChannelScaleUp, ChannelScaleDown, 5)
  {
    RulesSteady(DefaultScaleUp, DefaultScaleDown, 10);
    RulesSteady(ChannelScaleUp, ChannelScaleDown, 5);
  }

  lemma RulesSteady(up: Policy, down: Policy, cap: nat)
    requires UpRule(up, cap) && DownRule(down, cap)
    ensures Steadies(up, down, cap)
  {
  }

  // ---- iterating the policies at a frozen queue size ----

  /** What one manager pass aims at: one worker more, one fewer, or no change. */
  function Target(up: nat, down: nat, cap: nat, q: nat, w: nat): nat {
    if ScaleUpAt(up, cap, q, w) then w + 1
    else if ScaleDownAt(down, q, w) then w - 1
    else w
  }

  function Iterate(up: nat, down: nat, cap: nat, q: nat, w: nat, n: nat): nat
    decreases n
  {
    if n == 0 then w else Iterate(up, down, cap, q, Target(up, down, cap, q, w), n - 1)
  }

  /** Enough workers for the queue or the cap reached, and not too many of them. */
  predicate Balanced(up: nat, down: nat, cap: nat, q: nat, w: nat) {
    && (q <= up * w || w == cap)
    && (q >= down * w || w <= 1)
    && (q > 0 && cap > 0 ==> w >= 1)
  }

  lemma FixedPoint(up: nat, down: nat, cap: nat, q: nat, w: nat)
    requires Fits(up, down, cap) && w <= cap
    ensures Target(up, down, cap, q, w) <= cap
    ensures Target(up, down, cap, q, w) == w <==>
            !ScaleUpAt(up, cap, q, w) && !ScaleDownAt(down, q, w)
    ensures Target(up, down, cap, q, w) == w ==> Balanced(up, down, cap, q, w)
  {
    Product(up, w, cap);
    Product(down, w, cap);
  }

  /** Where the iteration has come to rest. */
  predicate AtRest(up: nat, down: nat, cap: nat, q: nat, w: nat) {
    Target(up, down, cap, q, w) == w && Balanced(up, down, cap, q, w)
  }

  /** One move is never followed by the opposite one. */
  lemma OneDirection(up: nat, down: nat, cap: nat, q: nat, w: nat)
    requires Fits(up, down, cap) && 2 * down <= up + 1 && w <= cap
    ensures ScaleUpAt(up, cap, q, w) ==>
              Target(up, down, cap, q, w) == w + 1 <= cap && !ScaleDownAt(down, q, w + 1)
    ensures ScaleDownAt(down, q, w) ==>
              w > 1 && Target(up, down, cap, q, w) == w - 1 && !ScaleUpAt(up, cap, q, w - 1)
    ensures !ScaleUpAt(up, cap, q, w) && !ScaleDownAt(down, q, w) ==> AtRest(up, down, cap, q, w)
  {
    FixedPoint(up, down, cap, q, w);
    NeverBoth(up, down, cap, q, w);
    NoThrash(up, down, cap);
    assert w > 0 ==> w - 1 + 1 == w;
  }

  lemma {:induction false} Climb(up: nat, down: nat, cap: nat, q: nat, w: nat) returns (n: nat)
    requires Fits(up, down, cap) && 2 * down <= up + 1 && w <= cap && !ScaleDownAt(down, q, w)
    ensures Iterate(up, down, cap, q, w, n) == w + n <= cap && AtRest(up, down, cap, q, w + n)
    decreases cap - w
  {
    OneDirection(up, down, cap, q, w);
    n := 0;
    if ScaleUpAt(up, cap, q, w) {
      var m := Climb(up, down, cap, q, w + 1);
      n := m + 1;
    }
  }

  lemma {:induction false} Descend(up: nat, down: nat, cap: nat, q: nat, w: nat) returns (n: nat)
    requires Fits(up, down, cap) && 2 * down <= up + 1 && w <= cap && !ScaleUpAt(up, cap, q, w)
    ensures n <= w && Iterate(up, down, cap, q, w, n) == w - n && AtRest(up, down, cap, q, w - n)
    decreases w
  {
    OneDirection(up, down, cap, q, w);
    n := 0;
    if ScaleDownAt(down, q, w) {
      var m := Descend(up, down, cap, q, w - 1);
      n := m + 1;
    }
  }

  /** From any admissible number of workers the iteration comes to rest in balance within `cap` passes,
      moving in one direction only. */
  lemma IterationSettles(up: nat, down: nat, cap: nat, q: nat, w: nat) returns (n: nat)
    requires Fits(up, down, cap) && 2 * down <= up + 1 && w <= cap
    ensures n <= cap && AtRest(up, down, cap, q, Iterate(up, down, cap, q, w, n))
    ensures Iterate(up, down, cap, q, w, n) == if ScaleUpAt(up, cap, q, w) then w + n else w - n
  {
    OneDirection(up, down, cap, q, w);
    if ScaleUpAt(up, cap, q, w) {
      n := Climb(up, down, cap, q, w);
    } else {
      n := Descend(up, down, cap, q, w);
    }
  }
}
