/** Mutual exclusion, lock balance and lock leaks of the storage protocol. */
module StorageLocking {
  import opened Sequences
  import opened StorageModel

  /** Between a successful tryLock of an operation and its unlock. */
  predicate Inside(cl: Client) {
    cl.pc.Acting? || cl.pc.Unlocking?
  }

  /** In an operation on `key` that has the lock, or holding it by a direct call. */
  predicate InsideOn(cl: Client, key: string) {
    (Inside(cl) && cl.pc.op.key == key) || key in cl.held
  }

  /** At most one client at a time is inside, key by key. */
  ghost predicate MutualExclusion(s: State) {
    forall c, d, k :: 0 <= c < d < |s.clients| && InsideOn(s.clients[c], k) ==> !InsideOn(s.clients[d], k)
  }

  // ---- what holds in every run ----

  ghost predicate KeysInv(s: State, keys: set<string>) {
    && (forall c :: 0 <= c < |s.clients| && !s.clients[c].pc.Idle? ==> s.clients[c].pc.op.key in keys)
    && (forall c :: 0 <= c < |s.clients| && !s.clients[c].pc.Idle? && !s.clients[c].pc.Returning? ==>
          (s.clients[c].pc.Reading? <==> s.clients[c].pc.op.Read?))
    && (forall c :: 0 <= c < |s.clients| ==> s.clients[c].held <= keys)
    && s.leaked <= keys
  }

  /** The lock entry of a leaked key is there, and one that is there has leaked or belongs to somebody. */
  ghost predicate EntryInv(s: State, k: string) {
    && (k in s.leaked ==> LockKey(k) in s.store)
    && (LockKey(k) in s.store ==> k in s.leaked || exists c :: 0 <= c < |s.clients| && InsideOn(s.clients[c], k))
  }

  /** Locks taken by operations less those given back are the operations inside. */
  ghost predicate Balanced(s: State) {
    s.acquired == s.released + Count(s.clients, Inside)
  }

  ghost predicate RunInv(s: State, keys: set<string>) {
    KeysInv(s, keys) && Balanced(s) && forall k :: k in keys ==> EntryInv(s, k)
  }

  // ---- what holds while nobody unlocks a key under its owner ----

  /** Who is inside for the key has its lock entry, once and alone. */
  ghost predicate OwnerInv(s: State, k: string) {
    && (forall c :: 0 <= c < |s.clients| && InsideOn(s.clients[c], k) ==> LockKey(k) in s.store && k !in s.leaked)
    && (forall c, d :: 0 <= c < d < |s.clients| && InsideOn(s.clients[c], k) ==> !InsideOn(s.clients[d], k))
    && (forall c :: 0 <= c < |s.clients| && Inside(s.clients[c]) && s.clients[c].pc.op.key == k ==>
        k !in s.clients[c].held)
  }

  ghost predicate Inv(s: State, keys: set<string>) {
    RunInv(s, keys) && forall k :: k in keys ==> OwnerInv(s, k)
  }

  lemma InvExcludes(s: State, keys: set<string>)
    requires Inv(s, keys)
    ensures MutualExclusion(s)
  {
    forall c, k | 0 <= c < |s.clients| && InsideOn(s.clients[c], k)
      ensures k in keys
    {
    }
  }

  lemma LockKeyInjective(k: string, l: string)
    ensures LockKey(k) == LockKey(l) ==> k == l
  {
    assert LockKey(k)[5..] == k && LockKey(l)[5..] == l;
  }

  lemma InitInv(n: nat, data: map<string, string>, keys: set<string>)
    ensures Inv(Init(n, data, keys), keys)
  {
    var s := Init(n, data, keys);
    CountPositive(s.clients, Inside);
  }

  /** Only the acting client moves. */
  lemma OneMoves(s: State, a: Action)
    requires Enabled(s, a)
    ensures Apply(s, a).clients == s.clients[a.c := Apply(s, a).clients[a.c]]
  {
  }

  lemma Crossing(s: State, a: Action)
    requires Enabled(s, a)
    ensures var t := Apply(s, a);
            t.acquired - s.acquired - (t.released - s.released)
            == (if Inside(t.clients[a.c]) then 1 else 0) - (if Inside(s.clients[a.c]) then 1 else 0)
  {
  }

  lemma BalanceStep(s: State, a: Action)
    requires Enabled(s, a) && Balanced(s)
    ensures Balanced(Apply(s, a))
  {
    OneMoves(s, a);
    Crossing(s, a);
    CountUpdate(s.clients, a.c, Apply(s, a).clients[a.c], Inside);
  }

  lemma KeysStep(s: State, a: Action, keys: set<string>)
    requires Enabled(s, a) && KeysInv(s, keys) && CalledOn(a, keys)
    ensures KeysInv(Apply(s, a), keys)
  {
    OneMoves(s, a);
    MoverKeepsKey(s, a, keys);
  }

  lemma MoverKeepsKey(s: State, a: Action, keys: set<string>)
    requires Enabled(s, a) && KeysInv(s, keys) && CalledOn(a, keys)
    ensures var t, cl := Apply(s, a), Apply(s, a).clients[a.c];
            && t.leaked <= keys && cl.held <= keys
            && (!cl.pc.Idle? ==> cl.pc.op.key in keys)
            && (!cl.pc.Idle? && !cl.pc.Returning? ==> (cl.pc.Reading? <==> cl.pc.op.Read?))
  {
  }

  // ---- one key at a time ----

  /** The key whose lock entry the action is a command on. */
  function LockOf(s: State, a: Action): Option<string>
    requires Enabled(s, a)
  {
    match a
    case TryLock(c, _) => Some(s.clients[c].pc.op.key)
    case Unlock(c, _) => Some(s.clients[c].pc.op.key)
    case DirectLock(_, key, _) => Some(key)
    case DirectUnlock(_, key, _) => Some(key)
    case _ => None
  }

  /** A command on the lock of another key or on user data changes nothing about the lock of `k`. */
  lemma OtherLock(s: State, a: Action, keys: set<string>, k: string)
    requires Enabled(s, a) && KeysInv(s, keys) && LockSafe(keys) && k in keys && LockOf(s, a) != Some(k)
    ensures var t := Apply(s, a);
            && (LockKey(k) in t.store <==> LockKey(k) in s.store) && (k in t.leaked <==> k in s.leaked)
            && |t.clients| == |s.clients|
            && forall c :: 0 <= c < |s.clients| ==> (InsideOn(t.clients[c], k) <==> InsideOn(s.clients[c], k))
  {
    OneMoves(s, a);
    if LockOf(s, a).Some? {
      LockKeyInjective(LockOf(s, a).value, k);
    }
    MoverSameOn(s, a, k);
  }

  lemma MoverSameOn(s: State, a: Action, k: string)
    requires Enabled(s, a) && LockOf(s, a) != Some(k)
    ensures InsideOn(Apply(s, a).clients[a.c], k) <==> InsideOn(s.clients[a.c], k)
    ensures var cl, cl' := s.clients[a.c], Apply(s, a).clients[a.c];
            && (k in cl'.held <==> k in cl.held)
            && (Inside(cl') && cl'.pc.op.key == k <==> Inside(cl) && cl.pc.op.key == k)
  {
  }

  lemma OtherEntry(s: State, a: Action, keys: set<string>, k: string)
    requires Enabled(s, a) && KeysInv(s, keys) && LockSafe(keys) && k in keys && LockOf(s, a) != Some(k)
    requires EntryInv(s, k)
    ensures EntryInv(Apply(s, a), k)
  {
    OtherLock(s, a, keys, k);
    if LockKey(k) in s.store && k !in s.leaked {
      var c :| 0 <= c < |s.clients| && InsideOn(s.clients[c], k);
      assert InsideOn(Apply(s, a).clients[c], k);
    }
  }

  lemma OtherOwner(s: State, a: Action, keys: set<string>, k: string)
    requires Enabled(s, a) && KeysInv(s, keys) && LockSafe(keys) && k in keys && LockOf(s, a) != Some(k)
    requires OwnerInv(s, k)
    ensures OwnerInv(Apply(s, a), k)
  {
    OtherLock(s, a, keys, k);
    OneMoves(s, a);
    MoverSameOn(s, a, k);
  }

  /** A successful tryLock makes its client the owner; a client goes out only by unlocking. */
  lemma ThisEntry(s: State, a: Action, k: string)
    requires Enabled(s, a) && LockOf(s, a) == Some(k) && EntryInv(s, k)
    ensures EntryInv(Apply(s, a), k)
  {
    var t := Apply(s, a);
    OneMoves(s, a);
    if LockKey(k) in t.store && k !in t.leaked {
      if LockKey(k) in s.store {
        var c :| 0 <= c < |s.clients| && InsideOn(s.clients[c], k);
        assert InsideOn(t.clients[c], k);
      } else {
        assert InsideOn(t.clients[a.c], k);
      }
    }
  }

  /** The action deletes the lock entry of a key for which another client is inside. */
  ghost predicate Foreign(s: State, a: Action) {
    && a.DirectUnlock? && !a.outcome.Failed?
    && exists d :: 0 <= d < |s.clients| && d != a.c && InsideOn(s.clients[d], a.key)
  }

  lemma ThisOwner(s: State, a: Action, k: string)
    requires Enabled(s, a) && LockOf(s, a) == Some(k) && EntryInv(s, k) && OwnerInv(s, k) && !Foreign(s, a)
    ensures OwnerInv(Apply(s, a), k)
  {
    OneMoves(s, a);
    match a {
      case TryLock(_, _) => LockKeepsOwner(s, a, k);
      case DirectLock(_, _, _) => LockKeepsOwner(s, a, k);
      case _ => UnlockKeepsOwner(s, a, k);
    }
  }

  lemma LockKeepsOwner(s: State, a: Action, k: string)
    requires Enabled(s, a) && LockOf(s, a) == Some(k) && EntryInv(s, k) && OwnerInv(s, k)
    requires (a.TryLock? || a.DirectLock?)
    ensures OwnerInv(Apply(s, a), k)
  {
    OneMoves(s, a);
    var t := Apply(s, a);
    assert forall d :: 0 <= d < |s.clients| && d != a.c ==> t.clients[d] == s.clients[d];
    if !Acquires(s, k, a.outcome) {
      assert InsideOn(t.clients[a.c], k) <==> InsideOn(s.clients[a.c], k);
      assert forall d :: 0 <= d < |s.clients| ==> (InsideOn(t.clients[d], k) <==> InsideOn(s.clients[d], k));
    } else {
      assert forall d :: 0 <= d < |s.clients| ==> !InsideOn(s.clients[d], k);
    }
  }

  lemma UnlockKeepsOwner(s: State, a: Action, k: string)
    requires Enabled(s, a) && LockOf(s, a) == Some(k) && OwnerInv(s, k) && (a.Unlock? || a.DirectUnlock?)
    requires !Foreign(s, a)
    ensures OwnerInv(Apply(s, a), k)
  {
    OneMoves(s, a);
    var t := Apply(s, a);
    assert forall d :: 0 <= d < |s.clients| && d != a.c ==> t.clients[d] == s.clients[d];
    if a.Unlock? {
      assert InsideOn(s.clients[a.c], k);
    }
    assert !InsideOn(t.clients[a.c], k);
  }

  // ---- preservation ----

  lemma RunStep(s: State, a: Action, keys: set<string>)
    requires Enabled(s, a) && RunInv(s, keys) && LockSafe(keys) && CalledOn(a, keys)
    ensures RunInv(Apply(s, a), keys)
  {
    BalanceStep(s, a);
    KeysStep(s, a, keys);
    forall k | k in keys
      ensures EntryInv(Apply(s, a), k)
    {
      if LockOf(s, a) == Some(k) {
        ThisEntry(s, a, k);
      } else {
        OtherEntry(s, a, keys, k);
      }
    }
  }

  lemma {:induction false} RunAlong(s: State, acts: seq<Action>, keys: set<string>)
    requires Feasible(s, acts) && RunInv(s, keys) && LockSafe(keys) && Uses(acts, keys)
    ensures RunInv(After(s, acts), keys)
    decreases acts
  {
    if acts == [] {
    } else {
      RunStep(s, acts[0], keys);
      assert forall i :: 0 <= i < |acts[1..]| ==> acts[1..][i] == acts[i + 1];
      RunAlong(Apply(s, acts[0]), acts[1..], keys);
    }
  }

  lemma InvStep(s: State, a: Action, keys: set<string>)
    requires Enabled(s, a) && Inv(s, keys) && LockSafe(keys) && CalledOn(a, keys) && !Foreign(s, a)
    ensures Inv(Apply(s, a), keys)
  {
    RunStep(s, a, keys);
    forall k | k in keys
      ensures OwnerInv(Apply(s, a), k)
    {
      if LockOf(s, a) == Some(k) {
        ThisOwner(s, a, k);
      } else {
        OtherOwner(s, a, keys, k);
      }
    }
  }

  /** Nobody deletes the lock entry of a key for which another client is inside. */
  ghost predicate Courteous(s: State, acts: seq<Action>)
    requires Feasible(s, acts)
    decreases acts
  {
    acts == [] || (!Foreign(s, acts[0]) && Courteous(Apply(s, acts[0]), acts[1..]))
  }

  lemma {:induction false} InvAlong(s: State, acts: seq<Action>, keys: set<string>)
    requires Feasible(s, acts) && Inv(s, keys) && LockSafe(keys) && Uses(acts, keys) && Courteous(s, acts)
    ensures Inv(After(s, acts), keys)
    decreases acts
  {
    if acts == [] {
    } else {
      InvStep(s, acts[0], keys);
      assert forall i :: 0 <= i < |acts[1..]| ==> acts[1..][i] == acts[i + 1];
      InvAlong(Apply(s, acts[0]), acts[1..], keys);
    }
  }

  // ---- mutual exclusion, exactly ----

  ghost predicate ExclusionGuaranteed(keys: set<string>) {
    forall n: nat, data, acts ::
      Feasible(Init(n, data, keys), acts) && Uses(acts, keys) && Courteous(Init(n, data, keys), acts)
      ==> MutualExclusion(After(Init(n, data, keys), acts))
  }

  predicate NoDirectUnlock(acts: seq<Action>) {
    forall i :: 0 <= i < |acts| ==> !acts[i].DirectUnlock?
  }

  lemma {:induction false} OperationsAreCourteous(s: State, acts: seq<Action>)
    requires Feasible(s, acts) && NoDirectUnlock(acts)
    ensures Courteous(s, acts)
    decreases acts
  {
    if acts == [] {
    } else {
      assert forall i :: 0 <= i < |acts[1..]| ==> acts[1..][i] == acts[i + 1];
      OperationsAreCourteous(Apply(s, acts[0]), acts[1..]);
    }
  }

  /** `acts` leads from a fresh empty store with three clients to `t`, on the given keys only. */
  ghost predicate Leads(keys: set<string>, acts: seq<Action>, t: State) {
    Feasible(Init(3, map[], keys), acts) && Uses(acts, keys) && After(Init(3, map[], keys), acts) == t
  }

  lemma Take(keys: set<string>, acts: seq<Action>, t: State, a: Action) returns (acts': seq<Action>, t': State)
    requires Leads(keys, acts, t) && Enabled(t, a) && CalledOn(a, keys)
    ensures t' == Apply(t, a) && Leads(keys, acts', t') && acts' == acts + [a]
  {
    Extend(Init(3, map[], keys), acts, a);
    acts', t' := acts + [a], Apply(t, a);
  }

  /** Client 0 is inside for `k`, and client 1 then for the lock entry of `k`. */
  lemma TwoInside(keys: set<string>, k: string) returns (acts: seq<Action>, t: State)
    requires k in keys && LockKey(k) in keys
    ensures Leads(keys, acts, t) && NoDirectUnlock(acts) && |t.clients| == 3
    ensures t.clients[0].pc == Acting(Erase(k)) && t.clients[1].pc == Acting(Erase(LockKey(k))) && t.clients[2].pc.Idle?
  {
    acts, t := [], Init(3, map[], keys);
    acts, t := Take(keys, acts, t, Begin(0, Erase(k)));
    acts, t := Take(keys, acts, t, TryLock(0, Answered));
    acts, t := Take(keys, acts, t, Begin(1, Erase(LockKey(k))));
    LockKeyInjective(LockKey(k), k);
    assert |LockKey(k)| == |k| + 5;
    acts, t := Take(keys, acts, t, TryLock(1, Answered));
  }

  /** A client erasing the lock entry of `k` as if it were user data lets a second one in. */
  lemma Break(keys: set<string>, k: string) returns (acts: seq<Action>)
    requires k in keys && LockKey(k) in keys
    ensures Feasible(Init(3, map[], keys), acts) && Uses(acts, keys) && Courteous(Init(3, map[], keys), acts)
    ensures !MutualExclusion(After(Init(3, map[], keys), acts))
  {
    var t;
    acts, t := TwoInside(keys, k);
    acts, t := Take(keys, acts, t, Act(1, Answered));
    acts, t := Take(keys, acts, t, Begin(2, Erase(k)));
    acts, t := Take(keys, acts, t, TryLock(2, Answered));
    OperationsAreCourteous(Init(3, map[], keys), acts);
    assert InsideOn(t.clients[0], k) && InsideOn(t.clients[2], k);
  }

  /** Every run of any number of clients on these keys in which nobody unlocks a key under another client
      keeps mutual exclusion, whatever commands throw, if and only if no user key is the lock entry of
      another. */
  lemma ExclusionIffLockSafe(keys: set<string>)
    ensures ExclusionGuaranteed(keys) <==> LockSafe(keys)
  {
    if LockSafe(keys) {
      forall n: nat, data, acts |
          Feasible(Init(n, data, keys), acts) && Uses(acts, keys) && Courteous(Init(n, data, keys), acts)
        ensures MutualExclusion(After(Init(n, data, keys), acts))
      {
        InitInv(n, data, keys);
        InvAlong(Init(n, data, keys), acts, keys);
        InvExcludes(After(Init(n, data, keys), acts), keys);
      }
    } else {
      var k, l :| k in keys && l in keys && k == LockKey(l);
      var acts := Break(keys, l);
    }
  }

  /** Keys without the reserved prefix are safe. */
  lemma PrefixFreeIsSafe(keys: set<string>)
    requires forall k :: k in keys ==> !("lock:" <= k)
    ensures LockSafe(keys)
  {
  }

  /** The reserved prefix to the letter: with any key, the key that its lock entry is stored under is not. */
  lemma ReservedPrefix(k: string)
    ensures !ExclusionGuaranteed({k, "lock:" + k})
  {
    var keys := {k, "lock:" + k};
    assert k in keys && LockKey(k) in keys;
    ExclusionIffLockSafe(keys);
  }

  /** Some continuation without another unlock under a client has two clients inside for one key. */
  ghost predicate CanBreak(s: State, keys: set<string>) {
    exists more :: Feasible(s, more) && Uses(more, keys) && Courteous(s, more) && !MutualExclusion(After(s, more))
  }

  /** And the public unlock breaks it exactly so: after any such run, a direct unlock lets two clients in
      if and only if it deletes the lock entry of a key for which another client is inside. */
  lemma UnlockBreaksIffForeign(n: nat, data: map<string, string>, acts: seq<Action>, keys: set<string>, a: Action)
    requires LockSafe(keys) && Feasible(Init(n, data, keys), acts) && Uses(acts, keys)
    requires Courteous(Init(n, data, keys), acts)
    requires a.DirectUnlock? && Enabled(After(Init(n, data, keys), acts), a) && CalledOn(a, keys)
    ensures CanBreak(Apply(After(Init(n, data, keys), acts), a), keys) <==> Foreign(After(Init(n, data, keys), acts), a)
  {
    var s := After(Init(n, data, keys), acts);
    var t := Apply(s, a);
    InitInv(n, data, keys);
    InvAlong(Init(n, data, keys), acts, keys);
    if Foreign(s, a) {
      NextOneEnters(s, a);
      var more := [DirectLock(a.c, a.key, Answered)];
      assert Feasible(t, more) && Uses(more, keys) && !MutualExclusion(After(t, more));
      OperationsAreCourteous(t, more);
    } else {
      InvStep(s, a, keys);
      forall more | Feasible(t, more) && Uses(more, keys) && Courteous(t, more)
        ensures MutualExclusion(After(t, more))
      {
        InvAlong(t, more, keys);
        InvExcludes(After(t, more), keys);
      }
    }
  }

  lemma NextOneEnters(s: State, a: Action)
    requires Enabled(s, a) && Foreign(s, a)
    ensures var t, more := Apply(s, a), [DirectLock(a.c, a.key, Answered)];
            Feasible(t, more) && !MutualExclusion(After(t, more))
  {
    var t, b := Apply(s, a), DirectLock(a.c, a.key, Answered);
    var u := Apply(t, b);
    assert [b][1..] == [] && After(t, [b]) == u;
    var d :| 0 <= d < |s.clients| && d != a.c && InsideOn(s.clients[d], a.key);
    OneMoves(s, a);
    OneMoves(t, b);
    assert u.clients[d] == s.clients[d];
    assert InsideOn(u.clients[d], a.key) && InsideOn(u.clients[a.c], a.key);
  }

  /** It happens on the safest of keys: one client is inside, a second one unlocks and locks. */
  lemma ForeignUnlockRun(keys: set<string>, k: string) returns (acts: seq<Action>, t: State)
    requires k in keys
    ensures Leads(keys, acts, t) && |acts| == 4 && !MutualExclusion(t)
  {
    acts, t := [], Init(3, map[], keys);
    acts, t := Take(keys, acts, t, Begin(0, Erase(k)));
    acts, t := Take(keys, acts, t, TryLock(0, Answered));
    acts, t := Take(keys, acts, t, DirectUnlock(1, k, Answered));
    acts, t := Take(keys, acts, t, DirectLock(1, k, Answered));
    assert InsideOn(t.clients[0], k) && InsideOn(t.clients[1], k);
  }

  // ---- balance and leaks ----

  /** The command leaves a lock entry of `k` behind that has no owner: a SETNX that found no entry and
      threw although it took effect, or a DEL of the owner that failed with the entry still there. */
  predicate LeavesLock(s: State, a: Action, k: string)
    requires Enabled(s, a)
  {
    match a
    case TryLock(c, outcome) => outcome.TookEffect? && s.clients[c].pc.op.key == k && LockKey(k) !in s.store
    case DirectLock(_, key, outcome) => outcome.TookEffect? && key == k && LockKey(k) !in s.store
    case Unlock(c, outcome) => outcome.Failed? && s.clients[c].pc.op.key == k && LockKey(k) in s.store
    case DirectUnlock(c, key, outcome) => outcome.Failed? && key == k && k in s.clients[c].held && LockKey(k) in s.store
    case _ => false
  }

  /** The command deletes the lock entry of `k`. */
  predicate DeletesLock(s: State, a: Action, k: string)
    requires Enabled(s, a)
  {
    match a
    case Unlock(c, outcome) => !outcome.Failed? && s.clients[c].pc.op.key == k
    case DirectUnlock(_, key, outcome) => !outcome.Failed? && key == k
    case _ => false
  }

  predicate NeverDeleted(s: State, acts: seq<Action>, k: string)
    requires Feasible(s, acts)
    decreases acts
  {
    acts == [] || (!DeletesLock(s, acts[0], k) && NeverDeleted(Apply(s, acts[0]), acts[1..], k))
  }

  /** Some command of the run leaves the lock entry of `k` behind, and no later one deletes it. */
  predicate SomeLeak(s: State, acts: seq<Action>, k: string)
    requires Feasible(s, acts)
    decreases acts
  {
    if acts == [] then false
    else
      || (LeavesLock(s, acts[0], k) && NeverDeleted(Apply(s, acts[0]), acts[1..], k))
      || SomeLeak(Apply(s, acts[0]), acts[1..], k)
  }

  lemma LeakedStep(s: State, a: Action, k: string)
    requires Enabled(s, a)
    ensures k in Apply(s, a).leaked <==> LeavesLock(s, a, k) || (k in s.leaked && !DeletesLock(s, a, k))
  {
  }

  lemma {:induction false} LeakedIffSomeLeak(s: State, acts: seq<Action>, k: string)
    requires Feasible(s, acts)
    ensures k in After(s, acts).leaked <==> (k in s.leaked && NeverDeleted(s, acts, k)) || SomeLeak(s, acts, k)
    decreases acts
  {
    if acts == [] {
    } else {
      LeakedStep(s, acts[0], k);
      LeakedIffSomeLeak(Apply(s, acts[0]), acts[1..], k);
    }
  }

  ghost predicate Quiescent(s: State) {
    forall c :: 0 <= c < |s.clients| ==> s.clients[c].pc.Idle?
  }

  /** Some client has the lock of `k` by a direct call. */
  ghost predicate HeldDirectly(s: State, k: string) {
    exists c :: 0 <= c < |s.clients| && k in s.clients[c].held
  }

  /** In the store the run starts from, or by a command of the run, `k` was left locked, and its lock
      entry was not deleted since. */
  predicate LeftLocked(n: nat, data: map<string, string>, keys: set<string>, acts: seq<Action>, k: string)
    requires Feasible(Init(n, data, keys), acts)
  {
    (LockKey(k) in data && NeverDeleted(Init(n, data, keys), acts, k)) || SomeLeak(Init(n, data, keys), acts, k)
  }

  /** Each lock an operation takes is given back exactly once, on every branch: taken less given back is
      the number of operations inside. And with no client in a call, a key is locked if it was left
      locked, and only then or while somebody has it by a direct tryLock; unless somebody unlocked a
      key under another client, exactly then. */
  lemma LockBalance(n: nat, data: map<string, string>, acts: seq<Action>, keys: set<string>)
    requires LockSafe(keys) && Uses(acts, keys) && Feasible(Init(n, data, keys), acts)
    ensures var s := After(Init(n, data, keys), acts);
            && s.acquired == s.released + Count(s.clients, Inside)
            && (Quiescent(s) ==>
                  && s.acquired == s.released
                  && forall k :: k in keys ==>
                       && (LeftLocked(n, data, keys, acts, k) ==> LockKey(k) in s.store)
                       && (LockKey(k) in s.store ==> LeftLocked(n, data, keys, acts, k) || HeldDirectly(s, k))
                       && (Courteous(Init(n, data, keys), acts) && HeldDirectly(s, k) ==> LockKey(k) in s.store))
  {
    InitInv(n, data, keys);
    RunAlong(Init(n, data, keys), acts, keys);
    var s := After(Init(n, data, keys), acts);
    CountPositive(s.clients, Inside);
    forall k | k in keys
      ensures k in s.leaked <==> LeftLocked(n, data, keys, acts, k)
    {
      LeakedIffSomeLeak(Init(n, data, keys), acts, k);
    }
    if Courteous(Init(n, data, keys), acts) {
      InvAlong(Init(n, data, keys), acts, keys);
      HoldersHaveEntries(s, keys);
    }
    if Quiescent(s) {
      EntriesHaveHolders(s, keys);
    }
  }

  lemma HoldersHaveEntries(s: State, keys: set<string>)
    requires Inv(s, keys)
    ensures forall k :: k in keys && HeldDirectly(s, k) ==> LockKey(k) in s.store
  {
    forall k | k in keys && HeldDirectly(s, k)
      ensures LockKey(k) in s.store
    {
      var c :| 0 <= c < |s.clients| && k in s.clients[c].held;
      assert OwnerInv(s, k) && InsideOn(s.clients[c], k);
    }
  }

  lemma EntriesHaveHolders(s: State, keys: set<string>)
    requires RunInv(s, keys) && Quiescent(s)
    ensures forall k :: k in keys && LockKey(k) in s.store ==> k in s.leaked || HeldDirectly(s, k)
  {
    forall k | k in keys && LockKey(k) in s.store && k !in s.leaked
      ensures HeldDirectly(s, k)
    {
      assert EntryInv(s, k);
      var c :| 0 <= c < |s.clients| && InsideOn(s.clients[c], k);
      assert k in s.clients[c].held;
    }
  }

  /** Lock commands that do not throw. */
  predicate LocksAnswered(acts: seq<Action>) {
    forall i :: 0 <= i < |acts| && (acts[i].TryLock? || acts[i].Unlock? || acts[i].DirectLock? || acts[i].DirectUnlock?)
      ==> acts[i].outcome.Answered?
  }

  lemma {:induction false} NoLeak(s: State, acts: seq<Action>, k: string)
    requires Feasible(s, acts) && LocksAnswered(acts)
    ensures !SomeLeak(s, acts, k)
    decreases acts
  {
    if acts == [] {
    } else {
      assert forall i :: 0 <= i < |acts[1..]| ==> acts[1..][i] == acts[i + 1];
      NoLeak(Apply(s, acts[0]), acts[1..], k);
    }
  }

  /** So if lock commands do not throw, a clean store is clean again once every call has returned, but for
      the keys that somebody still has by a direct tryLock. */
  lemma QuiescentIsUnlocked(n: nat, data: map<string, string>, acts: seq<Action>, keys: set<string>)
    requires LockSafe(keys) && Uses(acts, keys) && Feasible(Init(n, data, keys), acts)
    requires LocksAnswered(acts) && forall k :: k in keys ==> LockKey(k) !in data
    requires Quiescent(After(Init(n, data, keys), acts))
    ensures var s := After(Init(n, data, keys), acts);
            forall k :: k in keys && !HeldDirectly(s, k) ==> LockKey(k) !in s.store
  {
    LockBalance(n, data, acts, keys);
    forall k | k in keys
      ensures !SomeLeak(Init(n, data, keys), acts, k)
    {
      NoLeak(Init(n, data, keys), acts, k);
    }
  }

  // ---- a leaked lock lasts until somebody unlocks the key directly ----

  /** The effect is not a change of the data under `k`. */
  predicate Harmless(e: Effect, k: string) {
    e.op.Read? || e.op.key != k
  }

  /** The key is locked and nobody is inside for it. */
  ghost predicate Ownerless(s: State, k: string) {
    LockKey(k) in s.store && forall c :: 0 <= c < |s.clients| ==> !InsideOn(s.clients[c], k)
  }

  /** Nobody who is inside in an operation on `k` gives its lock back, so only a direct call can. */
  predicate Unlocks(a: Action, k: string) {
    a.DirectUnlock? && a.key == k && !a.outcome.Failed?
  }

  lemma LeakStep(s: State, a: Action, keys: set<string>, k: string)
    requires Enabled(s, a) && KeysInv(s, keys) && LockSafe(keys) && CalledOn(a, keys) && k in keys
    requires Ownerless(s, k) && !Unlocks(a, k)
    ensures var t := Apply(s, a);
            && Ownerless(t, k)
            && (k in t.store <==> k in s.store) && (k in s.store ==> t.store[k] == s.store[k])
            && s.effects <= t.effects && forall i :: |s.effects| <= i < |t.effects| ==> Harmless(t.effects[i], k)
  {
    OneMoves(s, a);
    LeakKeepsEntry(s, a, keys, k);
    LeakKeepsData(s, a, keys, k);
  }

  lemma LeakKeepsEntry(s: State, a: Action, keys: set<string>, k: string)
    requires Enabled(s, a) && KeysInv(s, keys) && LockSafe(keys) && k in keys && Ownerless(s, k) && !Unlocks(a, k)
    ensures Ownerless(Apply(s, a), k)
  {
    if LockOf(s, a) == Some(k) {
      OneMoves(s, a);
      assert !InsideOn(s.clients[a.c], k);
      assert !InsideOn(Apply(s, a).clients[a.c], k);
    } else {
      OtherLock(s, a, keys, k);
    }
  }

  lemma LeakKeepsData(s: State, a: Action, keys: set<string>, k: string)
    requires Enabled(s, a) && KeysInv(s, keys) && LockSafe(keys) && CalledOn(a, keys) && k in keys && Ownerless(s, k)
    ensures var t := Apply(s, a);
            && (k in t.store <==> k in s.store) && (k in s.store ==> t.store[k] == s.store[k])
            && s.effects <= t.effects && forall i :: |s.effects| <= i < |t.effects| ==> Harmless(t.effects[i], k)
  {
    if LockOf(s, a).Some? {
      assert LockOf(s, a).value in keys && k != LockKey(LockOf(s, a).value);
    } else if a.Act? {
      assert !InsideOn(s.clients[a.c], k);
    }
  }

  /** In every run, once the lock of `k` has no owner and until somebody unlocks `k` directly, no operation
      of any client changes `k`. */
  lemma {:induction false} LeakedForever(s: State, acts: seq<Action>, keys: set<string>, k: string)
    requires Feasible(s, acts) && KeysInv(s, keys) && LockSafe(keys) && Uses(acts, keys) && k in keys
    requires Ownerless(s, k) && forall i :: 0 <= i < |acts| ==> !Unlocks(acts[i], k)
    ensures var t := After(s, acts);
            && Ownerless(t, k)
            && (k in t.store <==> k in s.store) && (k in s.store ==> t.store[k] == s.store[k])
            && s.effects <= t.effects && forall i :: |s.effects| <= i < |t.effects| ==> Harmless(t.effects[i], k)
    decreases acts
  {
    if acts == [] {
    } else {
      LeakStep(s, acts[0], keys, k);
      KeysStep(s, acts[0], keys);
      assert forall i :: 0 <= i < |acts[1..]| ==> acts[1..][i] == acts[i + 1];
      LeakedForever(Apply(s, acts[0]), acts[1..], keys, k);
    }
  }

  /** A leaked lock is one without an owner. */
  lemma LeakedIsOwnerless(s: State, keys: set<string>, k: string)
    requires Inv(s, keys) && k in s.leaked
    ensures Ownerless(s, k)
  {
    assert k in keys && EntryInv(s, k) && OwnerInv(s, k);
  }

  /** A SETNX that throws after taking effect. */
  lemma LockAndThrow(keys: set<string>, k: string) returns (acts: seq<Action>, t: State)
    requires k in keys
    ensures |acts| == 3 && Leads(keys, acts, t)
    ensures Quiescent(t) && t.acquired == 0 && Ownerless(t, k) && k !in t.store
  {
    acts, t := [], Init(3, map[], keys);
    acts, t := Take(keys, acts, t, Begin(0, Erase(k)));
    acts, t := Take(keys, acts, t, TryLock(0, TookEffect));
    assert LockKey(k) != k by { assert |LockKey(k)| == |k| + 5; }
    acts, t := Take(keys, acts, t, Finish(0));
  }

  /** So a lock leaks in three steps: call, a SETNX that throws after taking effect, return. The store is
      then quiescent and until a direct unlock of the key no run of any clients ever sets it. */
  lemma ThreeStepLeak(keys: set<string>, k: string) returns (acts: seq<Action>, t: State)
    requires LockSafe(keys) && k in keys
    ensures |acts| == 3 && Leads(keys, acts, t)
    ensures Quiescent(t) && t.acquired == 0 && LockKey(k) in t.store
    ensures forall more ::
              Feasible(t, more) && Uses(more, keys) && (forall i :: 0 <= i < |more| ==> !Unlocks(more[i], k))
              ==> k !in After(t, more).store
  {
    acts, t := LockAndThrow(keys, k);
    InitInv(3, map[], keys);
    RunAlong(Init(3, map[], keys), acts, keys);
    forall more | Feasible(t, more) && Uses(more, keys) && forall i :: 0 <= i < |more| ==> !Unlocks(more[i], k)
      ensures k !in After(t, more).store
    {
      LeakedForever(t, more, keys, k);
    }
  }
}
