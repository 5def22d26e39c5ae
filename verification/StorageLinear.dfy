/** The store refines an atomic map: every call takes effect at most once, at its one SET, DEL or GET,
    between its call and its return, and replies accordingly. */
module StorageLinear {
  import opened Sequences
  import opened StorageModel
  import opened StorageLocking

  /** The user data: what the store holds under the user keys. */
  function View(store: map<string, string>, keys: set<string>): map<string, string> {
    map k | k in keys && k in store :: store[k]
  }

  /** The atomic map after the given effects. */
  function Replay(m: map<string, string>, effects: seq<Effect>): map<string, string> {
    if effects == [] then m
    else Change(Replay(m, effects[..|effects| - 1]), effects[|effects| - 1].op)
  }

  lemma ReplayAppend(m: map<string, string>, effects: seq<Effect>, e: Effect)
    ensures Replay(m, effects + [e]) == Change(Replay(m, effects), e.op)
  {
    assert (effects + [e])[..|effects|] == effects;
  }

  /** The last value written under `key` in a history of effects, unless it was erased since. */
  function LastWritten(initial: map<string, string>, effects: seq<Effect>, key: string): Option<string> {
    if effects == [] then
      if key in initial then Some(initial[key]) else None
    else
      var rest, op := effects[..|effects| - 1], effects[|effects| - 1].op;
      if op.key != key || op.Read? then LastWritten(initial, rest, key)
      else if op.Erase? then None
      else Some(op.value)
  }

  /** Looking a key up in the atomic map is finding the last write that was not erased since. */
  lemma {:induction false} LastWrittenIsLookup(initial: map<string, string>, effects: seq<Effect>, key: string)
    ensures LastWritten(initial, effects, key)
            == if key in Replay(initial, effects) then Some(Replay(initial, effects)[key]) else None
  {
    if effects == [] {
    } else {
      LastWrittenIsLookup(initial, effects[..|effects| - 1], key);
    }
  }

  /** What an operation replies, from the last write of its key. */
  function ReplyAfter(last: Option<string>, op: Op): Reply {
    match op
    case Read(_) => Text(if last.Some? then last.value else "")
    case Erase(_) => Flag(last.Some?)
    case _ => Flag(true)
  }

  /** A call replies so: it had no effect and reports failure, or it had the effect and reports what
      that deserves, or failure if the mutating command threw after it. */
  predicate Justified(op: Op, reply: Reply, effect: Option<nat>, effects: seq<Effect>) {
    match effect
    case None => reply == if op.Read? then Text("") else Flag(false)
    case Some(i) =>
      i < |effects| && if effects[i].answered then reply == effects[i].reply else !op.Read? && reply == Flag(false)
  }

  /** Effect `i` is that of a call of `op` by client `c`. */
  predicate EffectOf(effects: seq<Effect>, effect: Option<nat>, c: nat, op: Op, began: nat, ended: nat) {
    effect.Some? ==>
      && began <= effect.value < ended <= |effects|
      && effects[effect.value].client == c && effects[effect.value].op == op
  }

  /** The effects are on these keys and by these clients, and each has the reply it deserves. */
  predicate Deserving(m: map<string, string>, effects: seq<Effect>, keys: set<string>, clients: nat) {
    forall i :: 0 <= i < |effects| ==>
      && effects[i].op.key in keys && effects[i].client < clients
      && effects[i].reply == Deserved(Replay(m, effects[..i]), effects[i].op)
  }

  lemma DeservingAppend(m: map<string, string>, effects: seq<Effect>, e: Effect, keys: set<string>, clients: nat)
    requires Deserving(m, effects, keys, clients)
    requires e.op.key in keys && e.client < clients && e.reply == Deserved(Replay(m, effects), e.op)
    ensures Deserving(m, effects + [e], keys, clients)
  {
    assert (effects + [e])[..|effects|] == effects;
    assert forall i :: 0 <= i < |effects| ==> (effects + [e])[..i] == effects[..i];
  }

  ghost predicate EffectsInv(s: State, keys: set<string>) {
    && View(s.store, keys) == Replay(View(s.initial, keys), s.effects)
    && Deserving(View(s.initial, keys), s.effects, keys, |s.clients|)
  }

  /** A call in progress. */
  ghost predicate CallInv(s: State, c: nat)
    requires c < |s.clients|
  {
    var cl := s.clients[c];
    && cl.began <= |s.effects|
    && (!cl.pc.Idle? ==> EffectOf(s.effects, cl.effect, c, cl.pc.op, cl.began, |s.effects|))
    && (cl.pc.Locking? || cl.pc.Acting? || cl.pc.Reading? ==> cl.effect.None?)
    && (cl.pc.Unlocking? ==> Justified(cl.pc.op, Flag(cl.pc.result), cl.effect, s.effects))
    && (cl.pc.Returning? ==> Justified(cl.pc.op, cl.pc.reply, cl.effect, s.effects))
  }

  /** A finished call, and the calls its client makes later. */
  ghost predicate ReturnInv(s: State, r: Return) {
    && r.client < |s.clients|
    && r.began <= r.ended <= |s.effects|
    && EffectOf(s.effects, r.effect, r.client, r.op, r.began, r.ended)
    && Justified(r.op, r.reply, r.effect, s.effects)
    && (!s.clients[r.client].pc.Idle? ==> r.ended <= s.clients[r.client].began)
  }

  ghost predicate CallsInv(s: State) {
    && (forall c :: 0 <= c < |s.clients| ==> CallInv(s, c))
    && (forall j :: 0 <= j < |s.finished| ==> ReturnInv(s, s.finished[j]))
    && (forall j, k :: 0 <= j < k < |s.finished| && s.finished[j].client == s.finished[k].client ==>
          s.finished[j].ended <= s.finished[k].began)
  }

  /** Effect `i` belongs to a call in progress or to a finished one. */
  ghost predicate Owned(s: State, i: nat)
    requires i < |s.effects|
  {
    var c := s.effects[i].client;
    || (c < |s.clients| && !s.clients[c].pc.Idle? && s.clients[c].effect == Some(i))
    || exists j :: 0 <= j < |s.finished| && s.finished[j].client == c && s.finished[j].effect == Some(i)
  }

  ghost predicate OwnedInv(s: State) {
    forall i :: 0 <= i < |s.effects| ==> Owned(s, i)
  }

  // ---- preservation ----

  /** Changing a user key commutes with looking at the user data only. */
  lemma ViewChange(store: map<string, string>, keys: set<string>, op: Op)
    requires op.key in keys
    ensures View(Change(store, op), keys) == Change(View(store, keys), op)
    ensures Deserved(store, op) == Deserved(View(store, keys), op)
  {
  }

  lemma EffectsStep(s: State, a: Action, keys: set<string>)
    requires Enabled(s, a) && KeysInv(s, keys) && LockSafe(keys) && CalledOn(a, keys) && EffectsInv(s, keys)
    ensures EffectsInv(Apply(s, a), keys)
  {
    var t := Apply(s, a);
    OneMoves(s, a);
    if t.effects != s.effects {
      var op := s.clients[a.c].pc.op;
      AppendsEffect(s, a);
      ViewChange(s.store, keys, op);
      var e := Effect(a.c, op, Deserved(s.store, op), a.outcome.Answered?);
      ReplayAppend(View(s.initial, keys), s.effects, e);
      DeservingAppend(View(s.initial, keys), s.effects, e, keys, |s.clients|);
    } else {
      NoEffectSameView(s, a, keys);
    }
  }

  lemma AppendsEffect(s: State, a: Action)
    requires Enabled(s, a) && Apply(s, a).effects != s.effects
    ensures var t := Apply(s, a);
            var op := s.clients[a.c].pc.op;
            && (a.Act? || a.Get?)
            && t.effects == s.effects + [Effect(a.c, op, Deserved(s.store, op), a.outcome.Answered?)]
            && t.store == Change(s.store, op) && t.initial == s.initial && t.finished == s.finished
  {
  }

  lemma NoEffectSameView(s: State, a: Action, keys: set<string>)
    requires Enabled(s, a) && KeysInv(s, keys) && LockSafe(keys) && CalledOn(a, keys)
    requires Apply(s, a).effects == s.effects
    ensures View(Apply(s, a).store, keys) == View(s.store, keys) && Apply(s, a).initial == s.initial
  {
    var t := Apply(s, a);
    if LockOf(s, a).Some? {
      var key := LockOf(s, a).value;
      assert key in keys && LockKey(key) !in keys;
    } else {
      assert t.store == s.store;
    }
  }

  lemma CallStep(s: State, a: Action, keys: set<string>)
    requires Enabled(s, a) && KeysInv(s, keys) && CallInv(s, a.c)
    ensures CallInv(Apply(s, a), a.c)
  {
    if LockOf(s, a).Some? {
      LockCallStep(s, a, keys);
    } else {
      DataCallStep(s, a, keys);
    }
  }

  lemma LockCallStep(s: State, a: Action, keys: set<string>)
    requires Enabled(s, a) && LockOf(s, a).Some? && KeysInv(s, keys) && CallInv(s, a.c)
    ensures CallInv(Apply(s, a), a.c)
  {
    assert Apply(s, a).effects == s.effects;
  }

  lemma DataCallStep(s: State, a: Action, keys: set<string>)
    requires Enabled(s, a) && LockOf(s, a).None? && KeysInv(s, keys) && CallInv(s, a.c)
    ensures CallInv(Apply(s, a), a.c)
  {
  }

  lemma EffectsGrow(s: State, a: Action)
    requires Enabled(s, a)
    ensures s.effects <= Apply(s, a).effects
  {
  }

  lemma OtherCallStep(s: State, a: Action, c: nat)
    requires Enabled(s, a) && c < |s.clients| && c != a.c && CallInv(s, c)
    ensures c < |Apply(s, a).clients| && CallInv(Apply(s, a), c)
  {
    OneMoves(s, a);
    EffectsGrow(s, a);
  }

  /** The record a returning call leaves. */
  lemma FinishAppends(s: State, a: Action)
    requires Enabled(s, a)
    ensures var t := Apply(s, a);
            var cl := s.clients[a.c];
            if a.Finish? then
              && t.finished == s.finished + [Return(a.c, cl.pc.op, cl.pc.reply, cl.began, |s.effects|, cl.effect)]
              && t.effects == s.effects && t.clients[a.c].pc.Idle?
            else
              && t.finished == s.finished
              && (!a.Begin? ==> t.clients[a.c].began == cl.began && (cl.pc.Idle? ==> t.clients[a.c].pc.Idle?))
              && (a.Begin? ==> t.clients[a.c].began == |s.effects|)
  {
  }

  lemma ReturnStep(s: State, a: Action, r: Return)
    requires Enabled(s, a) && ReturnInv(s, r)
    ensures ReturnInv(Apply(s, a), r)
  {
    OneMoves(s, a);
    EffectsGrow(s, a);
    FinishAppends(s, a);
  }

  lemma CallsStep(s: State, a: Action, keys: set<string>)
    requires Enabled(s, a) && KeysInv(s, keys) && CallsInv(s)
    ensures CallsInv(Apply(s, a))
  {
    var t := Apply(s, a);
    OneMoves(s, a);
    forall c | 0 <= c < |t.clients|
      ensures CallInv(t, c)
    {
      if c == a.c {
        CallStep(s, a, keys);
      } else {
        OtherCallStep(s, a, c);
      }
    }
    FinishAppends(s, a);
    forall j | 0 <= j < |s.finished|
      ensures ReturnInv(t, s.finished[j])
    {
      ReturnStep(s, a, s.finished[j]);
    }
    if a.Finish? {
      FinishedIsFine(s, a);
    }
  }

  lemma FinishedIsFine(s: State, a: Action)
    requires Enabled(s, a) && CallsInv(s) && a.Finish?
    ensures var t := Apply(s, a);
            var r := t.finished[|t.finished| - 1];
            && |t.finished| == |s.finished| + 1 && ReturnInv(t, r)
            && forall j :: 0 <= j < |s.finished| && s.finished[j].client == r.client ==> s.finished[j].ended <= r.began
  {
    assert CallInv(s, a.c);
    forall j | 0 <= j < |s.finished| && s.finished[j].client == a.c
      ensures s.finished[j].ended <= s.clients[a.c].began
    {
      assert ReturnInv(s, s.finished[j]);
    }
  }

  lemma OwnedStep(s: State, a: Action, keys: set<string>)
    requires Enabled(s, a) && CallsInv(s) && OwnedInv(s)
    ensures OwnedInv(Apply(s, a))
  {
    var t := Apply(s, a);
    OneMoves(s, a);
    EffectsGrow(s, a);
    FinishAppends(s, a);
    assert CallInv(s, a.c);
    forall i | 0 <= i < |t.effects|
      ensures Owned(t, i)
    {
      if i < |s.effects| {
        assert Owned(s, i) && t.effects[i] == s.effects[i];
        KeepsOwner(s, a, i);
      } else {
        AppendsEffect(s, a);
        NewOwner(s, a);
      }
    }
  }

  lemma NewOwner(s: State, a: Action)
    requires Enabled(s, a) && Apply(s, a).effects != s.effects
    ensures var t := Apply(s, a);
            |t.effects| == |s.effects| + 1 && t.effects[|s.effects|].client == a.c
            && !t.clients[a.c].pc.Idle? && t.clients[a.c].effect == Some(|s.effects|)
  {
  }

  lemma KeepsOwner(s: State, a: Action, i: nat)
    requires Enabled(s, a) && CallInv(s, a.c) && i < |s.effects| && Owned(s, i)
    ensures i < |Apply(s, a).effects| && Owned(Apply(s, a), i)
  {
    var t := Apply(s, a);
    var c := s.effects[i].client;
    EffectsGrow(s, a);
    OneMoves(s, a);
    FinishAppends(s, a);
    if j :| 0 <= j < |s.finished| && s.finished[j].client == c && s.finished[j].effect == Some(i) {
      assert t.finished[j] == s.finished[j];
    } else if c == a.c {
      if a.Finish? {
        assert t.finished[|s.finished|].effect == Some(i);
      } else {
        assert t.clients[c].effect == Some(i) && !t.clients[c].pc.Idle?;
      }
    }
  }

  ghost predicate LinearInv(s: State, keys: set<string>) {
    EffectsInv(s, keys) && CallsInv(s) && OwnedInv(s)
  }

  lemma {:induction false} LinearAlong(s: State, acts: seq<Action>, keys: set<string>)
    requires Feasible(s, acts) && LockSafe(keys) && Uses(acts, keys) && KeysInv(s, keys) && LinearInv(s, keys)
    ensures LinearInv(After(s, acts), keys) && After(s, acts).initial == s.initial
    decreases acts
  {
    if acts == [] {
    } else {
      EffectsStep(s, acts[0], keys);
      CallsStep(s, acts[0], keys);
      OwnedStep(s, acts[0], keys);
      KeysStep(s, acts[0], keys);
      assert forall i :: 0 <= i < |acts[1..]| ==> acts[1..][i] == acts[i + 1];
      SameInitial(s, acts[0]);
      LinearAlong(Apply(s, acts[0]), acts[1..], keys);
    }
  }

  lemma SameInitial(s: State, a: Action)
    requires Enabled(s, a)
    ensures Apply(s, a).initial == s.initial
  {
  }

  // ---- the refinement theorem ----

  /** The effects, in their order, are a sequential run of the atomic map from the initial user data,
      and lead to the user data the store holds now. */
  ghost predicate SequentialRun(s: State, keys: set<string>) {
    && View(s.store, keys) == Replay(View(s.initial, keys), s.effects)
    && forall i :: 0 <= i < |s.effects| ==>
         s.effects[i].reply == Deserved(Replay(View(s.initial, keys), s.effects[..i]), s.effects[i].op)
  }

  /** The finished calls are explained by that run: each by an effect of its own that lies between its
      call and its return, or by none if it reports failure. */
  ghost predicate Explained(s: State) {
    && (forall j :: 0 <= j < |s.finished| ==>
          && Justified(s.finished[j].op, s.finished[j].reply, s.finished[j].effect, s.effects)
          && EffectOf(s.effects, s.finished[j].effect, s.finished[j].client, s.finished[j].op,
                      s.finished[j].began, s.finished[j].ended))
    && (forall j, k :: 0 <= j < k < |s.finished| && s.finished[j].effect.Some? ==>
          s.finished[j].effect != s.finished[k].effect)
    && (forall i :: 0 <= i < |s.effects| ==> Owned(s, i))
  }

  /** Each effect replies by the last effect that wrote or erased its key. */
  ghost predicate RepliesByHistory(m: map<string, string>, effects: seq<Effect>) {
    forall i :: 0 <= i < |effects| ==>
      effects[i].reply == ReplyAfter(LastWritten(m, effects[..i], effects[i].op.key), effects[i].op)
  }

  /** Refinement of the atomic map, for every interleaving of any number of clients and whatever throws. */
  lemma Linearizable(n: nat, data: map<string, string>, acts: seq<Action>, keys: set<string>)
    requires LockSafe(keys) && Uses(acts, keys) && Feasible(Init(n, data, keys), acts)
    ensures var s := After(Init(n, data, keys), acts);
            && s.initial == data && SequentialRun(s, keys) && Explained(s)
            && RepliesByHistory(View(data, keys), s.effects)
  {
    StorageLocking.InitInv(n, data, keys);
    var s0 := Init(n, data, keys);
    LinearAlong(s0, acts, keys);
    var s := After(s0, acts);
    forall i | 0 <= i < |s.effects|
      ensures s.effects[i].reply
              == ReplyAfter(LastWritten(View(data, keys), s.effects[..i], s.effects[i].op.key), s.effects[i].op)
    {
      LastWrittenIsLookup(View(data, keys), s.effects[..i], s.effects[i].op.key);
    }
    forall j, k | 0 <= j < k < |s.finished| && s.finished[j].effect.Some?
      ensures s.finished[j].effect != s.finished[k].effect
    {
      assert ReturnInv(s, s.finished[j]) && ReturnInv(s, s.finished[k]);
    }
    forall j | 0 <= j < |s.finished|
      ensures Justified(s.finished[j].op, s.finished[j].reply, s.finished[j].effect, s.effects)
      ensures EffectOf(s.effects, s.finished[j].effect, s.finished[j].client, s.finished[j].op,
                       s.finished[j].began, s.finished[j].ended)
    {
      assert ReturnInv(s, s.finished[j]);
    }
  }

  /** What finished calls of write, update and erase have answered: true exactly if they had an effect whose
      command answered and, for erase, the key was there, that is, written and not erased since. */
  lemma MutationReplies(n: nat, data: map<string, string>, acts: seq<Action>, keys: set<string>, j: nat)
    requires LockSafe(keys) && Uses(acts, keys) && Feasible(Init(n, data, keys), acts)
    requires j < |After(Init(n, data, keys), acts).finished| && !After(Init(n, data, keys), acts).finished[j].op.Read?
    ensures var s := After(Init(n, data, keys), acts);
            var r := s.finished[j];
            && r.reply.Flag?
            && (r.effect.Some? ==> r.effect.value < |s.effects|)
            && (r.reply.ok <==>
                  && r.effect.Some? && s.effects[r.effect.value].answered
                  && (r.op.Erase? ==> LastWritten(View(data, keys), s.effects[..r.effect.value], r.op.key).Some?))
  {
    Linearizable(n, data, acts, keys);
    var s := After(Init(n, data, keys), acts);
    var r := s.finished[j];
    if r.effect.Some? {
      var e := s.effects[r.effect.value];
      assert e.op == r.op;
      assert e.reply == ReplyAfter(LastWritten(View(data, keys), s.effects[..r.effect.value], e.op.key), e.op);
    }
  }

  /** The calls of client `c` but the first `finished` ones were made after `effects` effects. */
  ghost predicate CallsAfter(s: State, c: nat, effects: nat, finished: nat) {
    && c < |s.clients| && effects <= |s.effects| && finished <= |s.finished|
    && (!s.clients[c].pc.Idle? ==> effects <= s.clients[c].began)
    && forall k :: finished <= k < |s.finished| && s.finished[k].client == c ==> effects <= s.finished[k].began
  }

  lemma {:induction false} CallsAfterAlong(s: State, acts: seq<Action>, c: nat, effects: nat, finished: nat)
    requires Feasible(s, acts) && CallsAfter(s, c, effects, finished)
    ensures CallsAfter(After(s, acts), c, effects, finished) && s.finished <= After(s, acts).finished
    decreases acts
  {
    if acts == [] {
    } else {
      OneMoves(s, acts[0]);
      EffectsGrow(s, acts[0]);
      FinishAppends(s, acts[0]);
      CallsAfterAlong(Apply(s, acts[0]), acts[1..], c, effects, finished);
    }
  }

  /** If a call has returned before another one is made, its effect comes first: cut any run where call
      `j` has returned and the client of call `k`, which returns later, is between two calls. */
  lemma RealTimeOrder(n: nat, data: map<string, string>, first: seq<Action>, second: seq<Action>, keys: set<string>,
                      j: nat, k: nat)
    requires LockSafe(keys) && Uses(first, keys) && Uses(second, keys)
    requires Feasible(Init(n, data, keys), first) && Feasible(After(Init(n, data, keys), first), second)
    requires var s := After(Init(n, data, keys), first);
             var t := After(s, second);
             && j < |s.finished| <= k < |t.finished|
             && t.finished[k].client < |s.clients| && s.clients[t.finished[k].client].pc.Idle?
             && s.finished[j].effect.Some? && t.finished[k].effect.Some?
    ensures var s := After(Init(n, data, keys), first);
            var t := After(s, second);
            t.finished[j] == s.finished[j] && t.finished[j].effect.value < t.finished[k].effect.value
  {
    var s0 := Init(n, data, keys);
    var s := After(s0, first);
    var t := After(s, second);
    StorageLocking.InitInv(n, data, keys);
    RunAlong(s0, first, keys);
    LinearAlong(s0, first, keys);
    LinearAlong(s, second, keys);
    CallsAfterAlong(s, second, t.finished[k].client, |s.effects|, |s.finished|);
    assert ReturnInv(s, s.finished[j]) && ReturnInv(t, t.finished[k]);
  }

  /** A step with no effect, a refused or failed command included, leaves the user data alone; a step
      with an effect makes exactly the change of its operation. */
  lemma StepRefines(s: State, a: Action, keys: set<string>)
    requires Enabled(s, a) && KeysInv(s, keys) && LockSafe(keys) && CalledOn(a, keys)
    ensures |Apply(s, a).effects| > |s.effects| <==>
            (a.Act? && !a.outcome.Failed?) || (a.Get? && a.outcome.Answered?)
    ensures var t := Apply(s, a);
            if |t.effects| == |s.effects| then View(t.store, keys) == View(s.store, keys)
            else View(t.store, keys) == Change(View(s.store, keys), t.effects[|s.effects|].op)
  {
    var t := Apply(s, a);
    EffectsGrow(s, a);
    if |t.effects| == |s.effects| {
      assert t.effects == s.effects;
      NoEffectSameView(s, a, keys);
    } else {
      AppendsEffect(s, a);
      ViewChange(s.store, keys, s.clients[a.c].pc.op);
    }
  }

  // ---- a call that meets nobody ----

  /** The commands of one mutating call, all of them answered. */
  function SoloCall(c: nat, op: Op, entered: bool): seq<Action> {
    if entered then
      [Begin(c, op), TryLock(c, Answered), Act(c, Answered), Unlock(c, Answered), Finish(c)]
    else
      [Begin(c, op), TryLock(c, Answered), Finish(c)]
  }

  /** Nobody is inside for the key and its lock has not leaked. */
  ghost predicate Available(s: State, k: string) {
    k !in s.leaked && forall c :: 0 <= c < |s.clients| ==> !InsideOn(s.clients[c], k)
  }

  predicate Unlocked(s: State, k: string) {
    LockKey(k) !in s.store
  }

  /** Unless somebody unlocked a key under another client, that is when the lock entry is absent. */
  lemma AvailableIffUnlocked(s: State, keys: set<string>, k: string)
    requires StorageLocking.Inv(s, keys) && k in keys
    ensures Available(s, k) <==> Unlocked(s, k)
  {
    assert EntryInv(s, k) && OwnerInv(s, k);
  }

  /** From any state, a mutating call that runs alone and whose commands answer succeeds if and only if its
      key is not locked: then it replies as the atomic map would, makes the change, and leaves the key
      unlocked; else it is refused and changes nothing. */
  lemma SoloIffUnlocked(s: State, keys: set<string>, c: nat, op: Op)
    requires LockSafe(keys) && c < |s.clients| && s.clients[c].pc.Idle? && op.key in keys && !op.Read?
    ensures var acts := SoloCall(c, op, Unlocked(s, op.key));
            && Feasible(s, acts)
            && var t := After(s, acts);
               && |t.finished| == |s.finished| + 1
               && t.finished[|s.finished|].client == c && t.finished[|s.finished|].op == op
               && if Unlocked(s, op.key) then
                    && View(t.store, keys) == Change(View(s.store, keys), op)
                    && t.finished[|s.finished|].reply == Flag(op.Erase? ==> op.key in s.store)
                    && LockKey(op.key) !in t.store
                  else
                    t.store == s.store && t.finished[|s.finished|].reply == Flag(false)
  {
    if Unlocked(s, op.key) {
      SoloEntered(s, keys, c, op);
    } else {
      SoloRefused(s, c, op);
    }
  }

  /** And where nobody unlocked a key under another client, if and only if its key is available. */
  lemma SoloChange(s: State, keys: set<string>, c: nat, op: Op)
    requires StorageLocking.Inv(s, keys) && LockSafe(keys)
    requires c < |s.clients| && s.clients[c].pc.Idle? && op.key in keys && !op.Read?
    ensures var acts := SoloCall(c, op, Available(s, op.key));
            && Feasible(s, acts)
            && var t := After(s, acts);
               && |t.finished| == |s.finished| + 1
               && t.finished[|s.finished|].client == c && t.finished[|s.finished|].op == op
               && if Available(s, op.key) then
                    && View(t.store, keys) == Change(View(s.store, keys), op)
                    && t.finished[|s.finished|].reply == Flag(op.Erase? ==> op.key in s.store)
                    && LockKey(op.key) !in t.store
                  else
                    t.store == s.store && t.finished[|s.finished|].reply == Flag(false)
  {
    AvailableIffUnlocked(s, keys, op.key);
    SoloIffUnlocked(s, keys, c, op);
  }

  /** A direct unlock ends a leak: whatever key is locked, after one the same client's next operation on
      the key goes through. */
  lemma UnlockEndsLeak(s: State, keys: set<string>, c: nat, op: Op, outcome: Outcome)
    requires LockSafe(keys) && c < |s.clients| && s.clients[c].pc.Idle? && op.key in keys && !op.Read?
    requires !outcome.Failed?
    ensures var acts := [DirectUnlock(c, op.key, outcome)] + SoloCall(c, op, true);
            && Feasible(s, acts)
            && var t := After(s, acts);
               && View(t.store, keys) == Change(View(s.store, keys), op)
               && |t.finished| == |s.finished| + 1
               && t.finished[|s.finished|].op == op
               && t.finished[|s.finished|].reply == Flag(op.Erase? ==> op.key in s.store)
  {
    var a := DirectUnlock(c, op.key, outcome);
    var t := Apply(s, a);
    assert View(t.store, keys) == View(s.store, keys);
    SoloEntered(t, keys, c, op);
    assert ([a] + SoloCall(c, op, true))[1..] == SoloCall(c, op, true);
  }

  lemma SoloRefused(s: State, c: nat, op: Op)
    requires c < |s.clients| && s.clients[c].pc.Idle? && !op.Read? && LockKey(op.key) in s.store
    ensures Feasible(s, SoloCall(c, op, false))
    ensures var t := After(s, SoloCall(c, op, false));
            && t.store == s.store && |t.finished| == |s.finished| + 1
            && t.finished[|s.finished|].client == c && t.finished[|s.finished|].op == op
            && t.finished[|s.finished|].reply == Flag(false)
  {
    var s1 := Apply(s, Begin(c, op));
    var s2 := Apply(s1, TryLock(c, Answered));
    Extend(s, [], Begin(c, op));
    Extend(s, [] + [Begin(c, op)], TryLock(c, Answered));
    Extend(s, [] + [Begin(c, op)] + [TryLock(c, Answered)], Finish(c));
    assert [] + [Begin(c, op)] + [TryLock(c, Answered)] + [Finish(c)] == SoloCall(c, op, false);
  }

  /** Where a solo call stands after its lock and after its mutation. */
  lemma SoloLocked(s: State, c: nat, op: Op)
    requires c < |s.clients| && s.clients[c].pc.Idle? && !op.Read? && LockKey(op.key) !in s.store
    ensures Feasible(s, [Begin(c, op), TryLock(c, Answered)])
    ensures var t := After(s, [Begin(c, op), TryLock(c, Answered)]);
            && |t.clients| == |s.clients| && t.clients[c].pc == Acting(op)
            && t.store == s.store[LockKey(op.key) := "locked"] && t.finished == s.finished
  {
    Extend(s, [], Begin(c, op));
    Extend(s, [] + [Begin(c, op)], TryLock(c, Answered));
    assert [] + [Begin(c, op)] + [TryLock(c, Answered)] == [Begin(c, op), TryLock(c, Answered)];
  }

  /** And from there to its return. */
  lemma SoloRest(s: State, keys: set<string>, c: nat, op: Op)
    requires LockSafe(keys) && op.key in keys && !op.Read?
    requires c < |s.clients| && s.clients[c].pc == Acting(op)
    ensures Feasible(s, [Act(c, Answered), Unlock(c, Answered), Finish(c)])
    ensures var t := After(s, [Act(c, Answered), Unlock(c, Answered), Finish(c)]);
            && View(t.store, keys) == Change(View(s.store, keys), op)
            && LockKey(op.key) !in t.store && |t.finished| == |s.finished| + 1
            && t.finished[|s.finished|].client == c && t.finished[|s.finished|].op == op
            && t.finished[|s.finished|].reply == Deserved(View(s.store, keys), op)
  {
    var s1 := Apply(s, Act(c, Answered));
    var s2 := Apply(s1, Unlock(c, Answered));
    Extend(s, [], Act(c, Answered));
    Extend(s, [] + [Act(c, Answered)], Unlock(c, Answered));
    Extend(s, [] + [Act(c, Answered)] + [Unlock(c, Answered)], Finish(c));
    assert [] + [Act(c, Answered)] + [Unlock(c, Answered)] + [Finish(c)]
        == [Act(c, Answered), Unlock(c, Answered), Finish(c)];
    ViewChange(s.store, keys, op);
    assert View(s2.store, keys) == View(s1.store, keys);
    assert Deserved(View(s.store, keys), op).Flag?;
  }

  lemma SoloEntered(s: State, keys: set<string>, c: nat, op: Op)
    requires LockSafe(keys) && op.key in keys
    requires c < |s.clients| && s.clients[c].pc.Idle? && !op.Read? && LockKey(op.key) !in s.store
    ensures Feasible(s, SoloCall(c, op, true))
    ensures var t := After(s, SoloCall(c, op, true));
            && View(t.store, keys) == Change(View(s.store, keys), op)
            && LockKey(op.key) !in t.store && |t.finished| == |s.finished| + 1
            && t.finished[|s.finished|].client == c && t.finished[|s.finished|].op == op
            && t.finished[|s.finished|].reply == Deserved(View(s.store, keys), op)
  {
    SoloLocked(s, c, op);
    var first, rest := [Begin(c, op), TryLock(c, Answered)], [Act(c, Answered), Unlock(c, Answered), Finish(c)];
    var t := After(s, first);
    assert View(t.store, keys) == View(s.store, keys);
    SoloRest(t, keys, c, op);
    Chain(s, first, rest);
    assert first + rest == SoloCall(c, op, true);
  }
}
