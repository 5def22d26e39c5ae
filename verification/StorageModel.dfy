/** Any number of clients running the SETNX lock protocol on one string store that holds user data
    and lock entries together. One action is one store command, or the call or return of an operation;
    a client between two operations can also call tryLock and unlock directly. */
module StorageModel {
  import opened Sequences

  datatype Op =
    | Write(key: string, value: string)
    | Update(key: string, value: string)
    | Erase(key: string)
    | Read(key: string)

  datatype Reply = Flag(ok: bool) | Text(value: string)

  /** A command answers, throws without effect, or throws although it took effect. */
  datatype Outcome = Answered | Failed | TookEffect

  datatype Pc =
    | Idle
    | Locking(op: Op)                       // about to SETNX the lock entry
    | Acting(op: Op)                        // lock held, about to SET or DEL the user key
    | Unlocking(op: Op, result: bool)       // lock held, about to DEL the lock entry
    | Reading(op: Op)                       // about to GET
    | Returning(op: Op, reply: Reply)

  /** Where a client is, how many effects there were at its call, which effect is its own, and the keys
      for which its own direct tryLock answered true and that it has not unlocked directly since. */
  datatype Client = Client(pc: Pc, began: nat, effect: Option<nat>, held: set<string>)

  /** An operation taking effect on the user data, with the reply it then deserves, and whether the
      command answered or threw after taking effect. */
  datatype Effect = Effect(client: nat, op: Op, reply: Reply, answered: bool)

  /** A finished call: the numbers of effects at its call and return bracket its own effect, if any. */
  datatype Return = Return(client: nat, op: Op, reply: Reply, began: nat, ended: nat, effect: Option<nat>)

  datatype State = State(
    initial: map<string, string>,
    store: map<string, string>,
    clients: seq<Client>,
    effects: seq<Effect>,
    finished: seq<Return>,
    acquired: nat,                          // locks taken and given back by operations
    released: nat,
    leaked: set<string>)                    // keys whose lock entry has no owner

  datatype Action =
    | Begin(c: nat, op: Op)
    | TryLock(c: nat, outcome: Outcome)
    | Act(c: nat, outcome: Outcome)
    | Unlock(c: nat, outcome: Outcome)
    | Get(c: nat, outcome: Outcome)
    | Finish(c: nat)
    | DirectLock(c: nat, key: string, outcome: Outcome)
    | DirectUnlock(c: nat, key: string, outcome: Outcome)

  function LockKey(key: string): string {
    "lock:" + key
  }

  /** `n` idle clients on a store with the given contents; entries that look like locks of user keys
      were left behind by somebody else. */
  function Init(n: nat, data: map<string, string>, keys: set<string>): State {
    State(data, data, seq(n, _ => Client(Idle, 0, None, {})), [], [], 0, 0,
          set k | k in keys && LockKey(k) in data)
  }

  predicate At(s: State, c: nat) {
    c < |s.clients|
  }

  predicate Enabled(s: State, a: Action) {
    && At(s, a.c)
    && match a
       case Begin(c, _) => s.clients[c].pc.Idle?
       case TryLock(c, _) => s.clients[c].pc.Locking?
       case Act(c, _) => s.clients[c].pc.Acting?
       case Unlock(c, _) => s.clients[c].pc.Unlocking?
       case Get(c, _) => s.clients[c].pc.Reading?
       case Finish(c) => s.clients[c].pc.Returning?
       case DirectLock(c, _, _) => s.clients[c].pc.Idle?
       case DirectUnlock(c, _, _) => s.clients[c].pc.Idle?
  }

  // ---- the user data as an atomic map ----

  /** What an operation does to the user data at the instant it takes effect. */
  function Change(m: map<string, string>, op: Op): map<string, string> {
    match op
    case Write(k, v) => m[k := v]
    case Update(k, v) => m[k := v]
    case Erase(k) => m - {k}
    case Read(_) => m
  }

  /** The reply an operation deserves if it takes effect on `m`. */
  function Deserved(m: map<string, string>, op: Op): Reply {
    match op
    case Write(_, _) => Flag(true)
    case Update(_, _) => Flag(true)
    case Erase(k) => Flag(k in m)
    case Read(k) => Text(if k in m then m[k] else "")
  }

  // ---- the steps ----

  function Move(s: State, c: nat, pc: Pc): State
    requires At(s, c)
  {
    s.(clients := s.clients[c := s.clients[c].(pc := pc)])
  }

  function Hold(s: State, c: nat, held: set<string>): State
    requires At(s, c)
  {
    s.(clients := s.clients[c := s.clients[c].(held := held)])
  }

  /** tryLock answers true. */
  predicate Acquires(s: State, key: string, outcome: Outcome) {
    outcome.Answered? && LockKey(key) !in s.store
  }

  /** SETNX of the lock entry; if it throws after taking effect nobody owns the entry. */
  function SetEntry(s: State, key: string, outcome: Outcome): State {
    if outcome.Failed? || LockKey(key) in s.store then s
    else s.(store := s.store[LockKey(key) := "locked"],
            leaked := if outcome.Answered? then s.leaked else s.leaked + {key})
  }

  /** DEL of the lock entry, by its owner or by somebody else; if the owner's fails nobody owns the entry. */
  function DeleteEntry(s: State, key: string, owner: bool, outcome: Outcome): State {
    if !outcome.Failed? then s.(store := s.store - {LockKey(key)}, leaked := s.leaked - {key})
    else if owner && LockKey(key) in s.store then s.(leaked := s.leaked + {key})
    else s
  }

  /** The operation of client `c` takes effect. */
  function TakeEffect(s: State, c: nat, op: Op, answered: bool): State
    requires At(s, c)
  {
    s.(store := Change(s.store, op),
       effects := s.effects + [Effect(c, op, Deserved(s.store, op), answered)],
       clients := s.clients[c := s.clients[c].(effect := Some(|s.effects|))])
  }

  function Apply(s: State, a: Action): State
    requires Enabled(s, a)
  {
    var c := a.c;
    var pc := s.clients[c].pc;
    match a
    case Begin(_, op) =>
      var start := if op.Read? then Reading(op) else Locking(op);
      s.(clients := s.clients[c := s.clients[c].(pc := start, began := |s.effects|, effect := None)])
    case TryLock(_, outcome) =>
      if Acquires(s, pc.op.key, outcome) then
        Move(SetEntry(s, pc.op.key, outcome), c, Acting(pc.op)).(acquired := s.acquired + 1)
      else
        Move(SetEntry(s, pc.op.key, outcome), c, Returning(pc.op, Flag(false)))
    case Act(_, outcome) =>
      (match outcome
       case Answered => Move(TakeEffect(s, c, pc.op, true), c, Unlocking(pc.op, Deserved(s.store, pc.op) == Flag(true)))
       case Failed => Move(s, c, Unlocking(pc.op, false))
       case TookEffect => Move(TakeEffect(s, c, pc.op, false), c, Unlocking(pc.op, false)))
    case Unlock(_, outcome) =>
      Move(DeleteEntry(s, pc.op.key, true, outcome), c, Returning(pc.op, Flag(pc.result))).(released := s.released + 1)
    case Get(_, outcome) =>
      if outcome.Answered? then
        Move(TakeEffect(s, c, pc.op, true), c, Returning(pc.op, Deserved(s.store, pc.op)))
      else
        Move(s, c, Returning(pc.op, Text("")))
    case Finish(_) =>
      Move(s, c, Idle).(finished := s.finished +
        [Return(c, pc.op, pc.reply, s.clients[c].began, |s.effects|, s.clients[c].effect)])
    case DirectLock(_, key, outcome) =>
      var held := s.clients[c].held + if Acquires(s, key, outcome) then {key} else {};
      Hold(SetEntry(s, key, outcome), c, held)
    case DirectUnlock(_, key, outcome) =>
      Hold(DeleteEntry(s, key, key in s.clients[c].held, outcome), c, s.clients[c].held - {key})
  }

  // ---- runs ----

  predicate Feasible(s: State, acts: seq<Action>)
    decreases acts
  {
    acts == [] || (Enabled(s, acts[0]) && Feasible(Apply(s, acts[0]), acts[1..]))
  }

  function After(s: State, acts: seq<Action>): State
    requires Feasible(s, acts)
    decreases acts
  {
    if acts == [] then s else After(Apply(s, acts[0]), acts[1..])
  }

  lemma {:induction false} Extend(s: State, acts: seq<Action>, a: Action)
    requires Feasible(s, acts) && Enabled(After(s, acts), a)
    ensures Feasible(s, acts + [a]) && After(s, acts + [a]) == Apply(After(s, acts), a)
    decreases acts
  {
    if acts == [] {
      assert (acts + [a])[1..] == [];
    } else {
      assert (acts + [a])[1..] == acts[1..] + [a];
      Extend(Apply(s, acts[0]), acts[1..], a);
    }
  }

  lemma {:induction false} Chain(s: State, acts: seq<Action>, more: seq<Action>)
    requires Feasible(s, acts) && Feasible(After(s, acts), more)
    ensures Feasible(s, acts + more) && After(s, acts + more) == After(After(s, acts), more)
    decreases acts
  {
    if acts == [] {
      assert acts + more == more;
    } else {
      assert (acts + more)[1..] == acts[1..] + more;
      Chain(Apply(s, acts[0]), acts[1..], more);
    }
  }

  /** An operation or a direct call is on one of `keys`. */
  predicate CalledOn(a: Action, keys: set<string>) {
    match a
    case Begin(_, op) => op.key in keys
    case DirectLock(_, key, _) => key in keys
    case DirectUnlock(_, key, _) => key in keys
    case _ => true
  }

  /** Every call in the run is. */
  predicate Uses(acts: seq<Action>, keys: set<string>) {
    forall i :: 0 <= i < |acts| ==> CalledOn(acts[i], keys)
  }

  /** No user key is the lock entry of another. */
  predicate LockSafe(keys: set<string>) {
    forall k, l :: k in keys && l in keys ==> k != LockKey(l)
  }
}
