/** The storage operations as methods that change the shared store in place, with the other clients'
    commands falling between any two of their own. Each is proved to extend a run of the protocol. */
module RedisStorageObject {
  import opened Sequences
  import opened StorageModel
  import opened StorageLocking
  import opened StorageLinear

  /** The commands of client `c`, in order. */
  function IsOf(c: nat): Action -> bool {
    (a: Action) => a.c == c
  }

  function Own(c: nat, acts: seq<Action>): seq<Action> {
    Filter(acts, IsOf(c))
  }

  lemma OwnExtend(c: nat, before: seq<Action>, run: seq<Action>, a: Action)
    requires before <= run
    ensures Own(c, (run + [a])[|before|..]) == Own(c, run[|before|..]) + (if a.c == c then [a] else [])
  {
    assert (run + [a])[|before|..] == run[|before|..] + [a];
    FilterAppend(run[|before|..], a, IsOf(c));
  }

  /** The commands of a mutating call, with or without the lock. */
  function Script(c: nat, op: Op, outcomes: nat -> Outcome, entered: bool): seq<Action> {
    if entered then
      [Begin(c, op), TryLock(c, outcomes(0)), Act(c, outcomes(1)), Unlock(c, outcomes(2)), Finish(c)]
    else
      [Begin(c, op), TryLock(c, outcomes(0)), Finish(c)]
  }

  class RedisStorage {
    // the server
    var store: map<string, string>
    // the calls in progress, and histories
    var clients: seq<Client>
    var effects: seq<Effect>
    var finished: seq<Return>
    var acquired: nat
    var released: nat
    var leaked: set<string>
    const n: nat
    const data: map<string, string>
    const keys: set<string>
    ghost var trace: seq<Action>

    function Model(): State
      reads this
    {
      State(data, store, clients, effects, finished, acquired, released, leaked)
    }

    ghost predicate Valid()
      reads this
    {
      && LockSafe(keys) && Uses(trace, keys)
      && Feasible(Init(n, data, keys), trace) && After(Init(n, data, keys), trace) == Model()
    }

    ghost method Record(before: State, a: Action)
      requires LockSafe(keys) && Uses(trace, keys)
      requires Feasible(Init(n, data, keys), trace) && After(Init(n, data, keys), trace) == before
      requires Enabled(before, a) && Model() == Apply(before, a) && CalledOn(a, keys)
      modifies this`trace
      ensures Valid() && trace == old(trace) + [a]
    {
      Extend(Init(n, data, keys), trace, a);
      trace := trace + [a];
    }

    constructor (n: nat, data: map<string, string>, keys: set<string>)
      requires LockSafe(keys)
      ensures Valid() && trace == [] && Model() == Init(n, data, keys)
      ensures this.n == n && this.data == data && this.keys == keys
    {
      this.n, this.data, this.keys := n, data, keys;
      store := data;
      clients := seq(n, _ => Client(Idle, 0, None, {}));
      effects, finished, acquired, released := [], [], 0, 0;
      leaked := set k | k in keys && LockKey(k) in data;
      trace := [];
    }

    // ---- single commands ----

    method Call(c: nat, op: Op)
      requires Valid() && c < |clients| && clients[c].pc.Idle? && op.key in keys
      modifies this
      ensures Valid() && trace == old(trace) + [Begin(c, op)] && |clients| == |old(clients)|
      ensures clients[c].pc == if op.Read? then Reading(op) else Locking(op)
    {
      ghost var before := Model();
      clients := clients[c := Client(if op.Read? then Reading(op) else Locking(op), |effects|, None, clients[c].held)];
      Record(before, Begin(c, op));
    }

    /** SETNX of the lock entry; an exception counts as not acquired. */
    method SetNx(key: string, outcome: Outcome) returns (acquiredLock: bool)
      modifies this`store, this`leaked
      ensures acquiredLock <==> outcome.Answered? && LockKey(key) !in old(store)
      ensures Model() == SetEntry(old(Model()), key, outcome)
    {
      var lock := LockKey(key);
      var set_ := lock !in store && !outcome.Failed?;
      if set_ {
        store := store[lock := "locked"];
        if !outcome.Answered? {
          leaked := leaked + {key};
        }
      }
      acquiredLock := set_ && outcome.Answered?;
    }

    /** DEL of the lock entry; an exception is logged and swallowed. */
    method Del(key: string, owner: bool, outcome: Outcome)
      modifies this`store, this`leaked
      ensures Model() == DeleteEntry(old(Model()), key, owner, outcome)
    {
      if !outcome.Failed? {
        store, leaked := store - {LockKey(key)}, leaked - {key};
      } else if owner && LockKey(key) in store {
        leaked := leaked + {key};
      }
    }

    /** The lock of an operation. */
    method TryLock(c: nat, outcome: Outcome) returns (acquiredLock: bool)
      requires Valid() && c < |clients| && clients[c].pc.Locking?
      modifies this
      ensures Valid() && trace == old(trace) + [StorageModel.TryLock(c, outcome)] && |clients| == |old(clients)|
      ensures var op := old(clients)[c].pc.op;
              && (acquiredLock <==> outcome.Answered? && "lock:" + op.key !in old(store))
              && clients[c].pc == if acquiredLock then Acting(op) else Returning(op, Flag(false))
    {
      ghost var before := Model();
      var op := clients[c].pc.op;
      acquiredLock := SetNx(op.key, outcome);
      if acquiredLock {
        acquired := acquired + 1;
        clients := clients[c := clients[c].(pc := Acting(op))];
      } else {
        clients := clients[c := clients[c].(pc := Returning(op, Flag(false)))];
      }
      Record(before, StorageModel.TryLock(c, outcome));
    }

    /** A direct call of tryLock between two operations: a client whose call answers true is inside. */
    method LockDirectly(c: nat, key: string, outcome: Outcome) returns (acquiredLock: bool)
      requires Valid() && c < |clients| && clients[c].pc.Idle? && key in keys
      modifies this
      ensures Valid() && trace == old(trace) + [DirectLock(c, key, outcome)] && |clients| == |old(clients)|
      ensures acquiredLock <==> outcome.Answered? && "lock:" + key !in old(store)
      ensures acquiredLock ==> "lock:" + key in store && InsideOn(clients[c], key)
    {
      ghost var before := Model();
      acquiredLock := SetNx(key, outcome);
      clients := clients[c := clients[c].(held := clients[c].held + if acquiredLock then {key} else {})];
      Record(before, DirectLock(c, key, outcome));
    }

    /** A direct call of unlock: deletes the entry whoever put it there. */
    method UnlockDirectly(c: nat, key: string, outcome: Outcome)
      requires Valid() && c < |clients| && clients[c].pc.Idle? && key in keys
      modifies this
      ensures Valid() && trace == old(trace) + [DirectUnlock(c, key, outcome)] && |clients| == |old(clients)|
      ensures store == if outcome.Failed? then old(store) else old(store) - {"lock:" + key}
      ensures !InsideOn(clients[c], key) && forall d :: 0 <= d < |clients| && d != c ==> clients[d] == old(clients)[d]
    {
      ghost var before := Model();
      Del(key, key in clients[c].held, outcome);
      clients := clients[c := clients[c].(held := clients[c].held - {key})];
      Record(before, DirectUnlock(c, key, outcome));
    }

    /** SET or DEL of the user key; `result` is what the operation will return. */
    method Mutate(c: nat, outcome: Outcome) returns (result: bool)
      requires Valid() && c < |clients| && clients[c].pc.Acting? && !clients[c].pc.op.Read?
      modifies this
      ensures Valid() && trace == old(trace) + [Act(c, outcome)] && |clients| == |old(clients)|
      ensures clients[c].pc == Unlocking(old(clients)[c].pc.op, result)
      ensures var op := old(clients)[c].pc.op;
              result <==> outcome.Answered? && (op.Erase? ==> op.key in old(store))
    {
      ghost var before := Model();
      var op := clients[c].pc.op;
      result := false;
      if !outcome.Failed? {
        var deserved := Deserved(store, op);
        clients := clients[c := clients[c].(effect := Some(|effects|))];
        effects := effects + [Effect(c, op, deserved, outcome.Answered?)];
        match op {
          case Write(key, value) => store := store[key := value];
          case Update(key, value) => store := store[key := value];
          case Erase(key) => store := store - {key};
          case Read(_) =>
        }
        result := outcome.Answered? && deserved == Flag(true);
      }
      clients := clients[c := clients[c].(pc := Unlocking(op, result))];
      Record(before, Act(c, outcome));
    }

    /** The unlock of an operation. */
    method Unlock(c: nat, outcome: Outcome)
      requires Valid() && c < |clients| && clients[c].pc.Unlocking?
      modifies this
      ensures Valid() && trace == old(trace) + [StorageModel.Unlock(c, outcome)] && |clients| == |old(clients)|
      ensures clients[c].pc == Returning(old(clients)[c].pc.op, Flag(old(clients)[c].pc.result))
    {
      ghost var before := Model();
      var op, result := clients[c].pc.op, clients[c].pc.result;
      Del(op.key, true, outcome);
      released := released + 1;
      clients := clients[c := clients[c].(pc := Returning(op, Flag(result)))];
      Record(before, StorageModel.Unlock(c, outcome));
    }

    method Get(c: nat, outcome: Outcome) returns (value: string)
      requires Valid() && c < |clients| && clients[c].pc.Reading? && clients[c].pc.op.Read?
      modifies this
      ensures Valid() && trace == old(trace) + [StorageModel.Get(c, outcome)] && |clients| == |old(clients)|
      ensures clients[c].pc == Returning(old(clients)[c].pc.op, Text(value))
      ensures var key := old(clients)[c].pc.op.key;
              value == if outcome.Answered? && key in old(store) then old(store)[key] else ""
    {
      ghost var before := Model();
      var op := clients[c].pc.op;
      value := "";
      if outcome.Answered? {
        value := if op.key in store then store[op.key] else "";
        clients := clients[c := clients[c].(effect := Some(|effects|))];
        effects := effects + [Effect(c, op, Text(value), true)];
      }
      clients := clients[c := clients[c].(pc := Returning(op, Text(value)))];
      Record(before, StorageModel.Get(c, outcome));
    }

    method Leave(c: nat)
      requires Valid() && c < |clients| && clients[c].pc.Returning?
      modifies this
      ensures Valid() && trace == old(trace) + [Finish(c)] && |clients| == |old(clients)| && clients[c].pc.Idle?
      ensures |finished| == |old(finished)| + 1 && finished[|old(finished)|].client == c
      ensures finished[|old(finished)|].op == old(clients)[c].pc.op
      ensures finished[|old(finished)|].reply == old(clients)[c].pc.reply
    {
      ghost var before := Model();
      var cl := clients[c];
      finished := finished + [Return(c, cl.pc.op, cl.pc.reply, cl.began, |effects|, cl.effect)];
      clients := clients[c := cl.(pc := Idle)];
      Record(before, Finish(c));
    }

    // ---- the other clients ----

    method Perform(a: Action)
      requires Valid() && Enabled(Model(), a) && CalledOn(a, keys)
      modifies this
      ensures Valid() && trace == old(trace) + [a] && Model() == Apply(old(Model()), a)
    {
      Extend(Init(n, data, keys), trace, a);
      InitInv(n, data, keys);
      RunAlong(Init(n, data, keys), trace, keys);
      match a {
        case Begin(c, op) => Call(c, op);
        case TryLock(c, outcome) => var _ := TryLock(c, outcome);
        case Act(c, outcome) => var _ := Mutate(c, outcome);
        case Unlock(c, outcome) => Unlock(c, outcome);
        case Get(c, outcome) => var _ := Get(c, outcome);
        case Finish(c) => Leave(c);
        case DirectLock(c, key, outcome) => var _ := LockDirectly(c, key, outcome);
        case DirectUnlock(c, key, outcome) => UnlockDirectly(c, key, outcome);
      }
    }

    /** The run since `before` extends it by commands of which `mine` are those of client `c`. */
    ghost predicate Since(before: seq<Action>, c: nat, mine: seq<Action>)
      reads this
    {
      Valid() && before <= trace && Own(c, trace[|before|..]) == mine
    }

    lemma Mine(before: seq<Action>, run: seq<Action>, c: nat, mine: seq<Action>, a: Action)
      requires Valid() && before <= run && trace == run + [a] && a.c == c && Own(c, run[|before|..]) == mine
      ensures Since(before, c, mine + [a])
    {
      OwnExtend(c, before, run, a);
    }

    method Interfere(c: nat, others: seq<Action>, ghost before: seq<Action>, ghost mine: seq<Action>)
      requires Since(before, c, mine) && c < |clients|
      modifies this
      ensures Since(before, c, mine)
      ensures |clients| == |old(clients)| && clients[c] == old(clients)[c]
    {
      for i := 0 to |others|
        invariant Since(before, c, mine)
        invariant |clients| == |old(clients)| && clients[c] == old(clients)[c]
      {
        var a := others[i];
        if a.c != c && Enabled(Model(), a) && CalledOn(a, keys) {
          ghost var s, run := Model(), trace;
          Perform(a);
          OneMoves(s, a);
          OwnExtend(c, before, run, a);
        }
      }
    }

    // ---- the operations ----

    /** The return of a call. */
    method GoBack(c: nat, others: seq<Action>, ghost before: seq<Action>, ghost mine: seq<Action>)
      returns (ghost mine': seq<Action>)
      requires Since(before, c, mine) && c < |clients| && clients[c].pc.Returning?
      modifies this
      ensures Since(before, c, mine') && c < |clients| && clients[c].pc.Idle? && mine' == mine + [Finish(c)]
      ensures |finished| > 0
      ensures var r, pc := finished[|finished| - 1], old(clients)[c].pc;
              r.client == c && r.op == pc.op && r.reply == pc.reply
    {
      Interfere(c, others, before, mine);
      ghost var run := trace;
      Leave(c);
      Mine(before, run, c, mine, Finish(c));
      mine' := mine + [Finish(c)];
    }

    /** write, update and erase: lock, mutate, unlock, each of which may throw. */
    method Change(c: nat, op: Op, outcomes: nat -> Outcome, env: nat -> seq<Action>)
      returns (ok: bool, ghost mine: seq<Action>)
      requires Valid() && c < |clients| && clients[c].pc.Idle? && op.key in keys && !op.Read?
      modifies this
      ensures Since(old(trace), c, mine) && c < |clients| && clients[c].pc.Idle?
      ensures |finished| > 0
      ensures var r := finished[|finished| - 1]; r.client == c && r.op == op && r.reply == Flag(ok)
      // one attempt at the lock and, only if it was acquired, one mutation and then exactly one unlock
      ensures mine == Script(c, op, outcomes, |mine| == 5)
      // true exactly after an answered mutation under the lock, of an existing key if it is an erase
      ensures !op.Erase? ==> (ok <==> |mine| == 5 && outcomes(1).Answered?)
      ensures ok ==> |mine| == 5 && outcomes(1).Answered?
      ensures var r := finished[|finished| - 1];
              && (r.effect.Some? ==> r.effect.value < |effects|)
              && (ok <==>
                    && r.effect.Some? && effects[r.effect.value].answered
                    && (op.Erase? ==> LastWritten(View(data, keys), effects[..r.effect.value], op.key).Some?))
    {
      ok, mine := ChangeUnderLock(c, op, outcomes, env);
      MutationReplies(n, data, trace, keys, |finished| - 1);
    }

    method ChangeUnderLock(c: nat, op: Op, outcomes: nat -> Outcome, env: nat -> seq<Action>)
      returns (ok: bool, ghost mine: seq<Action>)
      requires Valid() && c < |clients| && clients[c].pc.Idle? && op.key in keys && !op.Read?
      modifies this
      ensures Since(old(trace), c, mine) && c < |clients| && clients[c].pc.Idle?
      ensures |finished| > 0
      ensures var r := finished[|finished| - 1]; r.client == c && r.op == op && r.reply == Flag(ok)
      ensures mine == Script(c, op, outcomes, |mine| == 5)
      ensures !op.Erase? ==> (ok <==> |mine| == 5 && outcomes(1).Answered?)
      ensures ok ==> |mine| == 5 && outcomes(1).Answered?
    {
      ghost var before := trace;
      ok, mine := Acquire(c, op, outcomes(0), env(0));
      ghost var entered := ok;
      if ok {
        ok, mine := Protected(c, op, outcomes, env, before, mine);
      }
      mine := GoBack(c, env(3), before, mine);
      assert mine == Script(c, op, outcomes, entered);
    }

    /** The call and its attempt at the lock. */
    method Acquire(c: nat, op: Op, outcome: Outcome, others: seq<Action>) returns (ok: bool, ghost mine: seq<Action>)
      requires Valid() && c < |clients| && clients[c].pc.Idle? && op.key in keys && !op.Read?
      modifies this
      ensures Since(old(trace), c, mine) && c < |clients|
      ensures clients[c].pc == if ok then Acting(op) else Returning(op, Flag(false))
      ensures mine == [Begin(c, op), StorageModel.TryLock(c, outcome)]
    {
      ghost var before, run := trace, trace;
      Call(c, op);
      Mine(before, run, c, [], Begin(c, op));
      mine := [] + [Begin(c, op)];
      Interfere(c, others, before, mine);
      run := trace;
      ok := TryLock(c, outcome);
      Mine(before, run, c, mine, StorageModel.TryLock(c, outcome));
      mine := mine + [StorageModel.TryLock(c, outcome)];
    }

    /** The mutation under the lock, and the unlock that follows it on every branch. */
    method Protected(c: nat, op: Op, outcomes: nat -> Outcome, env: nat -> seq<Action>,
                     ghost before: seq<Action>, ghost mine: seq<Action>)
      returns (ok: bool, ghost mine': seq<Action>)
      requires Since(before, c, mine) && c < |clients| && clients[c].pc == Acting(op) && !op.Read?
      modifies this
      ensures Since(before, c, mine') && c < |clients| && clients[c].pc == Returning(op, Flag(ok))
      ensures mine' == mine + [Act(c, outcomes(1)), StorageModel.Unlock(c, outcomes(2))]
      ensures if op.Erase? then ok ==> outcomes(1).Answered? else ok <==> outcomes(1).Answered?
    {
      Interfere(c, env(1), before, mine);
      ghost var run := trace;
      ok := Mutate(c, outcomes(1));
      Mine(before, run, c, mine, Act(c, outcomes(1)));
      mine' := mine + [Act(c, outcomes(1))];
      Interfere(c, env(2), before, mine');
      run := trace;
      Unlock(c, outcomes(2));
      Mine(before, run, c, mine', StorageModel.Unlock(c, outcomes(2)));
      mine' := mine' + [StorageModel.Unlock(c, outcomes(2))];
    }

    method ReadKey(c: nat, key: string, outcome: Outcome, env: nat -> seq<Action>)
      returns (value: string, ghost mine: seq<Action>)
      requires Valid() && c < |clients| && clients[c].pc.Idle? && key in keys
      modifies this
      ensures Since(old(trace), c, mine) && c < |clients| && clients[c].pc.Idle?
      ensures |finished| > 0
      ensures var r := finished[|finished| - 1]; r.client == c && r.op == Read(key) && r.reply == Text(value)
      ensures mine == [Begin(c, Read(key)), StorageModel.Get(c, outcome), Finish(c)]
    {
      ghost var before, run := trace, trace;
      Call(c, Read(key));
      Mine(before, run, c, [], Begin(c, Read(key)));
      mine := [] + [Begin(c, Read(key))];

      Interfere(c, env(0), before, mine);
      run := trace;
      value := Get(c, outcome);
      Mine(before, run, c, mine, StorageModel.Get(c, outcome));
      mine := mine + [StorageModel.Get(c, outcome)];

      mine := GoBack(c, env(1), before, mine);
    }

    /** isLocked: EXISTS of the lock entry, false on an exception. It answers true only while some client
        is inside for the key or its lock has leaked, and always when it has leaked; and unless somebody
        unlocked a key under another client, always while some client is inside. */
    method IsLocked(key: string, threw: bool) returns (locked: bool)
      requires Valid() && key in keys
      ensures threw ==> !locked
      ensures locked ==> key in leaked || exists c :: 0 <= c < |clients| && InsideOn(clients[c], key)
      ensures !threw && key in leaked ==> locked
      ensures !threw && Courteous(Init(n, data, keys), trace) ==>
                (locked <==> key in leaked || exists c :: 0 <= c < |clients| && InsideOn(clients[c], key))
    {
      locked := !threw && LockKey(key) in store;
      InitInv(n, data, keys);
      RunAlong(Init(n, data, keys), trace, keys);
      assert EntryInv(Model(), key);
      if Courteous(Init(n, data, keys), trace) {
        InvAlong(Init(n, data, keys), trace, keys);
        assert OwnerInv(Model(), key);
      }
    }
  }
}
