/** StateManager on top of the storage protocol: objects are encoded to strings, and the empty string
    stands for an absent key. */
module StateManagerModel {
  import opened Sequences
  import opened StorageModel
  import opened StorageLocking
  import opened StorageLinear

  datatype ReadResult<V> = NotFound | ParseError | Value(v: V)

  /** What StateManager::read makes of the string the storage returns. */
  function Interpret<V>(text: string, decode: string -> Option<V>): ReadResult<V> {
    if text == "" then NotFound
    else match decode(text)
         case None => ParseError
         case Some(v) => Value(v)
  }

  ghost predicate Codec<V(!new)>(encode: V -> string, decode: string -> Option<V>) {
    forall v: V :: encode(v) != "" && decode(encode(v)) == Some(v)
  }

  /** The operation stores only encodings. */
  ghost predicate Encoded<V(!new)>(op: Op, encode: V -> string) {
    op.Write? || op.Update? ==> exists v: V :: op.value == encode(v)
  }

  ghost predicate OnlyEncoded<V(!new)>(acts: seq<Action>, encode: V -> string) {
    forall i :: 0 <= i < |acts| && acts[i].Begin? ==> Encoded(acts[i].op, encode)
  }

  ghost predicate EncodedInv<V(!new)>(s: State, encode: V -> string) {
    && (forall c :: 0 <= c < |s.clients| && !s.clients[c].pc.Idle? ==> Encoded(s.clients[c].pc.op, encode))
    && (forall i :: 0 <= i < |s.effects| ==> Encoded(s.effects[i].op, encode))
  }

  lemma EncodedStep<V(!new)>(s: State, a: Action, encode: V -> string)
    requires Enabled(s, a) && EncodedInv(s, encode) && (a.Begin? ==> Encoded(a.op, encode))
    ensures EncodedInv(Apply(s, a), encode)
  {
    var t := Apply(s, a);
    OneMoves(s, a);
    if t.effects != s.effects {
      AppendsEffect(s, a);
    }
    assert !a.Begin? && !t.clients[a.c].pc.Idle? ==> t.clients[a.c].pc.op == s.clients[a.c].pc.op;
  }

  lemma {:induction false} EncodedAlong<V(!new)>(s: State, acts: seq<Action>, encode: V -> string)
    requires Feasible(s, acts) && EncodedInv(s, encode) && OnlyEncoded(acts, encode)
    ensures EncodedInv(After(s, acts), encode)
    decreases acts
  {
    if acts == [] {
    } else {
      EncodedStep(s, acts[0], encode);
      assert forall i :: 0 <= i < |acts[1..]| ==> acts[1..][i] == acts[i + 1];
      EncodedAlong(Apply(s, acts[0]), acts[1..], encode);
    }
  }

  lemma {:induction false} LastWrittenEncoded<V(!new)>(initial: map<string, string>, effects: seq<Effect>,
                                                       key: string, encode: V -> string)
    requires key in initial ==> exists v: V :: initial[key] == encode(v)
    requires forall i :: 0 <= i < |effects| ==> Encoded(effects[i].op, encode)
    ensures LastWritten(initial, effects, key).Some? ==>
              exists v: V :: LastWritten(initial, effects, key).value == encode(v)
  {
    if effects == [] {
    } else {
      var rest := effects[..|effects| - 1];
      assert forall i :: 0 <= i < |rest| ==> rest[i] == effects[i];
      assert Encoded(effects[|effects| - 1].op, encode);
      LastWrittenEncoded(initial, rest, key, encode);
    }
  }

  /** The sentinel, for any stored strings: a read that reached the store reports "Key not found"
      exactly when at its instant the key was absent or held the empty string; a read whose GET threw
      reports it always. */
  lemma SentinelExact<V(!new)>(n: nat, data: map<string, string>, acts: seq<Action>, keys: set<string>,
                               decode: string -> Option<V>, j: nat)
    requires LockSafe(keys) && Uses(acts, keys) && Feasible(Init(n, data, keys), acts)
    requires var s := After(Init(n, data, keys), acts); j < |s.finished| && s.finished[j].op.Read?
    ensures var s := After(Init(n, data, keys), acts);
            var r := s.finished[j];
            && r.reply.Text?
            && (r.effect.None? ==> Interpret(r.reply.value, decode) == NotFound)
            && (r.effect.Some? ==>
                  && r.began <= r.effect.value < r.ended <= |s.effects|
                  && var last := LastWritten(View(data, keys), s.effects[..r.effect.value], r.op.key);
                     (Interpret(r.reply.value, decode) == NotFound <==> last == None || last == Some(""))
                     && r.reply.value == if last.Some? then last.value else "")
  {
    Linearizable(n, data, acts, keys);
    var s := After(Init(n, data, keys), acts);
    var r := s.finished[j];
    if r.effect.Some? {
      LastWrittenIsLookup(View(data, keys), s.effects[..r.effect.value], r.op.key);
    }
  }

  /** Round trip: if only encodings are stored, a read without a storage error reports "Key not found"
      exactly when the key is absent, and otherwise returns the value of the last effective write. */
  lemma RoundTrip<V(!new)>(n: nat, data: map<string, string>, acts: seq<Action>, keys: set<string>,
                           encode: V -> string, decode: string -> Option<V>, j: nat)
    requires LockSafe(keys) && Uses(acts, keys) && Feasible(Init(n, data, keys), acts)
    requires Codec(encode, decode) && OnlyEncoded(acts, encode)
    requires forall k :: k in keys && k in data ==> exists v: V :: data[k] == encode(v)
    requires var s := After(Init(n, data, keys), acts);
             j < |s.finished| && s.finished[j].op.Read? && s.finished[j].effect.Some?
    ensures var s := After(Init(n, data, keys), acts);
            var r := s.finished[j];
            && r.reply.Text? && r.effect.value < |s.effects|
            && var last := LastWritten(View(data, keys), s.effects[..r.effect.value], r.op.key);
               match last
               case None => Interpret(r.reply.value, decode) == NotFound
               case Some(text) => exists v: V :: text == encode(v) && Interpret(r.reply.value, decode) == Value(v)
  {
    SentinelExact(n, data, acts, keys, decode, j);
    Linearizable(n, data, acts, keys);
    EncodedAlong(Init(n, data, keys), acts, encode);
    var s := After(Init(n, data, keys), acts);
    var r := s.finished[j];
    var before := s.effects[..r.effect.value];
    assert forall i :: 0 <= i < |before| ==> before[i] == s.effects[i];
    LastWrittenEncoded(View(data, keys), before, r.op.key, encode);
  }
}
