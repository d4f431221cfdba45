/** Canonical serial execution and exact observed access
    (doc/protocol/04-finality-execution-and-epochs.md, sections 4 and 5.1). */
module Execution {
  import opened Wrappers

  type Key = nat
  type Value = int
  type State = map<Key, Value>

  datatype Write = Put(value: Value) | Delete

  /** All a run of one transaction observes and produces: the keys it read, its write set, the system
      resources it used and its receipt. */
  datatype Outcome = Outcome(readKeys: set<Key>, writeSet: map<Key, Write>, systemKeys: set<Key>, receipt: int)

  datatype Tx = Tx(sender: nat, scope: set<Key>, run: State -> Outcome)

  function Lookup(s: State, k: Key): Option<Value> {
    if k in s then Some(s[k]) else None
  }

  function Effect(w: Write): Option<Value> {
    match w
    case Put(v) => Some(v)
    case Delete => None
  }

  ghost predicate AgreeOn(keys: set<Key>, s: State, t: State) {
    forall k | k in keys :: Lookup(s, k) == Lookup(t, k)
  }

  /** The deterministic VM: the outcome is a function of the values of the keys that were read. */
  ghost predicate Deterministic(tx: Tx) {
    forall s: State, t: State :: AgreeOn(tx.run(s).readKeys, s, t) ==> tx.run(t) == tx.run(s)
  }

  function Apply(s: State, writes: map<Key, Write>): (r: State)
    ensures forall k :: Lookup(r, k) == if k in writes then Effect(writes[k]) else Lookup(s, k)
  {
    map k | k in s.Keys + writes.Keys && !(k in writes && writes[k].Delete?)
      :: if k in writes then writes[k].value else s[k]
  }

  /** The state after the first i transactions, run one by one in index order. */
  function SerialState(txs: seq<Tx>, parent: State, i: nat): State
    requires i <= |txs|
    decreases i, 0
  {
    if i == 0 then parent
    else Apply(SerialState(txs, parent, i - 1), SerialOutcome(txs, parent, i - 1).writeSet)
  }

  function SerialOutcome(txs: seq<Tx>, parent: State, i: nat): Outcome
    requires i < |txs|
    decreases i, 1
  {
    txs[i].run(SerialState(txs, parent, i))
  }

  function SerialReceipts(txs: seq<Tx>, parent: State, i: nat): seq<int>
    requires i <= |txs|
  {
    seq(i, j requires 0 <= j < i => SerialOutcome(txs, parent, j).receipt)
  }

  /** The exact access of a transaction: what its canonical execution actually touches. */
  datatype Access = Access(readKeys: set<Key>, writeKeys: set<Key>, systemKeys: set<Key>, sender: nat)

  function ExactAccess(txs: seq<Tx>, parent: State): (acc: seq<Access>)
    ensures |acc| == |txs|
    ensures forall j | 0 <= j < |txs| ::
      var o := SerialOutcome(txs, parent, j);
      acc[j] == Access(o.readKeys, o.writeSet.Keys, o.systemKeys, txs[j].sender)
  {
    seq(|txs|, j requires 0 <= j < |txs| =>
      var o := SerialOutcome(txs, parent, j);
      Access(o.readKeys, o.writeSet.Keys, o.systemKeys, txs[j].sender))
  }

  // ---------------------------------------------------------------- who wrote a key last

  /** w is the last of the transactions in `done` that write k. */
  predicate IsLastWriter(acc: seq<Access>, k: Key, done: set<nat>, w: nat) {
    w in done && w < |acc| && k in acc[w].writeKeys
    && forall v | v in done && v < |acc| && k in acc[v].writeKeys :: v <= w
  }

  predicate NoWriter(acc: seq<Access>, k: Key, done: set<nat>) {
    forall v | v in done && v < |acc| :: k !in acc[v].writeKeys
  }

  lemma {:induction false} LastWriterExists(acc: seq<Access>, k: Key, done: set<nat>)
    ensures NoWriter(acc, k, done) || exists w :: IsLastWriter(acc, k, done, w)
  {
    if done != {} {
      var d :| d in done;
      LastWriterExists(acc, k, done - {d});
      assert forall v | v in done :: v == d || v in done - {d};
      if NoWriter(acc, k, done - {d}) {
        if !NoWriter(acc, k, done) {
          assert IsLastWriter(acc, k, done, d);
        }
      } else {
        var w :| IsLastWriter(acc, k, done - {d}, w);
        assert IsLastWriter(acc, k, done, if d < |acc| && k in acc[d].writeKeys && d > w then d else w);
      }
    }
  }

  /** s holds, key by key, what the last serial writer among `done` left there. */
  ghost predicate HoldsEffectsOf(txs: seq<Tx>, parent: State, done: set<nat>, s: State) {
    var acc := ExactAccess(txs, parent);
    forall k: Key ::
      && (NoWriter(acc, k, done) ==> Lookup(s, k) == Lookup(parent, k))
      && (forall w | IsLastWriter(acc, k, done, w) ::
           Lookup(s, k) == Effect(SerialOutcome(txs, parent, w).writeSet[k]))
  }

  ghost function FirstIndices(i: nat): (r: set<nat>)
    ensures forall j: nat :: j in r <==> j < i
  {
    if i == 0 then {} else FirstIndices(i - 1) + {i - 1}
  }

  /** States with the same effects are the same state. */
  lemma EffectsDetermineState(txs: seq<Tx>, parent: State, done: set<nat>, s: State, t: State)
    requires HoldsEffectsOf(txs, parent, done, s) && HoldsEffectsOf(txs, parent, done, t)
    ensures s == t
  {
    forall k: Key
      ensures Lookup(s, k) == Lookup(t, k)
    {
      LastWriterExists(ExactAccess(txs, parent), k, done);
    }
    assert forall k: Key :: k in s <==> Lookup(s, k).Some?;
    assert forall k: Key :: k in t <==> Lookup(t, k).Some?;
    assert forall k | k in s :: s[k] == Lookup(s, k).value;
  }

  /** Applying a transaction that is the last writer of its keys extends the set of effects. */
  lemma ApplyExtendsEffects(txs: seq<Tx>, parent: State, done: set<nat>, j: nat, s: State)
    requires j < |txs| && j !in done && HoldsEffectsOf(txs, parent, done, s)
    requires forall v, k | v in done && v < |txs| && k in SerialOutcome(txs, parent, v).writeSet
                           && k in SerialOutcome(txs, parent, j).writeSet :: v < j
    ensures HoldsEffectsOf(txs, parent, done + {j}, Apply(s, SerialOutcome(txs, parent, j).writeSet))
  {
    var acc := ExactAccess(txs, parent);
    var writes := SerialOutcome(txs, parent, j).writeSet;
    var t := Apply(s, writes);
    forall k: Key
      ensures NoWriter(acc, k, done + {j}) ==> Lookup(t, k) == Lookup(parent, k)
      ensures forall w | IsLastWriter(acc, k, done + {j}, w) ::
        Lookup(t, k) == Effect(SerialOutcome(txs, parent, w).writeSet[k])
    {
      if k in writes {
        assert IsLastWriter(acc, k, done + {j}, j);
      } else {
        assert NoWriter(acc, k, done + {j}) ==> NoWriter(acc, k, done);
        forall w | IsLastWriter(acc, k, done + {j}, w)
          ensures IsLastWriter(acc, k, done, w)
        {
        }
      }
    }
  }

  lemma {:induction false} SerialStateHoldsEffects(txs: seq<Tx>, parent: State, i: nat)
    requires i <= |txs|
    ensures HoldsEffectsOf(txs, parent, FirstIndices(i), SerialState(txs, parent, i))
  {
    if i == 0 {
      NothingIsHeldYet(txs, parent);
    } else {
      SerialStateHoldsEffects(txs, parent, i - 1);
      hide HoldsEffectsOf, Apply, SerialOutcome;
      ApplyExtendsEffects(txs, parent, FirstIndices(i - 1), i - 1, SerialState(txs, parent, i - 1));
    }
  }

  lemma NothingIsHeldYet(txs: seq<Tx>, parent: State)
    ensures HoldsEffectsOf(txs, parent, FirstIndices(0), parent)
  {
    hide ExactAccess;
  }
}
