/** modules/boundedauth/memory/memory.go: the in-process reference store, whose Consume runs under
    one lock and so is a single step. */
module MemoryStore {
  import opened Wrappers
  import opened LengthPrefix
  import opened Store

  /** The transaction handed to an effect; writes wait here until the effect succeeds. */
  class Tx {
    var pending: map<string, seq<Byte>>

    constructor ()
      ensures pending == map[]
    {
      pending := map[];
    }
  }

  datatype PutError = NoTransaction

  /** Moving one entry over leaves the merged map as it was. */
  lemma OneEntry<K, V>(m: map<K, V>, n: map<K, V>, k: K)
    requires k in n
    ensures m[k := n[k]] + (n - {k}) == m + n
  {
    var l, r := m[k := n[k]] + (n - {k}), m + n;
    assert l.Keys == r.Keys;
    assert forall x :: x in r ==> l[x] == r[x];
  }

  lemma OneFewer<K, V>(n: map<K, V>, k: K)
    requires k in n
    ensures |n - {k}| < |n|
  {
    var r := n - {k};
    assert r.Keys == n.Keys - {k};
    assert |r.Keys| == |r| && |n.Keys| == |n|;
  }

  class MemoryStore {
    var consumed: map<GoString, Consumption>
    var committed: map<string, seq<Byte>>
    ghost var effectsRun: seq<Effect>

    ghost function Durably(): Durable
      reads this
    {
      Durable(consumed, committed)
    }

    constructor ()
      ensures Durably() == EMPTY && effectsRun == []
    {
      consumed := map[];
      committed := map[];
      effectsRun := [];
    }

    /** Stages a write; a context without a transaction is refused and nothing is written. */
    method Put(tx: Tx?, key: string, value: seq<Byte>) returns (err: Option<PutError>)
      modifies tx
      ensures err == if tx == null then Some(NoTransaction) else None
      ensures tx != null ==> tx.pending == old(tx.pending)[key := value]
    {
      if tx == null {
        return Some(NoTransaction);
      }
      tx.pending := tx.pending[key := value];
      return None;
    }

    method Get(key: string) returns (value: Option<seq<Byte>>)
      ensures value == if key in Durably().committed then Some(Durably().committed[key]) else None
    {
      value := if key in committed then Some(committed[key]) else None;
    }

    method Consumption(id: GoString) returns (rec: Option<Consumption>)
      ensures rec == if id in Durably().consumed then Some(Durably().consumed[id]) else None
    {
      rec := if id in consumed then Some(consumed[id]) else None;
    }

    /** An effect is run once, or not at all for a credential already spent. */
    method Consume(rec: Consumption, effect: Effect) returns (outcome: Outcome)
      modifies this
      ensures (Durably(), outcome) == Spend(old(Durably()), rec, effect)
      ensures effectsRun == old(effectsRun) + if rec.id in old(consumed) then [] else [effect]
    {
      if rec.id in consumed {
        return AlreadyConsumed;
      }
      var t := new Tx();
      var failure := Run(effect, t);
      if failure.Some? {
        return EffectFailed(failure.value);
      }
      consumed := consumed[rec.id := rec];
      var remaining := t.pending;
      while remaining != map[]
        invariant committed + remaining == old(committed) + t.pending
        invariant consumed == old(consumed)[rec.id := rec] && t.pending == Staged(effect.writes)
        invariant effectsRun == old(effectsRun) + [effect]
        decreases |remaining|
      {
        // Go visits the entries of a map in no particular order.
        var k :| k in remaining;
        OneEntry(committed, remaining, k);
        OneFewer(remaining, k);
        committed := committed[k := remaining[k]];
        remaining := remaining - {k};
      }
      assert committed == committed + remaining;
      return Store.Consumed;
    }

    /** Calls the effect with a context carrying the transaction. */
    method Run(effect: Effect, t: Tx) returns (failure: Option<string>)
      requires t.pending == map[]
      modifies t, this`effectsRun
      ensures effectsRun == old(effectsRun) + [effect]
      ensures t.pending == Staged(effect.writes)
      ensures failure == effect.failure
    {
      var i := 0;
      assert effect.writes[..0] == [];
      while i < |effect.writes|
        invariant 0 <= i <= |effect.writes|
        invariant t.pending == Staged(effect.writes[..i]) && effectsRun == old(effectsRun)
      {
        var w := effect.writes[i];
        var err := Put(t, w.key, w.value);
        assert effect.writes[..i + 1][..i] == effect.writes[..i];
        i := i + 1;
      }
      assert effect.writes[..i] == effect.writes;
      failure := effect.failure;
      effectsRun := effectsRun + [effect];
    }
  }
}
