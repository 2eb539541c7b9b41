/** modules/boundedauth/store.go: what a store records and what one Consume call must do. */
module Store {
  import opened Seqs
  import opened Wrappers
  import opened LengthPrefix

  /** The durable record that a credential was spent. */
  datatype Consumption = Consumption(
    id: GoString, issuer: GoString, subject: GoString, how: GoString,
    binding: seq<Byte>, reference: GoString, consumedAt: int)

  datatype Write = Write(key: string, value: seq<Byte>)

  /** One execution of an effect callback: the writes it makes on the store's transaction, in
      order, and the error it returns (None is nil). */
  datatype Effect = Effect(writes: seq<Write>, failure: Option<string>)

  datatype Outcome = Consumed | AlreadyConsumed | EffectFailed(cause: string)

  /** The durable state a host can observe from outside. */
  datatype Durable = Durable(consumed: map<GoString, Consumption>, committed: map<string, seq<Byte>>)

  const EMPTY := Durable(map[], map[])

  /** Staging writes one after another: the last write to a key wins. */
  function Staged(writes: seq<Write>): map<string, seq<Byte>> {
    if writes == [] then map[]
    else
      var w := writes[|writes| - 1];
      Staged(writes[..|writes| - 1])[w.key := w.value]
  }

  /** The contract of Store.Consume: record and effect together, or neither. */
  function Spend(d: Durable, rec: Consumption, e: Effect): (Durable, Outcome) {
    if rec.id in d.consumed then (d, AlreadyConsumed)
    else
      match e.failure
      case Some(cause) => (d, EffectFailed(cause))
      case None => (Durable(d.consumed[rec.id := rec], d.committed + Staged(e.writes)), Consumed)
  }

  lemma {:induction false} LastWriteWins(writes: seq<Write>, i: nat)
    requires i < |writes| && forall j :: i < j < |writes| ==> writes[j].key != writes[i].key
    ensures writes[i].key in Staged(writes) && Staged(writes)[writes[i].key] == writes[i].value
  {
    var n := |writes| - 1;
    if i < n {
      assert writes[n].key != writes[i].key;
      LastWriteWins(writes[..n], i);
    }
  }

  /** What the contract comes to: refused or failed calls change nothing, and a call that spends adds
      its own record and its own writes and keeps everything else. */
  lemma SpendExactly(d: Durable, rec: Consumption, e: Effect)
    ensures var (t, outcome) := Spend(d, rec, e);
      && (outcome == AlreadyConsumed <==> rec.id in d.consumed)
      && (forall cause :: outcome == EffectFailed(cause) <==> rec.id !in d.consumed && e.failure == Some(cause))
      && (outcome == Consumed <==> rec.id !in d.consumed && e.failure == None)
      && (outcome != Consumed ==> t == d)
      && (outcome == Consumed ==>
            && t.consumed.Keys == d.consumed.Keys + {rec.id} && t.consumed[rec.id] == rec
            && (forall id :: id in d.consumed ==> t.consumed[id] == d.consumed[id])
            && t.committed.Keys == d.committed.Keys + Staged(e.writes).Keys
            && (forall key :: key in Staged(e.writes) ==> t.committed[key] == Staged(e.writes)[key])
            && (forall key :: key in d.committed && key !in Staged(e.writes) ==> t.committed[key] == d.committed[key]))
  {
  }

  /** One completed call: who made it, what was presented and what the caller was told. */
  datatype Call = Call(caller: nat, rec: Consumption, effect: Effect, outcome: Outcome)

  /** The state after a sequence of calls made one at a time. */
  function Replay(calls: seq<Call>): Durable {
    if calls == [] then EMPTY
    else Spend(Replay(calls[..|calls| - 1]), Last(calls).rec, Last(calls).effect).0
  }

  /** The outcomes in a history are those the serial store gives, call by call. */
  ghost predicate Serial(calls: seq<Call>) {
    forall i :: 0 <= i < |calls| ==> calls[i].outcome == OutcomeAt(calls, i)
  }

  function OutcomeAt(calls: seq<Call>, i: nat): Outcome
    requires i < |calls|
  {
    Spend(Replay(calls[..i]), calls[i].rec, calls[i].effect).1
  }

  lemma SerialAppend(calls: seq<Call>, c: Call)
    requires Serial(calls)
    requires c.outcome == Spend(Replay(calls), c.rec, c.effect).1
    ensures Serial(calls + [c])
    ensures Replay(calls + [c]) == Spend(Replay(calls), c.rec, c.effect).0
  {
    var all := calls + [c];
    assert all[..|calls|] == calls;
    forall i | 0 <= i < |all| ensures all[i].outcome == OutcomeAt(all, i) {
      if i < |calls| {
        assert all[..i] == calls[..i];
        assert calls[i].outcome == OutcomeAt(calls, i);
      }
    }
  }

  /** A call that spends nothing joins a history without changing what is stored. */
  lemma QuietAppend(calls: seq<Call>, c: Call)
    requires Serial(calls) && c.outcome != Consumed
    requires c.outcome == Spend(Replay(calls), c.rec, c.effect).1
    ensures Serial(calls + [c]) && Replay(calls + [c]) == Replay(calls)
  {
    SerialAppend(calls, c);
  }

  ghost predicate SpentAt(calls: seq<Call>, i: int, id: GoString) {
    0 <= i < |calls| && calls[i].outcome == Consumed && calls[i].rec.id == id
  }

  lemma {:induction false} RecordedBySpender(calls: seq<Call>, id: GoString) returns (i: nat)
    requires Serial(calls) && id in Replay(calls).consumed
    ensures SpentAt(calls, i, id) && Replay(calls).consumed[id] == calls[i].rec
  {
    var n := |calls| - 1;
    assert calls[n].outcome == OutcomeAt(calls, n);
    if SpentAt(calls, n, id) {
      i := n;
    } else {
      SerialPrefix(calls, n);
      i := RecordedBySpender(calls[..n], id);
    }
  }

  /** A refusal in a serial history has an earlier call behind it that spent the identifier. */
  lemma RefusedAfterSpend(calls: seq<Call>, i: nat) returns (k: nat)
    requires Serial(calls) && i < |calls| && calls[i].outcome == AlreadyConsumed
    ensures k < i && SpentAt(calls, k, calls[i].rec.id)
  {
    assert calls[i].outcome == OutcomeAt(calls, i);
    SerialPrefix(calls, i);
    k := RecordedBySpender(calls[..i], calls[i].rec.id);
  }

  /** One more call never removes or changes a record, and records its own when it spends. */
  lemma RecordsStay(calls: seq<Call>)
    requires Serial(calls) && calls != []
    ensures var init, c := calls[..|calls| - 1], Last(calls);
      && Serial(init)
      && (forall id :: id in Replay(init).consumed ==>
            id in Replay(calls).consumed && Replay(calls).consumed[id] == Replay(init).consumed[id])
      && (c.outcome == Consumed ==> c.rec.id in Replay(calls).consumed && Replay(calls).consumed[c.rec.id] == c.rec)
  {
    var n := |calls| - 1;
    SerialPrefix(calls, n);
    assert calls[n].outcome == OutcomeAt(calls, n);
  }

  lemma {:induction false} SpenderIsRecorded(calls: seq<Call>, i: nat, id: GoString)
    requires Serial(calls) && SpentAt(calls, i, id)
    ensures id in Replay(calls).consumed && Replay(calls).consumed[id] == calls[i].rec
  {
    RecordsStay(calls);
    if i < |calls| - 1 {
      SpenderIsRecorded(calls[..|calls| - 1], i, id);
    }
  }

  /** An identifier is recorded exactly when some call spent it. */
  lemma RecordedIffSpent(calls: seq<Call>, id: GoString)
    requires Serial(calls)
    ensures id in Replay(calls).consumed <==> exists i :: SpentAt(calls, i, id)
  {
    if id in Replay(calls).consumed {
      var i := RecordedBySpender(calls, id);
    }
    if i: nat :| SpentAt(calls, i, id) {
      SpenderIsRecorded(calls, i, id);
    }
  }

  lemma SerialPrefix(calls: seq<Call>, n: nat)
    requires Serial(calls) && n <= |calls|
    ensures Serial(calls[..n])
  {
    var init := calls[..n];
    forall i | 0 <= i < n ensures init[i].outcome == OutcomeAt(init, i) {
      assert init[..i] == calls[..i];
      assert calls[i].outcome == OutcomeAt(calls, i);
    }
  }

  /** No identifier is ever spent twice in a serial history. */
  lemma SpentAtMostOnce(calls: seq<Call>, i: nat, j: nat)
    requires Serial(calls) && i < j < |calls|
    requires calls[i].outcome == Consumed && calls[j].outcome == Consumed
    ensures calls[i].rec.id != calls[j].rec.id
  {
    SerialPrefix(calls, j);
    assert SpentAt(calls[..j], i, calls[i].rec.id);
    SpenderIsRecorded(calls[..j], i, calls[i].rec.id);
    assert calls[j].outcome == OutcomeAt(calls, j);
  }

  /** Every visible value was written by a call that spent its credential. */
  lemma {:induction false} CommittedBySpender(calls: seq<Call>, key: string) returns (i: nat)
    requires Serial(calls) && key in Replay(calls).committed
    ensures i < |calls| && calls[i].outcome == Consumed
    ensures Write(key, Replay(calls).committed[key]) in calls[i].effect.writes
  {
    var n := |calls| - 1;
    var init := calls[..n];
    SerialPrefix(calls, n);
    assert calls[n].outcome == OutcomeAt(calls, n);
    if calls[n].outcome == Consumed && key in Staged(calls[n].effect.writes) {
      StagedSource(calls[n].effect.writes, key);
      i := n;
    } else {
      i := CommittedBySpender(init, key);
    }
  }

  lemma {:induction false} StagedSource(writes: seq<Write>, key: string)
    requires key in Staged(writes)
    ensures Write(key, Staged(writes)[key]) in writes
  {
    var w := writes[|writes| - 1];
    if w.key != key {
      StagedSource(writes[..|writes| - 1], key);
    }
  }
}
