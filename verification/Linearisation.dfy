/** What every interleaving of PostgreSQL Consume calls guarantees. Each theorem is about the state
    after an arbitrary legal run from the empty database. */
module Linearisation {
  import opened Seqs
  import opened Wrappers
  import opened LengthPrefix
  import opened Store
  import opened PostgresSteps

  lemma Reached(run: seq<Label>)
    requires Legal(INIT, run)
    ensures Inv(After(INIT, run))
  {
    InitInv();
    Run(INIT, run);
  }

  /** What the serial store answers to a lookup. */
  function Recall(d: Durable, id: GoString): Option<Consumption> {
    if id in d.consumed then Some(d.consumed[id]) else None
  }

  lemma {:induction false} LookupFinds(s: State, rows: seq<Row>, id: GoString)
    ensures LookupIn(s, rows, id).Some? ==>
      exists i :: 0 <= i < |rows| && rows[i].rec.id == id && CommittedRow(s, rows[i])
                  && LookupIn(s, rows, id) == Some(rows[i].rec)
    ensures LookupIn(s, rows, id).None? ==>
      forall i :: 0 <= i < |rows| && rows[i].rec.id == id ==> !CommittedRow(s, rows[i])
  {
    if rows != [] && !(rows[0].rec.id == id && CommittedRow(s, rows[0])) {
      LookupFinds(s, rows[1..], id);
      if LookupIn(s, rows[1..], id).Some? {
        var i :| 0 <= i < |rows[1..]| && rows[1..][i].rec.id == id && CommittedRow(s, rows[1..][i])
                 && LookupIn(s, rows[1..], id) == Some(rows[1..][i].rec);
        assert rows[i + 1] == rows[1..][i];
      } else {
        forall i | 0 <= i < |rows| && rows[i].rec.id == id ensures !CommittedRow(s, rows[i]) {
          assert i > 0 ==> rows[i] == rows[1..][i - 1];
        }
      }
    }
  }

  lemma LookupIsRecall(s: State, d: Durable, id: GoString)
    requires Shows(s, d)
    ensures Lookup(s, id) == Recall(d, id)
  {
    LookupFinds(s, s.rows, id);
    if id in d.consumed {
      assert Violates(s, id);
    }
  }

  /** Whether a call was settled with an outcome of the store's own (faults of the database are
      not outcomes of the contract). */
  ghost predicate Told(s: State, a: Session, outcome: Outcome) {
    a in s.attempts && VerdictOf(s.attempts[a].phase) == Some(Returned(outcome))
  }

  ghost predicate SettledOnce(s: State, a: Session, outcome: Outcome) {
    a in s.attempts && exists i ::
      && 0 <= i < |s.history|
      && s.history[i] == Call(a, s.attempts[a].rec, s.attempts[a].effect, outcome)
      && forall j :: 0 <= j < |s.history| && s.history[j].caller == a ==> j == i
  }

  /** Linearisability. After any interleaving there is one order of the settled calls in which the
      serial in-memory store gives every caller the outcome it was told, and leaves exactly the
      consumption records and table contents the database shows. Calls that hit a database fault
      or panicked are not in the order: they changed nothing. */
  lemma RefinesSerialStore(run: seq<Label>)
    requires Legal(INIT, run)
    ensures var s := After(INIT, run);
      && Serial(s.history)
      && (forall id :: Lookup(s, id) == Recall(Replay(s.history), id))
      && s.tables == Replay(s.history).committed
      && (forall a, o :: Told(s, a, o) ==> SettledOnce(s, a, o))
      && (forall i :: 0 <= i < |s.history| ==> Told(s, s.history[i].caller, s.history[i].outcome))
  {
    Reached(run);
    var s := After(INIT, run);
    forall id ensures Lookup(s, id) == Recall(Replay(s.history), id) {
      LookupIsRecall(s, Replay(s.history), id);
    }
    forall a, o | Told(s, a, o) ensures SettledOnce(s, a, o) {
      ToldIsSettled(s, a, o);
    }
    forall i | 0 <= i < |s.history| ensures Told(s, s.history[i].caller, s.history[i].outcome) {
      assert Recorded(s, s.history[i]);
    }
  }

  lemma ToldIsSettled(s: State, a: Session, o: Outcome)
    requires HistoryMatches(s) && Told(s, a, o)
    ensures SettledOnce(s, a, o)
  {
    assert OwnVerdict(s.attempts[a].phase) && InHistory(s, a);
    var i :| 0 <= i < |s.history| && s.history[i].caller == a;
    assert Recorded(s, s.history[i]);
    assert s.history[i] == Call(a, s.attempts[a].rec, s.attempts[a].effect, o);
  }

  lemma {:induction false} LegalSplit(s: State, xs: seq<Label>, ys: seq<Label>)
    requires Legal(s, xs)
    ensures Legal(s, xs + ys) <==> Legal(After(s, xs), ys)
    ensures Legal(s, xs + ys) ==> After(s, xs + ys) == After(After(s, xs), ys)
    decreases xs
  {
    if xs == [] {
      assert xs + ys == ys;
    } else {
      assert (xs + ys)[0] == xs[0] && (xs + ys)[1..] == xs[1..] + ys;
      LegalSplit(Next(s, xs[0]), xs[1..], ys);
    }
  }

  lemma SingleStep(s: State, l: Label)
    requires Enabled(s, l)
    ensures Legal(s, [l]) && After(s, [l]) == Next(s, l)
  {
    assert [l][1..] == [];
    assert Legal(Next(s, l), []) && After(Next(s, l), []) == Next(s, l);
  }

  /** One more step at the end of a run. */
  lemma LegalAppend(s: State, run: seq<Label>, l: Label)
    requires Legal(s, run) && Enabled(After(s, run), l)
    ensures Legal(s, run + [l]) && After(s, run + [l]) == Next(After(s, run), l)
  {
    SingleStep(After(s, run), l);
    LegalSplit(s, run, [l]);
  }

  lemma CallersKnown(s: State)
    requires HistoryMatches(s)
    ensures forall i :: 0 <= i < |s.history| ==> s.history[i].caller in s.attempts
  {
    forall i | 0 <= i < |s.history| ensures s.history[i].caller in s.attempts {
      assert Recorded(s, s.history[i]);
    }
  }

  /** The order respects real time: a call that had been settled before another began comes
      first, however the run continues. */
  lemma OrderRespectsRealTime(run: seq<Label>, more: seq<Label>, a: Session, b: Session, i: nat, j: nat)
    requires Legal(INIT, run + more) && Legal(INIT, run)
    requires var s := After(INIT, run); a in s.attempts && OwnVerdict(s.attempts[a].phase) && b !in s.attempts
    requires var h := After(INIT, run + more).history;
      i < |h| && j < |h| && h[i].caller == a && h[j].caller == b
    ensures i < j
  {
    Reached(run);
    LegalSplit(INIT, run, more);
    var s, t := After(INIT, run), After(INIT, run + more);
    Run(s, more);
    Reached(run + more);
    assert InHistory(s, a);
    var k :| 0 <= k < |s.history| && s.history[k].caller == a;
    assert t.history[k].caller == a;
    assert k == i;
    CallersKnown(s);
  }

  /** At most one transaction is past its insert and not yet ended for any ID, so at most one
      effect for that ID is running at any moment. */
  lemma OneEffectAtATime(run: seq<Label>, a: Session, b: Session)
    requires Legal(INIT, run)
    requires var s := After(INIT, run);
      && a in s.attempts && HoldsRow(s.attempts[a].phase) && !s.attempts[a].phase.Done?
      && b in s.attempts && HoldsRow(s.attempts[b].phase) && !s.attempts[b].phase.Done?
      && s.attempts[a].rec.id == s.attempts[b].rec.id
    ensures a == b
  {
    Reached(run);
    var s := After(INIT, run);
    assert HasRow(s, a) && HasRow(s, b);
    var i :| 0 <= i < |s.rows| && s.rows[i].owner == a;
    var j :| 0 <= j < |s.rows| && s.rows[j].owner == b;
    assert LiveRow(s, s.rows[i]) && LiveRow(s, s.rows[j]);
    assert s.rows[i].rec.id == s.rows[j].rec.id;
    if i < j {
      assert false;
    } else if j < i {
      assert false;
    }
  }

  /** No ID commits twice, and a caller is told AlreadyConsumed only when another call on that ID
      has committed. */
  lemma ReplayOnlyAfterCommit(run: seq<Label>, a: Session) returns (b: Session)
    requires Legal(INIT, run) && Told(After(INIT, run), a, AlreadyConsumed)
    ensures var s := After(INIT, run);
      b != a && b in s.attempts && s.attempts[b].phase == Done(Returned(Consumed))
      && s.attempts[b].rec.id == s.attempts[a].rec.id
  {
    Reached(run);
    var s := After(INIT, run);
    ToldIsSettled(s, a, AlreadyConsumed);
    var i :| 0 <= i < |s.history| && s.history[i] == Call(a, s.attempts[a].rec, s.attempts[a].effect, AlreadyConsumed);
    var k := RefusedAfterSpend(s.history, i);
    b := ConsumedIsDone(s, k);
  }

  lemma ConsumedIsDone(s: State, k: nat) returns (b: Session)
    requires Inv(s) && k < |s.history| && s.history[k].outcome == Consumed
    ensures b == s.history[k].caller && b in s.attempts
    ensures s.attempts[b].phase == Done(Returned(Consumed)) && s.attempts[b].rec == s.history[k].rec
  {
    assert Recorded(s, s.history[k]);
    b := s.history[k].caller;
    assert Faithful(s.attempts[b]);
  }

  lemma CommitsAtMostOnce(run: seq<Label>, a: Session, b: Session)
    requires Legal(INIT, run)
    requires Told(After(INIT, run), a, Consumed) && Told(After(INIT, run), b, Consumed)
    requires var s := After(INIT, run); s.attempts[a].rec.id == s.attempts[b].rec.id
    ensures a == b
  {
    Reached(run);
    var s := After(INIT, run);
    ToldIsSettled(s, a, Consumed);
    ToldIsSettled(s, b, Consumed);
    var i :| 0 <= i < |s.history| && s.history[i] == Call(a, s.attempts[a].rec, s.attempts[a].effect, Consumed);
    var j :| 0 <= j < |s.history| && s.history[j] == Call(b, s.attempts[b].rec, s.attempts[b].effect, Consumed);
    if i < j {
      SpentAtMostOnce(s.history, i, j);
    } else if j < i {
      SpentAtMostOnce(s.history, j, i);
    }
  }

  /** Simultaneous presentation: when every call on an ID has returned, none met a database fault
      and none of their effects fails, exactly one was consumed and all others were refused. */
  lemma ExactlyOneSpends(run: seq<Label>, id: GoString, callers: set<Session>) returns (winner: Session)
    requires Legal(INIT, run) && callers != {}
    requires var s := After(INIT, run);
      && (forall a :: a in callers <==> a in s.attempts && s.attempts[a].rec.id == id)
      && (forall a :: a in callers ==> s.attempts[a].phase.Done? && s.attempts[a].phase.verdict.Returned?
                                       && s.attempts[a].effect.failure == None)
    ensures winner in callers
    ensures forall a :: a in callers ==> Told(After(INIT, run), a, if a == winner then Consumed else AlreadyConsumed)
  {
    Reached(run);
    var s := After(INIT, run);
    forall a | a in callers ensures Told(s, a, Consumed) || Told(s, a, AlreadyConsumed) {
      NoFailureNoEffectError(s, a);
    }
    var a :| a in callers;
    if Told(s, a, Consumed) {
      winner := a;
    } else {
      winner := ReplayOnlyAfterCommit(run, a);
    }
    forall b | b in callers && b != winner ensures Told(s, b, AlreadyConsumed) {
      if Told(s, b, Consumed) {
        CommitsAtMostOnce(run, b, winner);
      }
    }
  }

  lemma NoFailureNoEffectError(s: State, a: Session)
    requires Inv(s) && a in s.attempts && s.attempts[a].effect.failure == None
    requires s.attempts[a].phase.Done? && s.attempts[a].phase.verdict.Returned?
    ensures Told(s, a, Consumed) || Told(s, a, AlreadyConsumed)
  {
    var o := s.attempts[a].phase.verdict.outcome;
    ToldIsSettled(s, a, o);
    var i :| 0 <= i < |s.history| && s.history[i] == Call(a, s.attempts[a].rec, s.attempts[a].effect, o);
    assert s.history[i].outcome == OutcomeAt(s.history, i);
  }

  // ----- failures leave nothing behind -----

  function Successes(calls: seq<Call>): seq<Call> {
    if calls == [] then []
    else
      var init := Successes(calls[..|calls| - 1]);
      if Last(calls).outcome == Consumed then init + [Last(calls)] else init
  }

  /** The durable state is that of the successful calls alone. */
  lemma {:induction false} OnlySuccessesCount(calls: seq<Call>)
    requires Serial(calls)
    ensures Replay(calls) == Replay(Successes(calls))
  {
    if calls != [] {
      var n := |calls| - 1;
      SerialPrefix(calls, n);
      OnlySuccessesCount(calls[..n]);
      assert calls[n].outcome == OutcomeAt(calls, n);
      var init := Successes(calls[..n]);
      assert (init + [Last(calls)])[..|init|] == init;
    }
  }

  /** Of the calls the database has seen, only the committed ones show, and in commit order. */
  lemma FailuresAreInvisible(run: seq<Label>)
    requires Legal(INIT, run)
    ensures var s := After(INIT, run);
      Shows(s, Replay(Successes(s.history)))
      && forall c :: c in Successes(s.history) ==>
           c.caller in s.attempts && s.attempts[c.caller].phase == Done(Returned(Consumed))
  {
    Reached(run);
    var s := After(INIT, run);
    OnlySuccessesCount(s.history);
    forall c | c in Successes(s.history)
      ensures c.caller in s.attempts && s.attempts[c.caller].phase == Done(Returned(Consumed))
    {
      SuccessIndex(s.history, c);
      var k :| 0 <= k < |s.history| && s.history[k] == c;
      var b := ConsumedIsDone(s, k);
    }
  }

  lemma {:induction false} SuccessIndex(calls: seq<Call>, c: Call)
    requires c in Successes(calls)
    ensures c in calls && c.outcome == Consumed
  {
    if calls != [] {
      if c in Successes(calls[..|calls| - 1]) {
        SuccessIndex(calls[..|calls| - 1], c);
      }
    }
  }

  // ----- progress -----

  function Writes(a: Session, n: nat): seq<Label> {
    if n == 0 then [] else Writes(a, n - 1) + [DoWrite(a)]
  }

  function FullCall(a: Session, rec: Consumption, effect: Effect): seq<Label> {
    [Begin(a, rec, effect), Insert(a)] + Writes(a, |effect.writes|) + [EffectReturns(a), Commit(a)]
  }

  /** The state once session a has made the first n writes of its effect. */
  function Underway(s: State, a: Session, rec: Consumption, effect: Effect, n: nat): State
    requires n <= |effect.writes|
  {
    s.(rows := s.rows + [Row(rec, a)],
       attempts := s.attempts[a := Attempt(rec, effect, InEffect(n), Staged(effect.writes[..n]))])
  }

  lemma OneWrite(s: State, a: Session, rec: Consumption, effect: Effect, n: nat)
    requires n < |effect.writes|
    ensures var u := Underway(s, a, rec, effect, n);
      Enabled(u, DoWrite(a)) && Next(u, DoWrite(a)) == Underway(s, a, rec, effect, n + 1)
  {
    var w := effect.writes;
    assert w[..n + 1][..n] == w[..n];
    assert Staged(w[..n + 1]) == Staged(w[..n])[w[n].key := w[n].value];
  }

  lemma {:induction false} WritesRun(s: State, a: Session, rec: Consumption, effect: Effect, n: nat)
    requires n <= |effect.writes|
    ensures var t := Underway(s, a, rec, effect, 0);
      Legal(t, Writes(a, n)) && After(t, Writes(a, n)) == Underway(s, a, rec, effect, n)
  {
    if n > 0 {
      WritesRun(s, a, rec, effect, n - 1);
      OneWrite(s, a, rec, effect, n - 1);
      SingleStep(Underway(s, a, rec, effect, n - 1), DoWrite(a));
      LegalSplit(Underway(s, a, rec, effect, 0), Writes(a, n - 1), [DoWrite(a)]);
    }
  }

  /** A credential whose every attempt so far failed, for whatever reason, can still be spent: a
      new call whose effect succeeds commits both the record and every write of the effect. */
  lemma SpendableAfterFailures(run: seq<Label>, a: Session, rec: Consumption, effect: Effect)
    requires Legal(INIT, run) && a !in After(INIT, run).attempts && effect.failure == None
    requires var s := After(INIT, run);
      forall b :: b in s.attempts && s.attempts[b].rec.id == rec.id ==>
        s.attempts[b].phase.Done? && s.attempts[b].phase != Done(Returned(Consumed))
    ensures var more := run + FullCall(a, rec, effect);
      && Legal(INIT, more)
      && Told(After(INIT, more), a, Consumed)
      && Lookup(After(INIT, more), rec.id) == Some(rec)
      && After(INIT, more).tables == After(INIT, run).tables + Staged(effect.writes)
  {
    Reached(run);
    var s := After(INIT, run);
    var call := FullCall(a, rec, effect);
    FullCallRuns(s, a, rec, effect);
    LegalSplit(INIT, run, call);
    Reached(run + call);
    var t := After(s, call);
    assert CommittedRow(t, t.rows[|s.rows|]);
    LookupIsRecall(t, Replay(t.history), rec.id);
  }

  lemma TwoSteps(s: State, x: Label, y: Label)
    requires Enabled(s, x) && Enabled(Next(s, x), y)
    ensures Legal(s, [x, y]) && After(s, [x, y]) == Next(Next(s, x), y)
  {
    var run := [x, y];
    assert run[1..] == [y] && [y][1..] == [];
    var t := Next(s, x);
    assert Legal(Next(t, y), []) && Legal(t, [y]);
    assert After(t, [y]) == Next(t, y);
  }

  lemma OpeningRuns(s: State, a: Session, rec: Consumption, effect: Effect)
    requires RowsOwned(s) && a !in s.attempts
    requires forall b :: b in s.attempts && s.attempts[b].rec.id == rec.id ==>
      s.attempts[b].phase.Done? && s.attempts[b].phase != Done(Returned(Consumed))
    ensures var first := [Begin(a, rec, effect), Insert(a)];
      Legal(s, first) && After(s, first) == Underway(s, a, rec, effect, 0)
  {
    var begun := Next(s, Begin(a, rec, effect));
    assert KeyFree(begun, rec.id);
    assert effect.writes[..0] == [];
    assert Next(begun, Insert(a)) == Underway(s, a, rec, effect, 0);
    TwoSteps(s, Begin(a, rec, effect), Insert(a));
  }

  lemma ClosingRuns(s: State, a: Session, rec: Consumption, effect: Effect)
    requires effect.failure == None
    ensures var u := Underway(s, a, rec, effect, |effect.writes|); var last := [EffectReturns(a), Commit(a)];
      && Legal(u, last)
      && var t := After(u, last);
         && a in t.attempts && t.attempts[a].rec == rec && t.attempts[a].phase == Done(Returned(Consumed))
         && t.rows == s.rows + [Row(rec, a)] && t.tables == s.tables + Staged(effect.writes)
  {
    assert effect.writes[..|effect.writes|] == effect.writes;
    TwoSteps(Underway(s, a, rec, effect, |effect.writes|), EffectReturns(a), Commit(a));
  }

  lemma FullCallRuns(s: State, a: Session, rec: Consumption, effect: Effect)
    requires RowsOwned(s) && a !in s.attempts && effect.failure == None
    requires forall b :: b in s.attempts && s.attempts[b].rec.id == rec.id ==>
      s.attempts[b].phase.Done? && s.attempts[b].phase != Done(Returned(Consumed))
    ensures Legal(s, FullCall(a, rec, effect))
    ensures var t := After(s, FullCall(a, rec, effect));
      && a in t.attempts && t.attempts[a].rec == rec && t.attempts[a].phase == Done(Returned(Consumed))
      && t.rows == s.rows + [Row(rec, a)] && t.tables == s.tables + Staged(effect.writes)
  {
    var n := |effect.writes|;
    var first, last := [Begin(a, rec, effect), Insert(a)], [EffectReturns(a), Commit(a)];
    OpeningRuns(s, a, rec, effect);
    WritesRun(s, a, rec, effect, n);
    ClosingRuns(s, a, rec, effect);
    LegalSplit(s, first, Writes(a, n));
    LegalSplit(s, first + Writes(a, n), last);
  }

  /** Some call can always move: waiting on the key never deadlocks, because a transaction that
      others wait for is past its own wait. */
  lemma SomeoneCanMove(run: seq<Label>) returns (l: Label)
    requires Legal(INIT, run)
    requires exists a :: a in After(INIT, run).attempts && !After(INIT, run).attempts[a].phase.Done?
    ensures Enabled(After(INIT, run), l)
    ensures !l.Begin? && !l.BeginFails? && !l.RecordFails? && !l.CommitFails? && !l.EffectPanics?
  {
    Reached(run);
    var s := After(INIT, run);
    var a :| a in s.attempts && !s.attempts[a].phase.Done?;
    if s.attempts[a].phase.Inserting? && !KeyFree(s, s.attempts[a].rec.id) {
      l := Unblock(s, a);
    } else {
      AdvanceEnabled(s, a);
      l := Advance(s, a);
    }
  }

  lemma Unblock(s: State, a: Session) returns (l: Label)
    requires RowsOwned(s) && AttemptsFaithful(s)
    requires a in s.attempts && s.attempts[a].phase.Inserting? && !KeyFree(s, s.attempts[a].rec.id)
    ensures Enabled(s, l) && !l.Begin? && !l.BeginFails? && !l.RecordFails? && !l.CommitFails? && !l.EffectPanics?
  {
    var i :| 0 <= i < |s.rows| && s.rows[i].rec.id == s.attempts[a].rec.id && LiveRow(s, s.rows[i]);
    if CommittedRow(s, s.rows[i]) {
      l := Violate(a);
    } else {
      AdvanceEnabled(s, s.rows[i].owner);
      l := Advance(s, s.rows[i].owner);
    }
  }

  lemma AdvanceEnabled(s: State, a: Session)
    requires AttemptsFaithful(s) && a in s.attempts && !s.attempts[a].phase.Done?
    requires s.attempts[a].phase.Inserting? ==> KeyFree(s, s.attempts[a].rec.id)
    ensures Enabled(s, Advance(s, a))
  {
    assert Faithful(s.attempts[a]);
  }

  function Advance(s: State, a: Session): Label
    requires a in s.attempts && !s.attempts[a].phase.Done?
  {
    match s.attempts[a].phase
    case Inserting => Insert(a)
    case InEffect(n) => if n < |s.attempts[a].effect.writes| then DoWrite(a) else EffectReturns(a)
    case Committing => Commit(a)
    case RollingBack(_) => Rollback(a)
    case Done(_) => Rollback(a)
  }
}
