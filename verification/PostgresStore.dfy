/** modules/boundedauth/postgres/postgres.go, Store.Consume: the Go control flow, one statement of
    the database at a time, with arbitrary steps of other sessions between any two of its own. */
module PostgresStore {
  import opened Wrappers
  import opened Seqs
  import opened LengthPrefix
  import opened Store
  import opened PostgresSteps
  import opened Linearisation

  /** The steps session a took in a run. */
  function StepsOf(run: seq<Label>, a: Session): seq<Label> {
    if run == [] then []
    else StepsOf(run[..|run| - 1], a) + if run[|run| - 1].a == a then [run[|run| - 1]] else []
  }

  /** What follows the writes of the effect: its return or panic, and how the call ends. */
  function Ending(a: Session, v: Verdict): seq<Label> {
    match v
    case Returned(Consumed) => [EffectReturns(a), Commit(a)]
    case Faulted(CommitFailed) => [EffectReturns(a), CommitFails(a), Rollback(a)]
    case Faulted(EffectPanicked(_)) => [EffectPanics(a), Rollback(a)]
    case _ => [EffectReturns(a), Rollback(a)]
  }

  /** How many writes the effect made: all of them unless it panicked. */
  function WritesMade(effect: Effect, v: Verdict): nat {
    if v.Faulted? && v.fault.EffectPanicked? then v.fault.after else |effect.writes|
  }

  /** The one path through Consume that ends with each verdict. */
  function Path(a: Session, rec: Consumption, effect: Effect, v: Verdict): seq<Label> {
    match v
    case Faulted(BeginFailed) => [BeginFails(a, rec, effect)]
    case Faulted(RecordFailed) => [Begin(a, rec, effect), RecordFails(a), Rollback(a)]
    case Returned(AlreadyConsumed) => [Begin(a, rec, effect), Violate(a), Rollback(a)]
    case _ => [Begin(a, rec, effect), Insert(a)] + (Writes(a, WritesMade(effect, v)) + Ending(a, v))
  }

  class Database {
    var state: State
    ghost var run: seq<Label>

    ghost predicate Valid()
      reads this
    {
      Legal(INIT, run) && After(INIT, run) == state
    }

    constructor ()
      ensures Valid() && run == []
    {
      state := INIT;
      run := [];
    }

    method Perform(l: Label)
      requires Valid() && Enabled(state, l)
      modifies this
      ensures Valid() && state == Next(old(state), l) && run == old(run) + [l]
    {
      LegalAppend(INIT, run, l);
      state := Next(state, l);
      run := run + [l];
    }

    /** Other sessions take any steps at all; those of session a, and those not possible when their
        turn comes, are passed over. */
    method Interleave(a: Session)
      requires Valid()
      modifies this
      ensures Valid() && old(run) <= run && StepsOf(run, a) == StepsOf(old(run), a)
      ensures Untouched(old(state), state, a)
    {
      var steps: seq<Label> := *;
      var i := 0;
      while i < |steps|
        invariant 0 <= i <= |steps|
        invariant Valid() && old(run) <= run && StepsOf(run, a) == StepsOf(old(run), a)
        invariant Untouched(old(state), state, a)
      {
        if steps[i].a != a && Enabled(state, steps[i]) {
          Frame(state, steps[i]);
          ghost var before := run;
          Perform(steps[i]);
          assert run[..|run| - 1] == before;
        }
        i := i + 1;
      }
    }
  }

  predicate Untouched(s: State, t: State, a: Session) {
    (a in s.attempts <==> a in t.attempts) && (a in s.attempts ==> s.attempts[a] == t.attempts[a])
  }

  /** Where a statement leaves the session that issued it. */
  function PhaseAfter(t: Attempt, l: Label): Phase {
    match l
    case DoWrite(_) => if t.phase.InEffect? then InEffect(t.phase.next + 1) else t.phase
    case EffectReturns(_) =>
      if t.effect.failure.Some? then RollingBack(Returned(EffectFailed(t.effect.failure.value))) else Committing
    case EffectPanics(_) =>
      if t.phase.InEffect? then RollingBack(Faulted(EffectPanicked(t.phase.next))) else t.phase
    case Commit(_) => Done(Returned(Consumed))
    case CommitFails(_) => RollingBack(Faulted(CommitFailed))
    case Rollback(_) => if t.phase.RollingBack? then Done(t.phase.verdict) else t.phase
    case _ => t.phase
  }

  /** Session a gave up on its insert while another transaction held the key. */
  ghost predicate GaveUpBlocked(run: seq<Label>, a: Session) {
    exists k :: 0 <= k < |run| && run[k] == RecordFails(a) && BlockedAfter(run[..k], a)
  }

  ghost predicate BlockedAfter(run: seq<Label>, a: Session) {
    && Legal(INIT, run) && a in After(INIT, run).attempts
    && !KeyFree(After(INIT, run), After(INIT, run).attempts[a].rec.id)
    && !Violates(After(INIT, run), After(INIT, run).attempts[a].rec.id)
  }

  lemma StillGaveUp(run: seq<Label>, more: seq<Label>, a: Session)
    requires run <= more && GaveUpBlocked(run, a)
    ensures GaveUpBlocked(more, a)
  {
    var k :| 0 <= k < |run| && run[k] == RecordFails(a) && BlockedAfter(run[..k], a);
    assert more[..k] == run[..k] && more[k] == run[k];
  }

  lemma RefusedPath(before: seq<Label>, a: Session, rec: Consumption, effect: Effect, v: Verdict)
    requires v == Returned(AlreadyConsumed) || v == Faulted(RecordFailed)
    ensures (before + [Begin(a, rec, effect)]) + [if v.Returned? then Violate(a) else RecordFails(a), Rollback(a)]
         == before + Path(a, rec, effect, v)
  {
    Assoc(before, [Begin(a, rec, effect)], [if v.Returned? then Violate(a) else RecordFails(a), Rollback(a)]);
  }

  lemma InsertedPath(before: seq<Label>, a: Session, rec: Consumption, effect: Effect, v: Verdict)
    requires v != Returned(AlreadyConsumed) && v != Faulted(RecordFailed) && v != Faulted(BeginFailed)
    ensures ((before + [Begin(a, rec, effect)]) + [Insert(a)]) + (Writes(a, WritesMade(effect, v)) + Ending(a, v))
         == before + Path(a, rec, effect, v)
  {
    Assoc(before, [Begin(a, rec, effect)], [Insert(a)]);
    assert [Begin(a, rec, effect)] + [Insert(a)] == [Begin(a, rec, effect), Insert(a)];
    Assoc(before, [Begin(a, rec, effect), Insert(a)], Writes(a, WritesMade(effect, v)) + Ending(a, v));
  }

  lemma EndingPath(start: seq<Label>, writes: seq<Label>, a: Session, v: Verdict)
    ensures start + (writes + Ending(a, v)) == start + writes +
      [if v.Faulted? && v.fault.EffectPanicked? then EffectPanics(a) else EffectReturns(a)] + (
      match v
      case Returned(Consumed) => [Commit(a)]
      case Faulted(CommitFailed) => [CommitFails(a)] + [Rollback(a)]
      case _ => [Rollback(a)])
    ensures start + writes + [EffectReturns(a)] + ([CommitFails(a)] + [Rollback(a)])
         == start + writes + [EffectReturns(a)] + [CommitFails(a)] + [Rollback(a)]
  {
  }

  datatype Reply = Inserted | UniqueViolation | Error

  datatype ReadError = ReadFailed

  /** A record as it is read back: the time of consumption is rounded, nothing else changes. */
  function AsKept(rec: Option<Consumption>, keep: int -> int): Option<Consumption> {
    match rec
    case None => None
    case Some(c) => Some(c.(consumedAt := keep(c.consumedAt)))
  }

  predicate Panics(effect: Effect, fault: Option<Fault>) {
    fault.Some? && fault.value.EffectPanicked? && fault.value.after <= |effect.writes|
  }

  /** The effect ran to its end. */
  predicate Completes(v: Verdict) {
    v == Faulted(CommitFailed) || (v.Returned? && v.outcome != AlreadyConsumed)
  }

  class PostgresStore {
    const db: Database
    const keep: int -> int

    constructor (db: Database, keep: int -> int)
      ensures this.db == db && this.keep == keep
    {
      this.db := db;
      this.keep := keep;
    }

    /** One statement of session a, after whatever the others do first. */
    method Statement(l: Label)
      requires db.Valid() && l.a in db.state.attempts
      requires l.DoWrite? || l.EffectReturns? || l.EffectPanics? || l.Commit? || l.CommitFails? || l.Rollback?
      requires Enabled(db.state, l)
      modifies db
      ensures db.Valid() && l.a in db.state.attempts && l.a in old(db.state).attempts
      ensures db.state.attempts[l.a].rec == old(db.state).attempts[l.a].rec
      ensures db.state.attempts[l.a].effect == old(db.state).attempts[l.a].effect
      ensures db.state.attempts[l.a].phase == PhaseAfter(old(db.state).attempts[l.a], l)
      ensures StepsOf(db.run, l.a) == StepsOf(old(db.run), l.a) + [l]
      ensures old(db.run) <= db.run
    {
      db.Interleave(l.a);
      ghost var before := db.run;
      db.Perform(l);
      assert db.run[..|db.run| - 1] == before;
    }

    /** The INSERT blocks while another transaction holds the key, until the context ends. */
    method ExecInsert(a: Session, fault: Option<Fault>) returns (reply: Reply)
      requires db.Valid() && a in db.state.attempts && db.state.attempts[a].phase == Inserting
      modifies db
      ensures db.Valid() && a in db.state.attempts
      ensures db.state.attempts[a] == old(db.state).attempts[a].(phase :=
        match reply
        case Inserted => InEffect(0)
        case UniqueViolation => RollingBack(Returned(AlreadyConsumed))
        case Error => RollingBack(Faulted(RecordFailed)))
      ensures StepsOf(db.run, a) == StepsOf(old(db.run), a)
        + [match reply case Inserted => Insert(a) case UniqueViolation => Violate(a) case Error => RecordFails(a)]
      ensures reply == Error ==> fault == Some(RecordFailed) || GaveUpBlocked(db.run, a)
      ensures fault == Some(RecordFailed) ==> reply == Error
    {
      var id := db.state.attempts[a].rec.id;
      var patience: nat := *;
      while patience > 0 && !KeyFree(db.state, id) && !Violates(db.state, id)
        invariant db.Valid() && a in db.state.attempts
        invariant db.state.attempts[a] == old(db.state).attempts[a]
        invariant StepsOf(db.run, a) == StepsOf(old(db.run), a)
      {
        db.Interleave(a);
        patience := patience - 1;
      }
      ghost var before := db.run;
      if fault == Some(RecordFailed) {
        db.Perform(RecordFails(a));
        reply := Error;
      } else if Violates(db.state, id) {
        db.Perform(Violate(a));
        reply := UniqueViolation;
      } else if KeyFree(db.state, id) {
        db.Perform(Insert(a));
        reply := Inserted;
      } else {
        assert BlockedAfter(before, a);
        db.Perform(RecordFails(a));
        assert db.run[|before|] == RecordFails(a) && db.run[..|before|] == before;
        reply := Error;
      }
      assert db.run[..|db.run| - 1] == before;
    }

    /** The first n writes of the effect. */
    method RunEffect(a: Session, n: nat)
      requires db.Valid() && a in db.state.attempts && db.state.attempts[a].phase == InEffect(0)
      requires n <= |db.state.attempts[a].effect.writes|
      modifies db
      ensures db.Valid() && a in db.state.attempts
      ensures db.state.attempts[a].rec == old(db.state).attempts[a].rec
      ensures db.state.attempts[a].effect == old(db.state).attempts[a].effect
      ensures db.state.attempts[a].phase == InEffect(n)
      ensures StepsOf(db.run, a) == StepsOf(old(db.run), a) + Writes(a, n)
    {
      var effect := db.state.attempts[a].effect;
      var i := 0;
      while i < n
        invariant 0 <= i <= n
        invariant db.Valid() && a in db.state.attempts
        invariant db.state.attempts[a].rec == old(db.state).attempts[a].rec
        invariant db.state.attempts[a].effect == effect && db.state.attempts[a].phase == InEffect(i)
        invariant StepsOf(db.run, a) == StepsOf(old(db.run), a) + Writes(a, i)
      {
        Statement(DoWrite(a));
        i := i + 1;
      }
    }

    /** Spends the credential and applies the effect, or does neither. The session takes exactly the
        steps of the path that belongs to its verdict, so the effect runs at most once, only after
        the insert, and the deferred rollback runs on every path but the committed one, a panic of the
        effect included. */
    method Consume(a: Session, rec: Consumption, effect: Effect, fault: Option<Fault>) returns (v: Verdict)
      requires db.Valid() && a !in db.state.attempts
      modifies db
      ensures db.Valid() && a in db.state.attempts
      ensures db.state.attempts[a].rec == rec && db.state.attempts[a].effect == effect
      ensures db.state.attempts[a].phase == Done(v)
      ensures StepsOf(db.run, a) == StepsOf(old(db.run), a) + Path(a, rec, effect, v)
      ensures v.Returned? && v.outcome.EffectFailed? ==> effect.failure == Some(v.outcome.cause)
      ensures v == Returned(Consumed) || v == Faulted(CommitFailed) ==> effect.failure == None
      ensures v.Faulted? ==> fault == Some(v.fault) || (v.fault == RecordFailed && GaveUpBlocked(db.run, a))
      ensures fault == Some(BeginFailed) ==> v == Faulted(BeginFailed)
      ensures fault == Some(RecordFailed) ==> v == Faulted(RecordFailed)
      ensures fault == Some(CommitFailed) ==> v != Returned(Consumed)
      ensures Panics(effect, fault) ==> !Completes(v)
    {
      ghost var before := StepsOf(db.run, a);
      db.Interleave(a);
      if fault == Some(BeginFailed) {
        Open(BeginFails(a, rec, effect));
        return Faulted(BeginFailed);
      }
      Open(Begin(a, rec, effect));
      var refusal := Record(a, fault);
      if refusal.Some? {
        v := refusal.value;
        RefusedPath(before, a, rec, effect, v);
      } else {
        v := Finish(a, rec, effect, fault);
        InsertedPath(before, a, rec, effect, v);
      }
    }

    /** The INSERT; unless it succeeds, the call is over and the deferred rollback runs. */
    method Record(a: Session, fault: Option<Fault>) returns (refusal: Option<Verdict>)
      requires db.Valid() && a in db.state.attempts && db.state.attempts[a].phase == Inserting
      modifies db
      ensures db.Valid() && a in db.state.attempts
      ensures db.state.attempts[a].rec == old(db.state).attempts[a].rec
      ensures db.state.attempts[a].effect == old(db.state).attempts[a].effect
      ensures db.state.attempts[a].phase == if refusal.Some? then Done(refusal.value) else InEffect(0)
      ensures refusal.Some? ==> refusal.value == Returned(AlreadyConsumed) || refusal.value == Faulted(RecordFailed)
      ensures StepsOf(db.run, a) == StepsOf(old(db.run), a)
        + if refusal.None? then [Insert(a)]
          else [if refusal.value.Returned? then Violate(a) else RecordFails(a), Rollback(a)]
      ensures refusal == Some(Faulted(RecordFailed)) ==>
        fault == Some(RecordFailed) || GaveUpBlocked(db.run, a)
      ensures fault == Some(RecordFailed) ==> refusal == Some(Faulted(RecordFailed))
    {
      var reply := ExecInsert(a, fault);
      ghost var recorded := db.run;
      match reply
      case Inserted =>
        return None;
      case UniqueViolation =>
        Statement(Rollback(a));
        return Some(Returned(AlreadyConsumed));
      case Error =>
        Statement(Rollback(a));
        if fault != Some(RecordFailed) {
          StillGaveUp(recorded, db.run, a);
        }
        return Some(Faulted(RecordFailed));
    }

    method Open(l: Label)
      requires db.Valid() && (l.Begin? || l.BeginFails?) && l.a !in db.state.attempts
      modifies db
      ensures db.Valid() && l.a in db.state.attempts
      ensures db.state.attempts[l.a]
           == Attempt(l.rec, l.effect, if l.Begin? then Inserting else Done(Faulted(BeginFailed)), map[])
      ensures StepsOf(db.run, l.a) == StepsOf(old(db.run), l.a) + [l]
    {
      ghost var start := db.run;
      db.Perform(l);
      assert db.run[..|db.run| - 1] == start;
    }

    /** The second half of Consume: the effect on the open transaction, then commit or rollback. A
        panic unwinds through the deferred rollback. */
    method Finish(a: Session, rec: Consumption, effect: Effect, fault: Option<Fault>) returns (v: Verdict)
      requires db.Valid() && a in db.state.attempts
      requires db.state.attempts[a].rec == rec && db.state.attempts[a].effect == effect
      requires db.state.attempts[a].phase == InEffect(0)
      modifies db
      ensures db.Valid() && a in db.state.attempts
      ensures db.state.attempts[a].rec == rec && db.state.attempts[a].effect == effect
      ensures db.state.attempts[a].phase == Done(v)
      ensures v ==
        if Panics(effect, fault) then Faulted(fault.value)
        else if effect.failure.Some? then Returned(EffectFailed(effect.failure.value))
        else if fault == Some(CommitFailed) then Faulted(CommitFailed)
        else Returned(Consumed)
      ensures StepsOf(db.run, a) == StepsOf(old(db.run), a) + (Writes(a, WritesMade(effect, v)) + Ending(a, v))
    {
      ghost var start := StepsOf(db.run, a);
      if Panics(effect, fault) {
        RunEffect(a, fault.value.after);
        Statement(EffectPanics(a));
        Statement(Rollback(a));
        v := Faulted(fault.value);
        EndingPath(start, Writes(a, fault.value.after), a, v);
        return;
      }
      RunEffect(a, |effect.writes|);
      Statement(EffectReturns(a));
      if effect.failure.Some? {
        Statement(Rollback(a));
        v := Returned(EffectFailed(effect.failure.value));
      } else if fault == Some(CommitFailed) {
        Statement(CommitFails(a));
        Statement(Rollback(a));
        v := Faulted(CommitFailed);
      } else {
        Statement(Commit(a));
        v := Returned(Consumed);
      }
      EndingPath(start, Writes(a, |effect.writes|), a, v);
    }

    /** SELECT on the consumption table, whose column keeps times at its own precision. */
    method Consumption(id: GoString, readFails: bool) returns (r: Result<Option<Consumption>, ReadError>)
      requires db.Valid()
      ensures r == if readFails then Err(ReadFailed) else Ok(AsKept(Recall(Replay(db.state.history), id), keep))
      ensures r.Ok? ==> (r.value.Some? <==> id in Replay(db.state.history).consumed)
      ensures r.Ok? && r.value.Some? ==>
        var rec := Replay(db.state.history).consumed[id];
        r.value.value == rec.(consumedAt := keep(rec.consumedAt))
    {
      if readFails {
        return Err(ReadFailed);
      }
      RefinesSerialStore(db.run);
      return Ok(AsKept(Lookup(db.state, id), keep));
    }
  }

  /** What a reader finds once a call has returned, and for as long as the run goes on: the very
      record of a call that was consumed, and some record where a call was refused. */
  lemma VerdictIsEvidenced(run: seq<Label>, a: Session)
    requires Legal(INIT, run) && a in After(INIT, run).attempts && After(INIT, run).attempts[a].phase.Done?
    ensures var s := After(INIT, run); var t := s.attempts[a];
      && (t.phase.verdict == Returned(Consumed) ==> Lookup(s, t.rec.id) == Some(t.rec))
      && (t.phase.verdict == Returned(AlreadyConsumed) ==> Lookup(s, t.rec.id).Some?)
  {
    if Told(After(INIT, run), a, Consumed) {
      CommittedIsRecorded(run, a);
    } else if Told(After(INIT, run), a, AlreadyConsumed) {
      RefusedIsRecorded(run, a);
    }
  }

  lemma CommittedIsRecorded(run: seq<Label>, a: Session)
    requires Legal(INIT, run) && Told(After(INIT, run), a, Consumed)
    ensures var s := After(INIT, run); Lookup(s, s.attempts[a].rec.id) == Some(s.attempts[a].rec)
  {
    Reached(run);
    var s := After(INIT, run);
    ToldIsSettled(s, a, Consumed);
    var i :| 0 <= i < |s.history| && s.history[i] == Call(a, s.attempts[a].rec, s.attempts[a].effect, Consumed);
    assert SpentAt(s.history, i, s.attempts[a].rec.id);
    SpenderIsRecorded(s.history, i, s.attempts[a].rec.id);
    LookupIsRecall(s, Replay(s.history), s.attempts[a].rec.id);
  }

  lemma RefusedIsRecorded(run: seq<Label>, a: Session)
    requires Legal(INIT, run) && Told(After(INIT, run), a, AlreadyConsumed)
    ensures var s := After(INIT, run); Lookup(s, s.attempts[a].rec.id).Some?
  {
    var b := ReplayOnlyAfterCommit(run, a);
    CommittedIsRecorded(run, b);
  }
}
