/** modules/boundedauth/postgres/postgres.go: any number of Consume calls, each driving one
    transaction, interleaved step by step over a table with a primary key on the credential ID.

    A step is one thing the database or a caller does. The order of the steps is arbitrary: the
    theorems quantify over every sequence of labels whose guards hold. */
module PostgresSteps {
  import opened Wrappers
  import opened LengthPrefix
  import opened Store

  /** One Consume call and the transaction it opened. */
  type Session = nat

  /** What can end a call other than the contract's own outcomes: an error of the database, or a
      panic of the effect after so many writes. None of them commits anything. */
  datatype Fault = BeginFailed | RecordFailed | CommitFailed | EffectPanicked(after: nat)

  datatype Verdict = Returned(outcome: Outcome) | Faulted(fault: Fault)

  /** Where a call is in Consume. */
  datatype Phase =
    | Inserting                       // the INSERT is running, or waiting for another transaction
    | InEffect(next: nat)             // the row is in; the effect has made this many writes
    | Committing                      // the effect returned nil
    | RollingBack(verdict: Verdict)   // returning or unwinding; the deferred Rollback has not run yet
    | Done(verdict: Verdict)

  datatype Attempt = Attempt(rec: Consumption, effect: Effect, phase: Phase, pending: map<string, seq<Byte>>)

  /** A row version, kept with the transaction that wrote it; an aborted one is never removed. */
  datatype Row = Row(rec: Consumption, owner: Session)

  datatype State = State(
    rows: seq<Row>,
    tables: map<string, seq<Byte>>,    // committed contents of every other table
    attempts: map<Session, Attempt>,
    history: seq<Call>)                // calls in the order they took effect

  const INIT := State([], map[], map[], [])

  datatype Label =
    | Begin(a: Session, rec: Consumption, effect: Effect)
    | BeginFails(a: Session, rec: Consumption, effect: Effect)
    | Insert(a: Session)
    | Violate(a: Session)
    | RecordFails(a: Session)
    | DoWrite(a: Session)
    | EffectReturns(a: Session)
    | EffectPanics(a: Session)
    | Commit(a: Session)
    | CommitFails(a: Session)
    | Rollback(a: Session)

  // ----- what the database decides -----

  predicate CommittedRow(s: State, r: Row) {
    r.owner in s.attempts && s.attempts[r.owner].phase == Done(Returned(Consumed))
  }

  /** Written by a transaction that has not ended yet. */
  predicate OpenRow(s: State, r: Row) {
    r.owner in s.attempts && !s.attempts[r.owner].phase.Done?
  }

  predicate LiveRow(s: State, r: Row) {
    OpenRow(s, r) || CommittedRow(s, r)
  }

  /** The unique index refuses a key held by a committed row. */
  predicate Violates(s: State, id: GoString) {
    exists i :: 0 <= i < |s.rows| && s.rows[i].rec.id == id && CommittedRow(s, s.rows[i])
  }

  /** An insert proceeds only past dead rows; it waits for a row of an open transaction. */
  predicate KeyFree(s: State, id: GoString) {
    forall i :: 0 <= i < |s.rows| && s.rows[i].rec.id == id ==> !LiveRow(s, s.rows[i])
  }

  predicate Enabled(s: State, l: Label) {
    match l
    case Begin(a, _, _) => a !in s.attempts
    case BeginFails(a, _, _) => a !in s.attempts
    case Insert(a) => a in s.attempts && s.attempts[a].phase.Inserting? && KeyFree(s, s.attempts[a].rec.id)
    case Violate(a) => a in s.attempts && s.attempts[a].phase.Inserting? && Violates(s, s.attempts[a].rec.id)
    case RecordFails(a) => a in s.attempts && s.attempts[a].phase.Inserting?
    case DoWrite(a) =>
      a in s.attempts && s.attempts[a].phase.InEffect? && s.attempts[a].phase.next < |s.attempts[a].effect.writes|
    case EffectReturns(a) =>
      a in s.attempts && s.attempts[a].phase.InEffect? && s.attempts[a].phase.next == |s.attempts[a].effect.writes|
    case EffectPanics(a) => a in s.attempts && s.attempts[a].phase.InEffect?
    case Commit(a) => a in s.attempts && s.attempts[a].phase.Committing?
    case CommitFails(a) => a in s.attempts && s.attempts[a].phase.Committing?
    case Rollback(a) => a in s.attempts && s.attempts[a].phase.RollingBack?
  }

  function Moved(s: State, a: Session, phase: Phase): State
    requires a in s.attempts
  {
    s.(attempts := s.attempts[a := s.attempts[a].(phase := phase)])
  }

  function Settled(s: State, a: Session, outcome: Outcome): seq<Call>
    requires a in s.attempts
  {
    s.history + [Call(a, s.attempts[a].rec, s.attempts[a].effect, outcome)]
  }

  function Next(s: State, l: Label): State
    requires Enabled(s, l)
  {
    match l
    case Begin(a, rec, effect) =>
      s.(attempts := s.attempts[a := Attempt(rec, effect, Inserting, map[])])
    case BeginFails(a, rec, effect) =>
      s.(attempts := s.attempts[a := Attempt(rec, effect, Done(Faulted(BeginFailed)), map[])])
    case Insert(a) =>
      Moved(s, a, InEffect(0)).(rows := s.rows + [Row(s.attempts[a].rec, a)])
    case Violate(a) =>
      Moved(s, a, RollingBack(Returned(AlreadyConsumed))).(history := Settled(s, a, AlreadyConsumed))
    case RecordFails(a) => Moved(s, a, RollingBack(Faulted(RecordFailed)))
    case DoWrite(a) =>
      var t := s.attempts[a];
      var w := t.effect.writes[t.phase.next];
      s.(attempts := s.attempts[a := t.(phase := InEffect(t.phase.next + 1), pending := t.pending[w.key := w.value])])
    case EffectReturns(a) =>
      (match s.attempts[a].effect.failure
       case None => Moved(s, a, Committing)
       case Some(cause) =>
         Moved(s, a, RollingBack(Returned(EffectFailed(cause)))).(history := Settled(s, a, EffectFailed(cause))))
    case EffectPanics(a) => Moved(s, a, RollingBack(Faulted(EffectPanicked(s.attempts[a].phase.next))))
    case Commit(a) =>
      Moved(s, a, Done(Returned(Consumed))).(
        tables := s.tables + s.attempts[a].pending,
        history := Settled(s, a, Consumed))
    case CommitFails(a) => Moved(s, a, RollingBack(Faulted(CommitFailed)))
    case Rollback(a) =>
      s.(attempts := s.attempts[a := s.attempts[a].(phase := Done(s.attempts[a].phase.verdict), pending := map[])])
  }

  ghost predicate Legal(s: State, run: seq<Label>)
    decreases run
  {
    run == [] || (Enabled(s, run[0]) && Legal(Next(s, run[0]), run[1..]))
  }

  ghost function After(s: State, run: seq<Label>): State
    requires Legal(s, run)
    decreases run
  {
    if run == [] then s else After(Next(s, run[0]), run[1..])
  }

  // ----- what a reader outside any transaction sees -----

  /** SELECT ... WHERE jti = id. */
  function Lookup(s: State, id: GoString): Option<Consumption> {
    LookupIn(s, s.rows, id)
  }

  function LookupIn(s: State, rows: seq<Row>, id: GoString): Option<Consumption> {
    if rows == [] then None
    else if rows[0].rec.id == id && CommittedRow(s, rows[0]) then Some(rows[0].rec)
    else LookupIn(s, rows[1..], id)
  }

  // ----- the invariant -----

  predicate HoldsRow(p: Phase) {
    match p
    case Inserting => false
    case InEffect(_) => true
    case Committing => true
    case RollingBack(v) => PastInsert(v)
    case Done(v) => PastInsert(v)
  }

  /** The verdicts a call can reach only after its insert. */
  predicate PastInsert(v: Verdict) {
    match v
    case Returned(outcome) => outcome != AlreadyConsumed
    case Faulted(fault) => fault.CommitFailed? || fault.EffectPanicked?
  }

  /** Each row was written by the transaction it names, which had got past its insert. */
  ghost predicate RowsOwned(s: State) {
    forall i :: 0 <= i < |s.rows| ==>
      && s.rows[i].owner in s.attempts
      && s.rows[i].rec == s.attempts[s.rows[i].owner].rec
      && HoldsRow(s.attempts[s.rows[i].owner].phase)
  }

  ghost predicate HasRow(s: State, a: Session) {
    exists i :: 0 <= i < |s.rows| && s.rows[i].owner == a
  }

  ghost predicate HoldersHaveRows(s: State) {
    forall a :: a in s.attempts && HoldsRow(s.attempts[a].phase) ==> HasRow(s, a)
  }

  /** The primary key: of the rows with one ID, at most one is live. */
  ghost predicate KeyUnique(s: State) {
    forall i, j :: 0 <= i < j < |s.rows| && s.rows[i].rec.id == s.rows[j].rec.id ==>
      !(LiveRow(s, s.rows[i]) && LiveRow(s, s.rows[j]))
  }

  /** A call runs its effect on its own transaction and never rolls back after committing. */
  predicate Faithful(t: Attempt) {
    match t.phase
    case Inserting => t.pending == map[]
    case InEffect(n) => n <= |t.effect.writes| && t.pending == Staged(t.effect.writes[..n])
    case Committing => t.pending == Staged(t.effect.writes) && t.effect.failure == None
    case RollingBack(v) => v != Returned(Consumed)
    case _ => true
  }

  ghost predicate AttemptsFaithful(s: State) {
    forall a :: a in s.attempts ==> Faithful(s.attempts[a])
  }

  function VerdictOf(p: Phase): Option<Verdict> {
    match p
    case RollingBack(v) => Some(v)
    case Done(v) => Some(v)
    case _ => None
  }

  predicate OwnVerdict(p: Phase) {
    VerdictOf(p).Some? && VerdictOf(p).value.Returned?
  }

  predicate Recorded(s: State, c: Call) {
    && c.caller in s.attempts
    && s.attempts[c.caller].rec == c.rec && s.attempts[c.caller].effect == c.effect
    && VerdictOf(s.attempts[c.caller].phase) == Some(Returned(c.outcome))
  }

  ghost predicate InHistory(s: State, a: Session) {
    exists i :: 0 <= i < |s.history| && s.history[i].caller == a
  }

  /** A call is in the history exactly once if it has a verdict of its own, and not otherwise. */
  ghost predicate HistoryMatches(s: State) {
    && (forall i :: 0 <= i < |s.history| ==> Recorded(s, s.history[i]))
    && (forall i, j :: 0 <= i < j < |s.history| ==> s.history[i].caller != s.history[j].caller)
    && (forall a :: a in s.attempts && OwnVerdict(s.attempts[a].phase) ==> InHistory(s, a))
  }

  ghost predicate CommittedRowsRecorded(s: State, d: Durable) {
    forall i :: 0 <= i < |s.rows| && CommittedRow(s, s.rows[i]) ==>
      s.rows[i].rec.id in d.consumed && d.consumed[s.rows[i].rec.id] == s.rows[i].rec
  }

  ghost predicate RecordsHaveCommittedRows(s: State, d: Durable) {
    forall id :: id in d.consumed ==> Violates(s, id)
  }

  /** The abstraction: the serial store holds what the database shows. */
  ghost predicate Shows(s: State, d: Durable) {
    d.committed == s.tables && CommittedRowsRecorded(s, d) && RecordsHaveCommittedRows(s, d)
  }

  ghost predicate Agrees(s: State) {
    Serial(s.history) && Shows(s, Replay(s.history))
  }

  ghost predicate Inv(s: State) {
    RowsOwned(s) && HoldersHaveRows(s) && KeyUnique(s) && AttemptsFaithful(s) && HistoryMatches(s) && Agrees(s)
  }

  // ----- every step keeps it -----

  /** What a step of session a leaves alone, and how its own attempt moves. */
  ghost predicate Framed(s: State, t: State, a: Session) {
    OthersKept(s, t, a) && OwnMove(s, t, a)
  }

  ghost predicate OthersKept(s: State, t: State, a: Session) {
    && (forall x :: x in s.attempts && x != a ==> x in t.attempts && t.attempts[x] == s.attempts[x])
    && (forall x :: x in t.attempts && x != a ==> x in s.attempts)
  }

  ghost predicate OwnMove(s: State, t: State, a: Session) {
    && a in t.attempts
    && (a in s.attempts ==> Moves(s.attempts[a], t.attempts[a]))
    && (a !in s.attempts ==> !HoldsRow(t.attempts[a].phase) && !OwnVerdict(t.attempts[a].phase))
    && (t.rows == s.rows || t.rows == s.rows + [Row(t.attempts[a].rec, a)])
    && (t.rows != s.rows ==> a in s.attempts && HoldsRow(t.attempts[a].phase))
    && (HoldsRow(t.attempts[a].phase) && t.rows == s.rows ==> a in s.attempts && HoldsRow(s.attempts[a].phase))
  }

  predicate Moves(x: Attempt, y: Attempt) {
    && !x.phase.Done? && y.rec == x.rec && y.effect == x.effect
    && (HoldsRow(x.phase) ==> HoldsRow(y.phase))
    && (VerdictOf(x.phase).Some? ==> VerdictOf(y.phase) == VerdictOf(x.phase))
  }

  /** The history grows exactly when an attempt gets a verdict of its own. */
  ghost predicate Logged(s: State, t: State, a: Session) {
    if a in s.attempts && !OwnVerdict(s.attempts[a].phase) && a in t.attempts && OwnVerdict(t.attempts[a].phase) then
      var y := t.attempts[a];
      t.history == s.history + [Call(a, y.rec, y.effect, VerdictOf(y.phase).value.outcome)]
    else
      t.history == s.history
  }

  lemma Frame(s: State, l: Label)
    requires Enabled(s, l)
    ensures Framed(s, Next(s, l), l.a) && Logged(s, Next(s, l), l.a)
  {
    OthersHold(s, l);
    OwnHolds(s, l);
    LogHolds(s, l);
  }

  lemma OthersHold(s: State, l: Label)
    requires Enabled(s, l)
    ensures OthersKept(s, Next(s, l), l.a)
  {
  }

  lemma OwnHolds(s: State, l: Label)
    requires Enabled(s, l)
    ensures OwnMove(s, Next(s, l), l.a)
  {
  }

  lemma LogHolds(s: State, l: Label)
    requires Enabled(s, l)
    ensures Logged(s, Next(s, l), l.a)
  {
  }

  lemma RowsStep(s: State, t: State, a: Session)
    requires RowsOwned(s) && HoldersHaveRows(s) && Framed(s, t, a)
    ensures RowsOwned(t) && HoldersHaveRows(t)
  {
    forall x | x in t.attempts && HoldsRow(t.attempts[x].phase) ensures HasRow(t, x) {
      if x == a && t.rows != s.rows {
        assert t.rows[|s.rows|].owner == x;
      } else {
        assert HasRow(s, x);
        var i :| 0 <= i < |s.rows| && s.rows[i].owner == x;
        assert t.rows[i] == s.rows[i];
      }
    }
  }

  /** A row can only become live by being inserted. */
  lemma LiveBefore(s: State, t: State, a: Session, r: Row)
    requires Framed(s, t, a) && r.owner in s.attempts && LiveRow(t, r)
    ensures LiveRow(s, r)
  {
  }

  lemma KeyStep(s: State, l: Label)
    requires RowsOwned(s) && KeyUnique(s) && Enabled(s, l)
    ensures KeyUnique(Next(s, l))
  {
    var t := Next(s, l);
    Frame(s, l);
    forall i, j | 0 <= i < j < |t.rows| && t.rows[i].rec.id == t.rows[j].rec.id
      ensures !(LiveRow(t, t.rows[i]) && LiveRow(t, t.rows[j]))
    {
      assert s.rows[i] == t.rows[i] && s.rows[i].owner in s.attempts;
      if LiveRow(t, t.rows[i]) {
        LiveBefore(s, t, l.a, t.rows[i]);
        if j < |s.rows| {
          assert s.rows[j] == t.rows[j] && s.rows[j].owner in s.attempts;
          if LiveRow(t, t.rows[j]) {
            LiveBefore(s, t, l.a, t.rows[j]);
          }
        }
      }
    }
  }

  lemma AttemptStep(s: State, l: Label)
    requires AttemptsFaithful(s) && Enabled(s, l)
    ensures AttemptsFaithful(Next(s, l))
  {
    if l.a in s.attempts {
      assert Faithful(s.attempts[l.a]);
      var w := s.attempts[l.a].effect.writes;
      assert w[..|w|] == w && w[..0] == [];
      if l.DoWrite? {
        var n := s.attempts[l.a].phase.next;
        assert w[..n + 1][..n] == w[..n];
        assert Staged(w[..n + 1]) == Staged(w[..n])[w[n].key := w[n].value];
      }
    }
    forall a | a in Next(s, l).attempts ensures Faithful(Next(s, l).attempts[a]) {
      assert a != l.a ==> Faithful(s.attempts[a]);
    }
  }

  lemma HistoryStep(s: State, t: State, a: Session)
    requires HistoryMatches(s) && Framed(s, t, a) && Logged(s, t, a)
    ensures HistoryMatches(t) && s.history <= t.history
  {
    forall i | 0 <= i < |t.history| ensures Recorded(t, t.history[i]) {
      if i < |s.history| {
        assert Recorded(s, s.history[i]);
      }
    }
    forall x | x in t.attempts && OwnVerdict(t.attempts[x].phase) ensures InHistory(t, x) {
      if x in s.attempts && OwnVerdict(s.attempts[x].phase) {
        assert InHistory(s, x);
        var i :| 0 <= i < |s.history| && s.history[i].caller == x;
        assert t.history[i].caller == x;
      } else {
        assert t.history[|s.history|].caller == x;
      }
    }
    if |t.history| > |s.history| {
      forall i | 0 <= i < |s.history| ensures s.history[i].caller != a {
        assert Recorded(s, s.history[i]);
      }
    }
  }

  /** While a transaction holds the row for an ID, no committed row has that ID. */
  lemma HeldKeyIsUnspent(s: State, a: Session)
    requires Inv(s) && a in s.attempts
    requires HoldsRow(s.attempts[a].phase) && !s.attempts[a].phase.Done?
    ensures s.attempts[a].rec.id !in Replay(s.history).consumed
  {
    var id := s.attempts[a].rec.id;
    assert HasRow(s, a);
    var i :| 0 <= i < |s.rows| && s.rows[i].owner == a;
    assert s.rows[i].rec.id == id && LiveRow(s, s.rows[i]);
    if id in Replay(s.history).consumed {
      assert Violates(s, id);
      var j :| 0 <= j < |s.rows| && s.rows[j].rec.id == id && CommittedRow(s, s.rows[j]);
      assert LiveRow(s, s.rows[j]) && i != j;
      assert false;
    }
  }

  /** Each verdict is the one the serial store would give at that point. */
  lemma SettledAsSerial(s: State, l: Label)
    requires Inv(s) && Enabled(s, l)
    requires |Next(s, l).history| > |s.history|
    ensures var c := Next(s, l).history[|s.history|];
      && Next(s, l).history == s.history + [c]
      && c.outcome == Spend(Replay(s.history), c.rec, c.effect).1
  {
    match l
    case Violate(a) =>
      var id := s.attempts[a].rec.id;
      var i :| 0 <= i < |s.rows| && s.rows[i].rec.id == id && CommittedRow(s, s.rows[i]);
      assert id in Replay(s.history).consumed;
    case EffectReturns(a) =>
      HeldKeyIsUnspent(s, a);
    case Commit(a) =>
      HeldKeyIsUnspent(s, a);
      assert Faithful(s.attempts[a]);
  }

  /** Away from a commit, the committed rows are those there were. */
  lemma CommittedRowsStay(s: State, t: State, a: Session, i: nat)
    requires RowsOwned(s) && Framed(s, t, a) && i < |t.rows|
    requires t.attempts[a].phase != Done(Returned(Consumed))
    ensures CommittedRow(t, t.rows[i]) <==> i < |s.rows| && CommittedRow(s, s.rows[i])
    ensures i < |s.rows| ==> t.rows[i] == s.rows[i]
  {
    if i < |s.rows| {
      assert s.rows[i].owner in s.attempts;
    }
  }

  lemma QuietStepShows(s: State, t: State, a: Session, d: Durable)
    requires RowsOwned(s) && Shows(s, d) && Framed(s, t, a) && t.tables == s.tables
    requires t.attempts[a].phase != Done(Returned(Consumed))
    ensures Shows(t, d)
  {
    forall i | 0 <= i < |t.rows| && CommittedRow(t, t.rows[i])
      ensures t.rows[i].rec.id in d.consumed && d.consumed[t.rows[i].rec.id] == t.rows[i].rec
    {
      CommittedRowsStay(s, t, a, i);
    }
    forall id | id in d.consumed ensures Violates(t, id) {
      assert Violates(s, id);
      var i :| 0 <= i < |s.rows| && s.rows[i].rec.id == id && CommittedRow(s, s.rows[i]);
      CommittedRowsStay(s, t, a, i);
    }
  }

  lemma CommitRecords(s: State, t: State, a: Session, d: Durable)
    requires RowsOwned(s) && CommittedRowsRecorded(s, d) && Framed(s, t, a) && t.rows == s.rows
    requires a in s.attempts && s.attempts[a].rec.id !in d.consumed
    ensures CommittedRowsRecorded(t, d.(consumed := d.consumed[s.attempts[a].rec.id := s.attempts[a].rec]))
  {
    forall i | 0 <= i < |t.rows| && CommittedRow(t, t.rows[i]) && t.rows[i].owner != a
      ensures CommittedRow(s, s.rows[i])
    {
    }
  }

  lemma CommitHasRow(s: State, t: State, a: Session, d: Durable)
    requires RowsOwned(s) && RecordsHaveCommittedRows(s, d) && Framed(s, t, a) && t.rows == s.rows
    requires HasRow(s, a) && a in s.attempts && t.attempts[a].phase == Done(Returned(Consumed))
    ensures RecordsHaveCommittedRows(t, d.(consumed := d.consumed[s.attempts[a].rec.id := s.attempts[a].rec]))
  {
    var rec := s.attempts[a].rec;
    var k :| 0 <= k < |s.rows| && s.rows[k].owner == a;
    assert t.rows[k].rec == rec && CommittedRow(t, t.rows[k]);
    forall id | id in d.consumed ensures Violates(t, id) {
      assert Violates(s, id);
      var i :| 0 <= i < |s.rows| && s.rows[i].rec.id == id && CommittedRow(s, s.rows[i]);
      assert CommittedRow(t, t.rows[i]);
    }
  }

  /** A step that is not a commit leaves what a reader sees, and the serial store, as they were. */
  lemma QuietAgrees(s: State, t: State, a: Session)
    requires RowsOwned(s) && Agrees(s) && Framed(s, t, a) && t.tables == s.tables
    requires t.attempts[a].phase != Done(Returned(Consumed))
    requires Serial(t.history) && Replay(t.history) == Replay(s.history)
    ensures Agrees(t)
  {
    QuietStepShows(s, t, a, Replay(s.history));
  }

  lemma CommitAgrees(s: State, a: Session)
    requires Inv(s) && Enabled(s, Commit(a))
    ensures Agrees(Next(s, Commit(a)))
  {
    var t := Next(s, Commit(a));
    var d := Replay(s.history);
    Frame(s, Commit(a));
    SettledAsSerial(s, Commit(a));
    SerialAppend(s.history, t.history[|s.history|]);
    HeldKeyIsUnspent(s, a);
    assert Faithful(s.attempts[a]);
    assert HasRow(s, a);
    CommitRecords(s, t, a, d);
    CommitHasRow(s, t, a, d);
  }

  /** A refused or failed call joins the history without changing what the serial store holds. */
  lemma QuietHistory(s: State, l: Label)
    requires Inv(s) && Enabled(s, l) && !l.Commit?
    ensures Serial(Next(s, l).history) && Replay(Next(s, l).history) == Replay(s.history)
  {
    var h := Next(s, l).history;
    if h != s.history {
      QuietCall(s, l);
      SettledAsSerial(s, l);
      QuietAppend(s.history, h[|s.history|]);
    }
  }

  lemma QuietCall(s: State, l: Label)
    requires Enabled(s, l) && !l.Commit? && Next(s, l).history != s.history
    ensures |Next(s, l).history| == |s.history| + 1
    ensures Next(s, l).history[|s.history|].outcome != Consumed
  {
  }

  lemma OnlyCommitCommits(s: State, l: Label)
    requires AttemptsFaithful(s) && Enabled(s, l) && !l.Commit?
    ensures Next(s, l).attempts[l.a].phase != Done(Returned(Consumed)) && Next(s, l).tables == s.tables
  {
    assert l.a in s.attempts ==> Faithful(s.attempts[l.a]);
  }

  lemma AgreesStep(s: State, l: Label)
    requires Inv(s) && Enabled(s, l)
    ensures Agrees(Next(s, l))
  {
    if l.Commit? {
      CommitAgrees(s, l.a);
    } else {
      Frame(s, l);
      QuietHistory(s, l);
      OnlyCommitCommits(s, l);
      QuietAgrees(s, Next(s, l), l.a);
    }
  }

  lemma Step(s: State, l: Label)
    requires Inv(s) && Enabled(s, l)
    ensures Inv(Next(s, l)) && s.history <= Next(s, l).history
  {
    Frame(s, l);
    RowsStep(s, Next(s, l), l.a);
    KeyStep(s, l);
    AttemptStep(s, l);
    HistoryStep(s, Next(s, l), l.a);
    AgreesStep(s, l);
  }

  lemma {:induction false} Run(s: State, run: seq<Label>)
    requires Inv(s) && Legal(s, run)
    ensures Inv(After(s, run)) && s.history <= After(s, run).history
    decreases run
  {
    if run != [] {
      Step(s, run[0]);
      Run(Next(s, run[0]), run[1..]);
    }
  }

  lemma InitInv()
    ensures Inv(INIT)
  {
  }
}
