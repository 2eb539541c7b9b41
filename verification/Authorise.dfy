/** modules/boundedauth/store.go, Authorise: verify a credential against the exact transaction, then
    spend it atomically with the effect it authorises. First over either store; then the whole
    system, in which issuers mint, anyone presents anything, and PostgreSQL interleaves the rest. */
module Authorise {
  import opened Wrappers
  import opened LengthPrefix
  import opened Base64Url
  import opened Credential
  import opened Authority
  import opened Store
  import opened PostgresSteps
  import opened Linearisation
  import MemoryStore
  import PostgresStore

  function RecordFor(p: Payload, want: Binding, at: int): Consumption {
    Consumption(p.id, p.issuer, p.subject, p.how, p.binding, want.reference, at)
  }

  /** The record repeats what the payload says: who, by which issuer, how, and for what. */
  predicate Cites(rec: Consumption, p: Payload) {
    && rec.id == p.id && rec.issuer == p.issuer && rec.subject == p.subject
    && rec.how == p.how && rec.binding == p.binding
  }

  /** The stores a host may pass. A call on PostgreSQL is a session of its own, and may meet a fault. */
  datatype AnyStore =
    | Memory(memory: MemoryStore.MemoryStore)
    | Postgres(postgres: PostgresStore.PostgresStore, session: Session, fault: Option<Fault>)
  {
    function Frame(): set<object> {
      if Memory? then {memory} else {postgres.db}
    }

    ghost predicate Ready()
      reads Frame()
    {
      Postgres? ==> postgres.db.Valid() && session !in postgres.db.state.attempts
    }
  }

  datatype Refusal = NotVerified(error: Error) | NotSpent(verdict: PostgresSteps.Verdict)

  method Consume(store: AnyStore, rec: Consumption, effect: Effect) returns (v: PostgresSteps.Verdict)
    requires store.Ready()
    modifies store.Frame()
    ensures store.Memory? ==>
      && (store.memory.Durably(), v) == Serially(old(store.memory.Durably()), rec, effect)
      && store.memory.effectsRun == old(store.memory.effectsRun)
        + if rec.id in old(store.memory.consumed) then [] else [effect]
    ensures store.Postgres? ==> SpentBy(store.postgres.db, store.session, rec, effect, v)
  {
    match store
    case Memory(memory) =>
      var outcome := memory.Consume(rec, effect);
      v := Returned(outcome);
    case Postgres(postgres, session, fault) =>
      v := postgres.Consume(session, rec, effect, fault);
  }

  function Serially(d: Durable, rec: Consumption, effect: Effect): (Durable, PostgresSteps.Verdict) {
    (Spend(d, rec, effect).0, Returned(Spend(d, rec, effect).1))
  }

  /** The call went down the path of its verdict, on this record and this effect. */
  twostate predicate SpentBy(db: PostgresStore.Database, a: Session, rec: Consumption, effect: Effect,
                             v: PostgresSteps.Verdict)
    reads db
  {
    && db.Valid() && a in db.state.attempts
    && db.state.attempts[a].rec == rec && db.state.attempts[a].effect == effect && db.state.attempts[a].phase == Done(v)
    && PostgresStore.StepsOf(db.run, a) == PostgresStore.StepsOf(old(db.run), a) + PostgresStore.Path(a, rec, effect, v)
  }

  /** A credential that does not verify leaves either store as it was; one that does is spent under
      the store's own guarantee, on the record the effect was given, and accepted only if it was. */
  method Authorise(s: Scheme, v: Verifier, store: AnyStore, credential: string, want: Binding,
                   effect: Consumption -> Effect, verifiedAt: int, consumedAt: int)
    returns (r: Result<Consumption, Refusal>)
    requires store.Ready()
    modifies store.Frame()
    ensures r.Err? && r.error.NotVerified? <==> Verify(s, v, credential, want, verifiedAt).Err?
    ensures Verify(s, v, credential, want, verifiedAt).Err? ==>
      && r.error.error == Verify(s, v, credential, want, verifiedAt).error
      && (store.Memory? ==> store.memory.Durably() == old(store.memory.Durably())
                            && store.memory.effectsRun == old(store.memory.effectsRun))
      && (store.Postgres? ==> store.postgres.db.state == old(store.postgres.db.state)
                              && store.postgres.db.run == old(store.postgres.db.run))
    ensures Verify(s, v, credential, want, verifiedAt).Ok? ==>
      var rec := RecordFor(Verify(s, v, credential, want, verifiedAt).value, want, consumedAt);
      var verdict := if r.Ok? then Returned(Consumed) else r.error.verdict;
      && Cites(rec, Verify(s, v, credential, want, verifiedAt).value)
      && rec.reference == want.reference && rec.consumedAt == consumedAt
      && (r.Ok? ==> r.value == rec) && (r.Err? ==> verdict != Returned(Consumed))
      && (store.Memory? ==>
            && (store.memory.Durably(), verdict) == Serially(old(store.memory.Durably()), rec, effect(rec))
            && store.memory.effectsRun == old(store.memory.effectsRun)
              + if rec.id in old(store.memory.consumed) then [] else [effect(rec)])
      && (store.Postgres? ==> SpentBy(store.postgres.db, store.session, rec, effect(rec), verdict))
  {
    var verified := Verify(s, v, credential, want, verifiedAt);
    if verified.Err? {
      return Err(NotVerified(verified.error));
    }
    var rec := RecordFor(verified.value, want, consumedAt);
    var verdict := Consume(store, rec, effect(rec));
    if verdict != Returned(Consumed) {
      return Err(NotSpent(verdict));
    }
    return Ok(rec);
  }

  // ----- the whole system -----

  /** A payload some issuer has signed. */
  datatype Minted = Minted(issuer: Issuer, payload: Payload)

  datatype Presentation = Presentation(
    credential: string, want: Binding, effect: Consumption -> Effect, verifiedAt: int, consumedAt: int)

  /** The parties: the primitives, one verifier, and the public keys whose private halves are used
      by someone other than an issuer minting under its own name. */
  datatype Parties = Parties(scheme: Scheme, verifier: Verifier, compromised: set<GoString>)

  datatype World = World(minted: seq<Minted>, presented: map<Session, Presentation>, steps: seq<Label>, db: State)

  const START := World([], map[], [], INIT)

  datatype Action =
    | MintOne(issuer: Issuer, payload: Payload)
    | Present(a: Session, p: Presentation, beginFails: bool)
    | Database(l: Label)

  ghost predicate Signed(x: Parties, w: World, pub: GoString, encoded: string) {
    exists i :: 0 <= i < |w.minted|
      && x.scheme.publicKey(w.minted[i].issuer.key) == pub
      && encoded == EncodedPayload(x.scheme, w.minted[i].payload)
  }

  /** Unforgeability: a signature that checks under a key nobody has compromised was made by
      minting. The credential is otherwise an arbitrary string. */
  ghost predicate NotForged(x: Parties, w: World, credential: string) {
    forall pub :: pub !in x.compromised && Checks(x.scheme, pub, credential)
      ==> Signed(x, w, pub, Cut(credential).value.0)
  }

  predicate Checks(s: Scheme, pub: GoString, credential: string) {
    && Cut(credential).Some? && DecodeRawUrl(Cut(credential).value.1).Some?
    && s.checks(pub, Cut(credential).value.0, DecodeRawUrl(Cut(credential).value.1).value)
  }

  function Verdict(x: Parties, p: Presentation): Result<Payload, Error> {
    Verify(x.scheme, x.verifier, p.credential, p.want, p.verifiedAt)
  }

  function Rec(x: Parties, p: Presentation): Consumption
    requires Verdict(x, p).Ok?
  {
    RecordFor(Verdict(x, p).value, p.want, p.consumedAt)
  }

  /** The statement with which an accepted presentation enters the database. */
  function Opening(x: Parties, act: Action): Label
    requires act.Present? && Verdict(x, act.p).Ok?
  {
    var rec := Rec(x, act.p);
    if act.beginFails then BeginFails(act.a, rec, act.p.effect(rec)) else Begin(act.a, rec, act.p.effect(rec))
  }

  ghost predicate CanAct(x: Parties, w: World, act: Action) {
    match act
    case MintOne(i, p) => Mint(x.scheme, i, p).Ok? && x.scheme.Utf8Payload(Filled(i, p))
    case Present(a, p, _) => a !in w.presented && a !in w.db.attempts && NotForged(x, w, p.credential)
    case Database(l) => !l.Begin? && !l.BeginFails? && Enabled(w.db, l)
  }

  ghost function Act(x: Parties, w: World, act: Action): World
    requires CanAct(x, w, act)
  {
    match act
    case MintOne(i, p) => w.(minted := w.minted + [Minted(i, Filled(i, p))])
    case Present(a, p, _) =>
      var seen := w.(presented := w.presented[a := p]);
      if Verdict(x, p).Err? then seen
      else seen.(db := Next(w.db, Opening(x, act)), steps := w.steps + [Opening(x, act)])
    case Database(l) => w.(db := Next(w.db, l), steps := w.steps + [l])
  }

  ghost predicate CanRun(x: Parties, w: World, acts: seq<Action>)
    decreases acts
  {
    acts == [] || (CanAct(x, w, acts[0]) && CanRun(x, Act(x, w, acts[0]), acts[1..]))
  }

  ghost function Finally(x: Parties, w: World, acts: seq<Action>): World
    requires CanRun(x, w, acts)
    decreases acts
  {
    if acts == [] then w else Finally(x, Act(x, w, acts[0]), acts[1..])
  }

  // ----- what holds throughout -----

  ghost predicate MintedAs(w: World, p: Payload) {
    exists i :: 0 <= i < |w.minted| && w.minted[i].payload == p && w.minted[i].issuer.name == p.issuer
  }

  /** Every call that reached the database was made by an accepted presentation, on its record and
      its effect; and unless the issuer's key is compromised, the issuer signed that payload. */
  ghost predicate Authorised(x: Parties, w: World, a: Session) {
    && a in w.presented && a in w.db.attempts
    && Verdict(x, w.presented[a]).Ok?
    && w.db.attempts[a].rec == Rec(x, w.presented[a])
    && w.db.attempts[a].effect == w.presented[a].effect(Rec(x, w.presented[a]))
    && Attributable(x, w, Verdict(x, w.presented[a]).value)
  }

  ghost predicate Attributable(x: Parties, w: World, p: Payload) {
    && p.issuer in x.verifier.trusted
    && (x.verifier.trusted[p.issuer] !in x.compromised ==> MintedAs(w, p))
  }

  ghost predicate MintedProperly(x: Parties, w: World) {
    forall i :: 0 <= i < |w.minted| ==>
      x.scheme.Utf8Payload(w.minted[i].payload) && w.minted[i].payload.issuer == w.minted[i].issuer.name
  }

  ghost predicate Sound(x: Parties, w: World) {
    && Legal(INIT, w.steps) && After(INIT, w.steps) == w.db
    && MintedProperly(x, w)
    && (forall a :: a in w.db.attempts ==> Authorised(x, w, a))
  }

  /** An accepted credential carries a payload its issuer minted. */
  lemma AcceptedWasMinted(x: Parties, w: World, p: Presentation)
    requires x.scheme.CodecRoundTrips() && MintedProperly(x, w) && NotForged(x, w, p.credential)
    requires Verdict(x, p).Ok?
    ensures Attributable(x, w, Verdict(x, p).value)
  {
    var s := x.scheme;
    var q := Verdict(x, p).value;
    Accepted(s, x.verifier, p.credential, p.want, p.verifiedAt);
    var pub := x.verifier.trusted[q.issuer];
    if pub !in x.compromised {
      assert Checks(s, pub, p.credential);
      var encoded := Cut(p.credential).value.0;
      var i :| 0 <= i < |w.minted| && s.publicKey(w.minted[i].issuer.key) == pub
               && encoded == EncodedPayload(s, w.minted[i].payload);
      GoRoundTrip(s.marshal(w.minted[i].payload));
      assert s.decodeStrict(s.marshal(w.minted[i].payload)) == Some(w.minted[i].payload);
      assert w.minted[i].payload == q;
    }
  }

  lemma AuthorisedPersists(x: Parties, w: World, t: World, a: Session)
    requires Authorised(x, w, a) && w.minted <= t.minted
    requires a in t.presented && t.presented[a] == w.presented[a]
    requires a in t.db.attempts && t.db.attempts[a].rec == w.db.attempts[a].rec
    requires t.db.attempts[a].effect == w.db.attempts[a].effect
    ensures Authorised(x, t, a)
  {
    var p := Verdict(x, w.presented[a]).value;
    if x.verifier.trusted[p.issuer] !in x.compromised {
      var i :| 0 <= i < |w.minted| && w.minted[i].payload == p && w.minted[i].issuer.name == p.issuer;
      assert t.minted[i] == w.minted[i];
    }
  }

  lemma PresentedIsAuthorised(x: Parties, w: World, act: Action)
    requires x.scheme.CodecRoundTrips() && Sound(x, w) && CanAct(x, w, act)
    requires act.Present? && act.a in Act(x, w, act).db.attempts
    ensures Authorised(x, Act(x, w, act), act.a)
  {
    var t := Act(x, w, act);
    AcceptedWasMinted(x, w, act.p);
    var q := Verdict(x, act.p).value;
    if x.verifier.trusted[q.issuer] !in x.compromised {
      var i :| 0 <= i < |w.minted| && w.minted[i].payload == q && w.minted[i].issuer.name == q.issuer;
      assert t.minted[i] == w.minted[i];
    }
  }

  /** Every call is still there, with the record and the effect it came with. */
  ghost predicate CallsKept(s: State, t: State) {
    forall a :: a in s.attempts ==>
      a in t.attempts && t.attempts[a].rec == s.attempts[a].rec && t.attempts[a].effect == s.attempts[a].effect
  }

  lemma StepKeepsCalls(s: State, l: Label)
    requires Enabled(s, l)
    ensures CallsKept(s, Next(s, l))
    ensures forall a :: a in Next(s, l).attempts ==> a in s.attempts || a == l.a
    ensures !l.Begin? && !l.BeginFails? ==> l.a in s.attempts
  {
    Frame(s, l);
  }

  lemma AllPersist(x: Parties, w: World, t: World)
    requires forall a :: a in w.db.attempts ==> Authorised(x, w, a)
    requires w.minted <= t.minted && CallsKept(w.db, t.db)
    requires forall a :: a in w.presented ==> a in t.presented && t.presented[a] == w.presented[a]
    ensures forall a :: a in w.db.attempts ==> Authorised(x, t, a)
  {
    forall a | a in w.db.attempts ensures Authorised(x, t, a) {
      AuthorisedPersists(x, w, t, a);
    }
  }

  lemma MintSound(x: Parties, w: World, act: Action)
    requires Sound(x, w) && act.MintOne? && CanAct(x, w, act)
    ensures Sound(x, Act(x, w, act))
  {
    AllPersist(x, w, Act(x, w, act));
  }

  lemma PresentSound(x: Parties, w: World, act: Action)
    requires x.scheme.CodecRoundTrips() && Sound(x, w) && act.Present? && CanAct(x, w, act)
    ensures Sound(x, Act(x, w, act))
  {
    if Verdict(x, act.p).Ok? {
      LegalAppend(INIT, w.steps, Opening(x, act));
      StepKeepsCalls(w.db, Opening(x, act));
      PresentedIsAuthorised(x, w, act);
    }
    AllPersist(x, w, Act(x, w, act));
  }

  lemma DatabaseSound(x: Parties, w: World, act: Action)
    requires Sound(x, w) && act.Database? && CanAct(x, w, act)
    ensures Sound(x, Act(x, w, act))
  {
    LegalAppend(INIT, w.steps, act.l);
    StepKeepsCalls(w.db, act.l);
    AllPersist(x, w, Act(x, w, act));
  }

  lemma ActSound(x: Parties, w: World, act: Action)
    requires x.scheme.CodecRoundTrips() && Sound(x, w) && CanAct(x, w, act)
    ensures Sound(x, Act(x, w, act))
  {
    match act
    case MintOne(_, _) => MintSound(x, w, act);
    case Present(_, _, _) => PresentSound(x, w, act);
    case Database(_) => DatabaseSound(x, w, act);
  }

  lemma {:induction false} RunSound(x: Parties, w: World, acts: seq<Action>)
    requires x.scheme.CodecRoundTrips() && Sound(x, w) && CanRun(x, w, acts)
    ensures Sound(x, Finally(x, w, acts))
    decreases acts
  {
    if acts != [] {
      ActSound(x, w, acts[0]);
      RunSound(x, Act(x, w, acts[0]), acts[1..]);
    }
  }

  // ----- the theorems -----

  /** The issuer named by a record signed all that the record says of the credential, the reference is
      that of the executed transaction and the time that of the presentation's own clock; and the
      transaction signed is the one executed: no other has that binding, short of a collision. */
  ghost predicate Traced(x: Parties, w: World, a: Session) {
    && Authorised(x, w, a)
    && Bound(x, w, w.db.attempts[a].rec, w.presented[a])
  }

  ghost predicate Bound(x: Parties, w: World, rec: Consumption, pr: Presentation) {
    && rec.reference == pr.want.reference && rec.consumedAt == pr.consumedAt
    && (forall b :: Apart(x.scheme, b, pr.want) ==> (Digest(x.scheme, b) == rec.binding <==> b == pr.want))
    && (exists q :: Contains(x.scheme, pr.credential, q) && Cites(rec, q))
    && rec.issuer in x.verifier.trusted
    && (x.verifier.trusted[rec.issuer] !in x.compromised ==> CitesMinted(w, rec))
  }

  /** The text before the dot decodes to this payload. */
  predicate Contains(s: Scheme, credential: string, q: Payload) {
    && Cut(credential).Some? && DecodeRawUrl(Cut(credential).value.0).Some?
    && s.decodeStrict(DecodeRawUrl(Cut(credential).value.0).value) == Some(q)
  }

  ghost predicate CitesMinted(w: World, rec: Consumption) {
    exists i :: 0 <= i < |w.minted| && w.minted[i].issuer.name == rec.issuer && Cites(rec, w.minted[i].payload)
  }

  lemma AuthorisedIsTraced(x: Parties, w: World, a: Session)
    requires Authorised(x, w, a)
    ensures Traced(x, w, a)
  {
    var pr := w.presented[a];
    var p := Verdict(x, pr).value;
    Accepted(x.scheme, x.verifier, pr.credential, pr.want, pr.verifiedAt);
    forall b | Apart(x.scheme, b, pr.want) ensures Digest(x.scheme, b) == p.binding <==> b == pr.want {
      DigestInjective(x.scheme, b, pr.want);
    }
    assert Contains(x.scheme, pr.credential, p) && Cites(w.db.attempts[a].rec, p);
    if x.verifier.trusted[p.issuer] !in x.compromised {
      var i :| 0 <= i < |w.minted| && w.minted[i].payload == p && w.minted[i].issuer.name == p.issuer;
      assert Cites(w.db.attempts[a].rec, w.minted[i].payload);
    }
  }

  lemma ReachedWorld(x: Parties, acts: seq<Action>)
    requires x.scheme.CodecRoundTrips() && CanRun(x, START, acts)
    ensures Sound(x, Finally(x, START, acts))
  {
    assert Legal(INIT, []) && After(INIT, []) == INIT;
    RunSound(x, START, acts);
  }

  /** Every consumption record the database shows was written by one committed call, whose payload
      was signed by the issuer it names for exactly the transaction that was executed. */
  lemma RecordsAreAuthorised(x: Parties, acts: seq<Action>, id: GoString) returns (a: Session)
    requires x.scheme.CodecRoundTrips() && CanRun(x, START, acts)
    requires Lookup(Finally(x, START, acts).db, id).Some?
    ensures var w := Finally(x, START, acts);
      && a in w.db.attempts && w.db.attempts[a].phase == Done(Returned(Consumed))
      && Lookup(w.db, id) == Some(w.db.attempts[a].rec) && w.db.attempts[a].rec.id == id
      && Traced(x, w, a)
  {
    ReachedWorld(x, acts);
    var w := Finally(x, START, acts);
    RefinesSerialStore(w.steps);
    Reached(w.steps);
    var k := RecordedBySpender(w.db.history, id);
    a := ConsumedIsDone(w.db, k);
    AuthorisedIsTraced(x, w, a);
  }

  /** Every value an effect has made visible was written by a committed call, as part of the effect
      run on that call's own consumption record, under an authority that can be traced. */
  lemma EffectsAreAuthorised(x: Parties, acts: seq<Action>, key: string) returns (a: Session)
    requires x.scheme.CodecRoundTrips() && CanRun(x, START, acts)
    requires key in Finally(x, START, acts).db.tables
    ensures var w := Finally(x, START, acts);
      && a in w.db.attempts && w.db.attempts[a].phase == Done(Returned(Consumed))
      && Traced(x, w, a)
      && Write(key, w.db.tables[key]) in w.presented[a].effect(w.db.attempts[a].rec).writes
      && Lookup(w.db, w.db.attempts[a].rec.id) == Some(w.db.attempts[a].rec)
  {
    ReachedWorld(x, acts);
    var w := Finally(x, START, acts);
    RefinesSerialStore(w.steps);
    Reached(w.steps);
    var k := CommittedBySpender(w.db.history, key);
    a := ConsumedIsDone(w.db, k);
    assert Recorded(w.db, w.db.history[k]);
    assert SpentAt(w.db.history, k, w.db.attempts[a].rec.id);
    SpenderIsRecorded(w.db.history, k, w.db.attempts[a].rec.id);
    AuthorisedIsTraced(x, w, a);
  }

  /** One signed authority executes at most once: two committed calls never cite the same ID. */
  lemma AuthorityExecutesOnce(x: Parties, acts: seq<Action>, a: Session, b: Session)
    requires x.scheme.CodecRoundTrips() && CanRun(x, START, acts)
    requires var w := Finally(x, START, acts);
      && Told(w.db, a, Consumed) && Told(w.db, b, Consumed) && a in w.presented && b in w.presented
      && Verdict(x, w.presented[a]).Ok? && Verdict(x, w.presented[b]).Ok?
      && Verdict(x, w.presented[a]).value.id == Verdict(x, w.presented[b]).value.id
    ensures a == b
  {
    ReachedWorld(x, acts);
    var w := Finally(x, START, acts);
    assert Authorised(x, w, a) && Authorised(x, w, b);
    CommitsAtMostOnce(w.steps, a, b);
  }

  /** Presenting an accepted credential against any other transaction changes nothing in the
      database, so it cannot burn the credential. */
  lemma RepointingBurnsNothing(x: Parties, w: World, act: Action, other: Binding)
    requires act.Present? && CanAct(x, w, act)
    requires Verdict(x, act.p).Ok? && other != act.p.want && Apart(x.scheme, act.p.want, other)
    ensures var repointed := act.(p := act.p.(want := other));
      && CanAct(x, w, repointed)
      && Verdict(x, repointed.p) == Err(BindingMismatch)
      && Act(x, w, repointed).db == w.db
  {
    RepointingRefused(x.scheme, x.verifier, act.p.credential, act.p.want, other, act.p.verifiedAt);
  }

  /** With a hash free of collisions, the binding on record belongs to the executed transaction alone. */
  lemma ExactlyTheTransaction(x: Parties, w: World, rec: Consumption, pr: Presentation)
    requires x.scheme.CollisionFree() && Bound(x, w, rec, pr)
    ensures forall b :: Digest(x.scheme, b) == rec.binding <==> b == pr.want
  {
    forall b ensures Digest(x.scheme, b) == rec.binding <==> b == pr.want {
      assert x.scheme.Apart(Preimage(VERSION, b), Preimage(VERSION, pr.want));
      assert Apart(x.scheme, b, pr.want);
    }
  }

  // ----- authority that has not been spent can be -----

  function Steps(labels: seq<Label>): seq<Action> {
    seq(|labels|, i requires 0 <= i < |labels| => Database(labels[i]))
  }

  ghost predicate Unopening(labels: seq<Label>) {
    forall i :: 0 <= i < |labels| ==> !labels[i].Begin? && !labels[i].BeginFails?
  }

  lemma {:induction false} DatabaseRuns(x: Parties, w: World, labels: seq<Label>)
    requires Legal(w.db, labels) && Unopening(labels)
    ensures CanRun(x, w, Steps(labels))
    ensures Finally(x, w, Steps(labels)) == w.(db := After(w.db, labels), steps := w.steps + labels)
    decreases labels
  {
    if labels == [] {
      assert w.steps + labels == w.steps;
    } else {
      assert Unopening(labels[1..]);
      var t := Act(x, w, Database(labels[0]));
      DatabaseRuns(x, t, labels[1..]);
      assert Steps(labels)[0] == Database(labels[0]) && Steps(labels)[1..] == Steps(labels[1..]);
      assert w.steps + [labels[0]] + labels[1..] == w.steps + labels;
    }
  }

  /** Presenting a credential and letting its call go through. */
  function Spending(a: Session, p: Presentation, effect: Effect): seq<Action> {
    [Present(a, p, false)] + Steps(Rest(a, effect))
  }

  function Rest(a: Session, effect: Effect): seq<Label> {
    [Insert(a)] + Writes(a, |effect.writes|) + [EffectReturns(a), Commit(a)]
  }

  lemma {:induction false} WritesOpenNothing(a: Session, n: nat)
    ensures Unopening(Writes(a, n))
  {
    if n > 0 {
      WritesOpenNothing(a, n - 1);
    }
  }

  /** No refusal, failure, fault or panic burns a credential: in any world in which every call on its
      ID has ended without committing, presenting it again can commit its record and its effect. */
  lemma CanStillBeSpent(x: Parties, w: World, a: Session, p: Presentation)
    requires Sound(x, w) && CanAct(x, w, Present(a, p, false)) && Verdict(x, p).Ok?
    requires p.effect(Rec(x, p)).failure == None
    requires forall b :: b in w.db.attempts && w.db.attempts[b].rec.id == Rec(x, p).id ==>
      w.db.attempts[b].phase.Done? && w.db.attempts[b].phase != Done(Returned(Consumed))
    ensures var acts := Spending(a, p, p.effect(Rec(x, p)));
      && CanRun(x, w, acts)
      && Lookup(Finally(x, w, acts).db, Rec(x, p).id) == Some(Rec(x, p))
      && Finally(x, w, acts).db.tables == w.db.tables + Staged(p.effect(Rec(x, p)).writes)
  {
    Reached(w.steps);
    CommittedShows(w.db, w.steps, a, Rec(x, p), p.effect(Rec(x, p)));
    FullCallRuns(w.db, a, Rec(x, p), p.effect(Rec(x, p)));
    SpendingRuns(x, w, a, p);
  }

  /** The actions drive the database through one whole call. */
  lemma SpendingRuns(x: Parties, w: World, a: Session, p: Presentation)
    requires CanAct(x, w, Present(a, p, false)) && Verdict(x, p).Ok?
    requires Legal(w.db, FullCall(a, Rec(x, p), p.effect(Rec(x, p))))
    ensures var acts := Spending(a, p, p.effect(Rec(x, p)));
      CanRun(x, w, acts)
      && Finally(x, w, acts).db == After(w.db, FullCall(a, Rec(x, p), p.effect(Rec(x, p))))
  {
    var rec, effect := Rec(x, p), p.effect(Rec(x, p));
    var call, rest := FullCall(a, rec, effect), Rest(a, effect);
    var t := Act(x, w, Present(a, p, false));
    assert call[0] == Begin(a, rec, effect) && call[1..] == rest;
    assert t.db == Next(w.db, call[0]);
    WritesOpenNothing(a, |effect.writes|);
    assert Unopening(rest);
    DatabaseRuns(x, t, rest);
    assert Spending(a, p, effect)[0] == Present(a, p, false) && Spending(a, p, effect)[1..] == Steps(rest);
  }

  lemma CommittedShows(s: State, run: seq<Label>, a: Session, rec: Consumption, effect: Effect)
    requires Legal(INIT, run) && After(INIT, run) == s && a !in s.attempts && effect.failure == None
    requires forall b :: b in s.attempts && s.attempts[b].rec.id == rec.id ==>
      s.attempts[b].phase.Done? && s.attempts[b].phase != Done(Returned(Consumed))
    ensures Legal(s, FullCall(a, rec, effect))
    ensures Lookup(After(s, FullCall(a, rec, effect)), rec.id) == Some(rec)
  {
    SpendableAfterFailures(run, a, rec, effect);
    Reached(run);
    FullCallRuns(s, a, rec, effect);
    LegalSplit(INIT, run, FullCall(a, rec, effect));
  }
}
