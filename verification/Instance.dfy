/** The hypotheses of the theorems can all be met at once: a choice of hash, signatures, payload codec
    and time rendering that satisfies them, and a run over it in which a credential is minted,
    presented and spent. */
module Instance {
  import opened Seqs
  import opened Wrappers
  import opened Int64
  import opened LengthPrefix
  import opened Credential
  import opened Authority
  import opened Store
  import opened PostgresSteps
  import opened Authorise
  import Receipt
  import Base64Url
  import Utf8

  // ----- the primitives -----

  function Hash(x: seq<Byte>): HashText { [0] + x }

  function Zeros(n: nat): (s: seq<Byte>)
    ensures |s| == n
  {
    if n == 0 then [] else [0] + Zeros(n - 1)
  }

  predicate AnyText(s: seq<Byte>) { true }

  function PublicKey(key: GoString): GoString {
    if |key| < PUBLIC_KEY_SIZE then Zeros(PUBLIC_KEY_SIZE) else key[..PUBLIC_KEY_SIZE]
  }

  function Sign(key: GoString, text: string): seq<Byte> {
    PublicKey(key) + Utf8.Encode(text)
  }

  predicate Checks(pub: GoString, text: string, sig: seq<Byte>) {
    |pub| == PUBLIC_KEY_SIZE && sig == pub + Utf8.Encode(text)
  }

  function Fields(p: Payload): seq<Item> {
    [Field(p.version), Field(p.id), Field(p.issuer), Field(p.subject), Field(p.how),
     Number(p.issuedAt), Number(p.expiresAt)]
  }

  const SHAPE := [FieldKind, FieldKind, FieldKind, FieldKind, FieldKind, NumberKind, NumberKind]

  function Marshal(p: Payload): seq<Byte> {
    Encode(Fields(p)) + p.binding
  }

  function Unmarshal(s: seq<Byte>): Option<Payload> {
    match Decode(SHAPE, s)
    case None => None
    case Some((xs, rest)) =>
      if |xs| == 7 && (forall i :: 0 <= i < 5 ==> xs[i].Field?) && xs[5].Number? && xs[6].Number? then
        Some(Payload(xs[0].bytes, xs[1].bytes, xs[2].bytes, xs[3].bytes, xs[4].bytes, rest, xs[5].value, xs[6].value))
      else None
  }

  const SCHEME := Scheme(Hash, PublicKey, Sign, Checks, AnyText, Marshal, Unmarshal, Unmarshal)

  lemma MarshalRoundTrip(p: Payload)
    ensures Marshal(p) != [] && Unmarshal(Marshal(p)) == Some(p)
  {
    assert Kinds(Fields(p)) == SHAPE;
    DecodeEncode(Fields(p), p.binding);
    EncodeCons(Fields(p));
  }

  lemma HashIsInjective(x: seq<Byte>, y: seq<Byte>)
    requires Hash(x) == Hash(y)
    ensures x == y
  {
    assert Hash(x)[1..] == x && Hash(y)[1..] == y;
  }

  lemma SchemeIsCollisionFree()
    ensures SCHEME.CollisionFree() && SCHEME.DigestsNotEmpty()
  {
    forall x, y ensures SCHEME.Apart(x, y) {
      assert SCHEME.hash(x) == Hash(x) && SCHEME.hash(y) == Hash(y);
      if Hash(x) == Hash(y) {
        HashIsInjective(x, y);
      }
    }
    forall x ensures SCHEME.hash(x) != [] {
      assert |Hash(x)| > 0;
    }
  }

  lemma SchemeRoundTrips()
    ensures SCHEME.CodecRoundTrips()
  {
    RoundTripsIfMarshals(SCHEME);
  }

  lemma RoundTripsIfMarshals(s: Scheme)
    requires s.marshal == Marshal && s.unmarshal == Unmarshal && s.decodeStrict == Unmarshal
    ensures s.CodecRoundTrips()
  {
    forall p {:trigger s.marshal(p)} | s.Utf8Payload(p)
      ensures s.marshal(p) != [] && s.unmarshal(s.marshal(p)) == Some(p) && s.decodeStrict(s.marshal(p)) == Some(p)
    {
      assert s.marshal(p) == Marshal(p);
      assert s.unmarshal(Marshal(p)) == s.decodeStrict(Marshal(p)) == Unmarshal(Marshal(p));
      MarshalRoundTrip(p);
    }
  }

  lemma SchemeSigns()
    ensures SCHEME.SignaturesCheck()
  {
    SignsIfChecks(SCHEME);
  }

  lemma SignsIfChecks(s: Scheme)
    requires s.publicKey == PublicKey && s.sign == Sign && s.checks == Checks
    ensures s.SignaturesCheck()
  {
    forall k: GoString | |k| == PRIVATE_KEY_SIZE ensures |s.publicKey(k)| == PUBLIC_KEY_SIZE {
      assert s.publicKey(k) == PublicKey(k);
    }
    forall k: GoString, m: string {:trigger s.sign(k, m)} | |k| == PRIVATE_KEY_SIZE
      ensures s.sign(k, m) != [] && s.checks(s.publicKey(k), m, s.sign(k, m))
    {
      SignsOne(s, k, m);
    }
  }

  lemma SignsOne(s: Scheme, k: GoString, m: string)
    requires s.publicKey == PublicKey && s.sign == Sign && s.checks == Checks && |k| == PRIVATE_KEY_SIZE
    ensures |s.publicKey(k)| == PUBLIC_KEY_SIZE && s.sign(k, m) != [] && s.checks(s.publicKey(k), m, s.sign(k, m))
  {
    assert s.publicKey(k) == PublicKey(k) && s.sign(k, m) == Sign(k, m);
    assert |PublicKey(k)| == PUBLIC_KEY_SIZE && |Sign(k, m)| >= PUBLIC_KEY_SIZE;
    assert s.checks(PublicKey(k), m, Sign(k, m)) == Checks(PublicKey(k), m, Sign(k, m));
  }

  lemma SchemeMeetsHypotheses()
    ensures SCHEME.CollisionFree() && SCHEME.DigestsNotEmpty()
    ensures SCHEME.CodecRoundTrips() && SCHEME.SignaturesCheck()
  {
    SchemeIsCollisionFree();
    SchemeRoundTrips();
    SchemeSigns();
  }

  // ----- a rendering of instants -----

  const OFFSET: nat := TWO_63 * 1_000_000_000

  function Render(t: Receipt.Instant): GoString {
    BigEndian(t + OFFSET, 12)
  }

  lemma RenderIsUnambiguous()
    ensures Receipt.Unambiguous(Render)
  {
    forall t: Receipt.Instant, u: Receipt.Instant ensures Receipt.TellsApart(Render, t, u) {
      Pow256Of12();
      BigEndianRoundTrip(t + OFFSET, 12);
      BigEndianRoundTrip(u + OFFSET, 12);
    }
  }

  lemma Pow256Of12()
    ensures 2 * OFFSET <= Pow256(12)
  {
    Pow256Of8();
    assert Pow256(10) == 65536 * Pow256(8);
    assert Pow256(12) == 65536 * Pow256(10);
  }

  // ----- a run -----

  function Key(): GoString { Zeros(PRIVATE_KEY_SIZE) }

  function Minter(): Issuer { Issuer(Ascii("i"), Key()) }

  function Want(): Binding { Binding([1], [2], 100, 1, Ascii("GHS"), Ascii("r"), []) }

  function Content(): Payload {
    Payload([], Ascii("id"), [], Ascii("s"), Ascii("m"), Digest(SCHEME, Want()), 0, 300)
  }

  function Everyone(): Parties {
    Parties(SCHEME, Verifier(map[Ascii("i") := PublicKey(Key())], false), {})
  }

  function Token(): string { Seal(SCHEME, Key(), Authority.Filled(Minter(), Content())) }

  function Pay(rec: Consumption): Effect {
    Effect([Write("paid", rec.reference)], None)
  }

  function Shown(): Presentation { Presentation(Token(), Want(), Pay, 0, 0) }

  lemma MintsOrdinary(s: Scheme, i: Issuer, p: Payload)
    requires |i.key| == PRIVATE_KEY_SIZE && i.name != [] && p.id != [] && p.subject != [] && p.binding != []
    requires p.how != [] && 0 < p.expiresAt - p.issuedAt <= MAX_LIFETIME
    ensures Mint(s, i, p) == Ok(Seal(s, i.key, Authority.Filled(i, p)))
  {
  }

  lemma MintsTheToken()
    ensures Mint(SCHEME, Minter(), Content()) == Ok(Token())
  {
    var p := Content();
    assert |p.id| == 2 && |p.subject| == 1 && |p.how| == 1 && |Minter().name| == 1;
    assert p.binding == [0] + Preimage(VERSION, Want());
    MintsOrdinary(SCHEME, Minter(), p);
  }

  lemma TokenIsAccepted()
    ensures Authorise.Verdict(Everyone(), Shown()) == Ok(Authority.Filled(Minter(), Content()))
  {
    SchemeMeetsHypotheses();
    MintsTheToken();
    assert Unix(0) == 0;
    assert |METHOD_TEST| != |Content().how|;
    MintedIsAccepted(SCHEME, Minter(), Content(), Want(), Everyone().verifier, Want(), 0);
  }

  /** A signature names the one key it checks under. */
  ghost predicate NamesItsKey(s: Scheme) {
    forall pub, text, sig {:trigger s.checks(pub, text, sig)} :: s.checks(pub, text, sig) ==>
      |pub| == PUBLIC_KEY_SIZE <= |sig| && sig[..PUBLIC_KEY_SIZE] == pub
  }

  lemma SchemeNamesItsKey()
    ensures NamesItsKey(SCHEME)
  {
  }

  lemma SealIsNotForged(x: Parties, w: World, i: Issuer, q: Payload)
    requires x.scheme.CodecRoundTrips() && x.scheme.SignaturesCheck() && NamesItsKey(x.scheme)
    requires x.scheme.Utf8Payload(q) && |i.key| == PRIVATE_KEY_SIZE && w.minted == [Minted(i, q)]
    ensures NotForged(x, w, Seal(x.scheme, i.key, q))
  {
    var s, credential := x.scheme, Seal(x.scheme, i.key, q);
    var encoded := EncodedPayload(s, q);
    SealedParts(s, i.key, q);
    forall pub | Authorise.Checks(s, pub, credential) ensures Signed(x, w, pub, encoded) {
      var sig := s.sign(i.key, encoded);
      assert pub == sig[..PUBLIC_KEY_SIZE] == s.publicKey(i.key);
      assert w.minted[0] == Minted(i, q);
    }
  }

  /** A credential that is minted first and presented next can be spent. */
  lemma FirstIsSpent(x: Parties, i: Issuer, p: Payload, shown: Presentation) returns (acts: seq<Action>)
    requires x.scheme.CodecRoundTrips() && CanAct(x, START, MintOne(i, p))
    requires NotForged(x, Act(x, START, MintOne(i, p)), shown.credential) && Authorise.Verdict(x, shown).Ok?
    requires shown.effect(Rec(x, shown)).failure == None
    ensures CanRun(x, START, acts)
    ensures Lookup(Finally(x, START, acts).db, Rec(x, shown).id) == Some(Rec(x, shown))
    ensures Finally(x, START, acts).db.tables == Staged(shown.effect(Rec(x, shown)).writes)
  {
    var mint := MintOne(i, p);
    var w := Act(x, START, mint);
    assert Legal(INIT, []) && After(INIT, []) == INIT;
    ActSound(x, START, mint);
    CanStillBeSpent(x, w, 0, shown);
    var rest := Spending(0, shown, shown.effect(Rec(x, shown)));
    acts := [mint] + rest;
    assert acts[0] == mint && acts[1..] == rest;
    assert map[] + Staged(shown.effect(Rec(x, shown)).writes) == Staged(shown.effect(Rec(x, shown)).writes);
  }

  lemma CanMint(x: Parties, i: Issuer, p: Payload)
    requires Mint(x.scheme, i, p).Ok? && x.scheme.Utf8Payload(Authority.Filled(i, p))
    ensures CanAct(x, START, MintOne(i, p))
    ensures Act(x, START, MintOne(i, p)).minted == [Minted(i, Authority.Filled(i, p))]
  {
  }

  lemma TokenCanBePresented()
    ensures CanAct(Everyone(), START, MintOne(Minter(), Content()))
    ensures NotForged(Everyone(), Act(Everyone(), START, MintOne(Minter(), Content())), Shown().credential)
  {
    SchemeMeetsHypotheses();
    SchemeNamesItsKey();
    MintsTheToken();
    CanMint(Everyone(), Minter(), Content());
    SealIsNotForged(Everyone(), Act(Everyone(), START, MintOne(Minter(), Content())), Minter(),
                    Authority.Filled(Minter(), Content()));
  }

  lemma PayWrites(rec: Consumption)
    ensures Pay(rec).failure == None && "paid" in Staged(Pay(rec).writes)
  {
    assert Pay(rec).writes[..0] == [];
  }

  ghost predicate MeetsHypotheses(x: Parties) {
    && x.scheme.CodecRoundTrips() && x.scheme.SignaturesCheck()
    && x.scheme.CollisionFree() && x.scheme.DigestsNotEmpty() && x.compromised == {}
  }

  lemma EveryoneMeetsHypotheses()
    ensures MeetsHypotheses(Everyone())
  {
    SchemeMeetsHypotheses();
  }

  /** There are parties that meet every hypothesis of the theorems on records and effects, none of
      them compromised, and a run of theirs that ends with a credential on record and its effect made. */
  lemma HypothesesAreMet() returns (x: Parties, acts: seq<Action>, rec: Consumption)
    ensures MeetsHypotheses(x) && CanRun(x, START, acts)
    ensures Lookup(Finally(x, START, acts).db, rec.id) == Some(rec)
    ensures Finally(x, START, acts).db.tables == Staged(Pay(rec).writes) && "paid" in Staged(Pay(rec).writes)
  {
    EveryoneMeetsHypotheses();
    TokenIsAccepted();
    TokenCanBePresented();
    x, rec := Everyone(), Rec(Everyone(), Shown());
    PayWrites(rec);
    acts := FirstIsSpent(x, Minter(), Content(), Shown());
  }
}
