/** modules/boundedauth/receipt.go: evidence whose content hash survives storage. */
module Receipt {
  import opened Int64
  import opened LengthPrefix
  import opened Seqs
  import opened Credential
  import Authority

  const NANOS_PER_MICRO := 1000

  /** The nanoseconds of an instant whose seconds fit an int64, which covers every time.Time. */
  type Instant = t: int | -TWO_63 * 1_000_000_000 <= t < TWO_63 * 1_000_000_000

  /** An instant and the zone it is displayed in; only the instant enters the hash. */
  datatype Time = Time(nanos: Instant, zone: string) {
    function UTC(): Time { this.(zone := "UTC") }

    function TruncateMicros(): Time {
      this.(nanos := nanos - nanos % NANOS_PER_MICRO)
    }
  }

  /** RFC 3339 rendering of a UTC instant, as text. */
  type Clock = Instant -> GoString

  predicate TellsApart(render: Clock, t: Instant, u: Instant) {
    render(t) == render(u) ==> t == u
  }

  ghost predicate Unambiguous(render: Clock) {
    forall t, u :: TellsApart(render, t, u)
  }

  datatype Receipt = Receipt(
    id: GoString, reference: GoString, issuedAt: Time, effectId: GoString,
    payer: GoString, payee: GoString, amountMinor: int64, feeMinor: int64,
    currency: GoString, description: GoString,
    grantId: GoString, how: GoString, binding: GoString, contentHash: HashText)
  {
    function Texts(render: Clock): seq<GoString> {
      [id, reference, effectId, payer, payee, currency, description, grantId, how, binding,
       render(issuedAt.UTC().nanos)]
    }

    function Items(render: Clock): seq<Item> {
      [Field(Authority.VERSION)] + AsFields(Texts(render)) + [Number(amountMinor), Number(feeMinor)]
    }

    function Hash(s: Scheme, render: Clock): HashText {
      s.hash(Encode(Items(render)))
    }

    function Issue(s: Scheme, render: Clock): Receipt {
      var r := this.(issuedAt := issuedAt.UTC().TruncateMicros());
      r.(contentHash := r.Hash(s, render))
    }

    predicate Intact(s: Scheme, render: Clock) {
      contentHash != [] && contentHash == Hash(s, render)
    }

    predicate MatchesAuthority(s: Scheme, b: Authority.Binding) {
      binding != [] && binding == Authority.Digest(s, b)
    }

    /** Everything a receipt asserts: all fields but the hash and the display zone. */
    function Content(): Receipt {
      this.(contentHash := [], issuedAt := issuedAt.UTC())
    }

    /** What a database with microsecond timestamps returns, in whatever zone it uses. */
    function Reloaded(zone: string): Receipt {
      this.(issuedAt := issuedAt.TruncateMicros().(zone := zone))
    }

    /** hash(): the version, the eleven strings in a loop, then the two amounts. */
    method ComputeHash(s: Scheme, render: Clock) returns (h: HashText)
      ensures h == Hash(s, render)
    {
      var hasher := new Hasher();
      hasher.WriteField(Authority.VERSION);
      assert hasher.written == EncodeItem(Field(Authority.VERSION));
      WriteTexts(hasher, Texts(render));
      hasher.WriteInt(amountMinor);
      hasher.WriteInt(feeMinor);
      EncodeSandwich(Field(Authority.VERSION), AsFields(Texts(render)), Number(amountMinor), Number(feeMinor));
      h := s.hash(hasher.written);
    }
  }

  method WriteTexts(hasher: Hasher, texts: seq<GoString>)
    modifies hasher
    ensures hasher.written == old(hasher.written) + Encode(AsFields(texts))
  {
    var i := 0;
    assert AsFields(texts[..0]) == [];
    while i < |texts|
      invariant 0 <= i <= |texts|
      invariant hasher.written == old(hasher.written) + Encode(AsFields(texts[..i]))
    {
      hasher.WriteField(texts[i]);
      FieldStep(texts, i);
      Assoc(old(hasher.written), Encode(AsFields(texts[..i])), EncodeItem(Field(texts[i])));
      i := i + 1;
    }
    assert texts[..i] == texts;
  }

  lemma FieldStep(texts: seq<GoString>, i: nat)
    requires i < |texts|
    ensures Encode(AsFields(texts[..i + 1])) == Encode(AsFields(texts[..i])) + EncodeItem(Field(texts[i]))
  {
    EncodeAppend(AsFields(texts[..i]), Field(texts[i]));
    OneMoreField(texts, i);
  }

  lemma OneMoreField(texts: seq<GoString>, i: nat)
    requires i < |texts|
    ensures AsFields(texts[..i]) + [Field(texts[i])] == AsFields(texts[..i + 1])
  {
  }

  lemma EncodeSandwich(first: Item, middle: seq<Item>, x: Item, y: Item)
    ensures Encode([first] + middle + [x, y])
         == EncodeItem(first) + Encode(middle) + EncodeItem(x) + EncodeItem(y)
  {
    var rest := middle + [x] + [y];
    EncodeAppend(middle, x);
    EncodeAppend(middle + [x], y);
    var xs := [first] + middle + [x, y];
    assert xs[1..] == rest;
    assert Encode(xs) == EncodeItem(first) + Encode(rest);
    Regroup(EncodeItem(first), Encode(middle), EncodeItem(x), EncodeItem(y));
  }

  lemma Regroup(a: seq<Byte>, b: seq<Byte>, c: seq<Byte>, d: seq<Byte>)
    ensures a + (b + c + d) == a + b + c + d
  {
  }

  function AsFields(texts: seq<GoString>): seq<Item> {
    seq(|texts|, i requires 0 <= i < |texts| => Field(texts[i]))
  }

  /** What is hashed, field by field, in order: the two amounts last, everything else as text. */
  lemma HashedFields(render: Clock, r: Receipt)
    ensures r.Items(render) == [
      Field(Ascii("bounded-authority/1")), Field(r.id), Field(r.reference), Field(r.effectId), Field(r.payer),
      Field(r.payee), Field(r.currency), Field(r.description), Field(r.grantId), Field(r.how), Field(r.binding),
      Field(render(r.issuedAt.nanos)), Number(r.amountMinor), Number(r.feeMinor)]
  {
    assert |r.Items(render)| == 14;
  }

  /** A receipt without a hash is not intact, and one without a binding matches no authority. */
  lemma EmptyIsNothing(s: Scheme, render: Clock, r: Receipt, b: Authority.Binding)
    ensures r.contentHash == [] ==> !r.Intact(s, render)
    ensures r.binding == [] ==> !r.MatchesAuthority(s, b)
  {
  }

  /** What Issue returns: the same receipt, with its time cut down to whole microseconds in UTC and
      the hash of that. */
  lemma IssuedIs(s: Scheme, render: Clock, r: Receipt)
    ensures var i := r.Issue(s, render);
      && i == r.(issuedAt := i.issuedAt, contentHash := s.hash(Encode(i.Items(render))))
      && i.issuedAt.zone == "UTC" && i.issuedAt.nanos % 1000 == 0
      && i.issuedAt.nanos <= r.issuedAt.nanos < i.issuedAt.nanos + 1000
  {
    var j := r.(issuedAt := r.issuedAt.UTC().TruncateMicros());
    assert j.Texts(render) == r.Issue(s, render).Texts(render);
  }

  /** Nothing but the content enters the hashed bytes. */
  lemma SameContentSameBytes(render: Clock, a: Receipt, b: Receipt)
    requires a.Content() == b.Content()
    ensures Encode(a.Items(render)) == Encode(b.Items(render))
  {
    var c := a.Content();
    assert c == b.Content();
    assert a.id == c.id == b.id && a.amountMinor == c.amountMinor == b.amountMinor
      && a.feeMinor == c.feeMinor == b.feeMinor;
    assert a.Texts(render) == c.Texts(render) == b.Texts(render);
  }

  /** And they determine all of it, if the rendering tells the two times of issue apart. */
  lemma PreimageInjective(render: Clock, a: Receipt, b: Receipt)
    requires TellsApart(render, a.issuedAt.nanos, b.issuedAt.nanos)
    ensures Encode(a.Items(render)) == Encode(b.Items(render)) <==> a.Content() == b.Content()
  {
    var xs, ys := a.Items(render), b.Items(render);
    if a.Content() == b.Content() {
      SameContentSameBytes(render, a, b);
    }
    if Encode(xs) == Encode(ys) {
      assert Kinds(xs) == Kinds(ys);
      assert Encode(xs) + [] == Encode(ys) + [];
      EncodeInjective(xs, ys, [], []);
      forall i | 0 <= i < 11 ensures a.Texts(render)[i] == b.Texts(render)[i] {
        assert xs[i + 1] == ys[i + 1];
      }
      assert xs[12] == ys[12] && xs[13] == ys[13];
      SameTexts(render, a, b);
    }
  }

  lemma SameTexts(render: Clock, a: Receipt, b: Receipt)
    requires TellsApart(render, a.issuedAt.nanos, b.issuedAt.nanos)
    requires forall i :: 0 <= i < 11 ==> a.Texts(render)[i] == b.Texts(render)[i]
    requires a.amountMinor == b.amountMinor && a.feeMinor == b.feeMinor
    ensures a.Content() == b.Content()
  {
    var t, u := a.Texts(render), b.Texts(render);
    assert t[0] == u[0] && t[1] == u[1] && t[2] == u[2] && t[3] == u[3] && t[4] == u[4] && t[5] == u[5];
    assert t[6] == u[6] && t[7] == u[7] && t[8] == u[8] && t[9] == u[9] && t[10] == u[10];
  }

  /** The two receipts neither collide under the hash nor have times rendered alike. */
  predicate Apart(s: Scheme, render: Clock, a: Receipt, b: Receipt) {
    && TellsApart(render, a.issuedAt.nanos, b.issuedAt.nanos)
    && s.Apart(Encode(a.Items(render)), Encode(b.Items(render)))
  }

  /** An intact receipt stops being intact as soon as any part of its content is changed,
      and only then. */
  lemma AnyAlterationShows(s: Scheme, render: Clock, r: Receipt, altered: Receipt)
    requires Apart(s, render, r, altered)
    requires r.Intact(s, render) && altered.contentHash == r.contentHash
    ensures altered.Intact(s, render) <==> altered.Content() == r.Content()
  {
    PreimageInjective(render, r, altered);
  }

  /** Issue is idempotent, and what it returns is intact. */
  lemma IssueIsIdempotent(s: Scheme, render: Clock, r: Receipt)
    requires s.DigestsNotEmpty()
    ensures var i := r.Issue(s, render); i.Issue(s, render) == i && i.Intact(s, render)
  {
    var i := r.Issue(s, render);
    var j := r.(issuedAt := r.issuedAt.UTC().TruncateMicros());
    assert j.Texts(render) == i.Texts(render);
    assert i.issuedAt.UTC().TruncateMicros() == i.issuedAt;
    assert i.Issue(s, render).Texts(render) == i.Texts(render);
  }

  /** A receipt carrying its own hash is still intact after being stored and read back exactly
      when its time of issue has microsecond precision, so the truncation in Issue is needed
      and is enough. */
  lemma IntactAfterReload(s: Scheme, render: Clock, r: Receipt, zone: string)
    requires Apart(s, render, r, r.Reloaded(zone))
    requires r.Intact(s, render)
    ensures r.Reloaded(zone).Intact(s, render) <==> r.issuedAt.nanos % NANOS_PER_MICRO == 0
  {
    AnyAlterationShows(s, render, r, r.Reloaded(zone));
  }

  /** So every issued receipt survives, whatever the hash and the rendering. */
  lemma IssuedSurvivesReload(s: Scheme, render: Clock, r: Receipt, zone: string)
    requires s.DigestsNotEmpty()
    ensures r.Issue(s, render).Reloaded(zone).Intact(s, render)
  {
    var i := r.Issue(s, render);
    IssueIsIdempotent(s, render, r);
    assert i.Reloaded(zone).Content() == i.Content();
    SameContentSameBytes(render, i, i.Reloaded(zone));
  }

  /** A receipt matches the authority for at most one transaction. */
  lemma MatchesOneTransaction(s: Scheme, r: Receipt, b: Authority.Binding, c: Authority.Binding)
    requires Authority.Apart(s, b, c)
    requires r.MatchesAuthority(s, b)
    ensures r.MatchesAuthority(s, c) <==> c == b
  {
    Authority.DigestInjective(s, b, c);
  }
}
