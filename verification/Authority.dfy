/** modules/boundedauth/authority.go: the transaction binding, minting and verification. */
module Authority {
  import opened Wrappers
  import opened Int64
  import opened LengthPrefix
  import opened Base64Url
  import opened Credential

  const VERSION: GoString := Ascii("bounded-authority/1")
  const METHOD_TEST: GoString := Ascii("test_authenticator")

  datatype Error =
    | Malformed | BadSignature | UntrustedIssuer | WrongVersion | Expired | NotYetValid
    | LifetimeTooLong | TestMethodRefused | BindingMismatch

  datatype Binding = Binding(
    payer: GoString, payee: GoString, amountMinor: int64, feeMinor: int64,
    currency: GoString, reference: GoString, context: GoString)

  /** The eight items, in the two halves in which they are written below. */
  function Items(version: GoString, b: Binding): seq<Item> {
    Parties(version, b) + Terms(b)
  }

  function Parties(version: GoString, b: Binding): seq<Item> {
    [Field(version), Field(b.payer), Field(b.payee), Number(b.amountMinor)]
  }

  function Terms(b: Binding): seq<Item> {
    [Number(b.feeMinor), Field(b.currency), Field(b.reference), Field(b.context)]
  }

  function Preimage(version: GoString, b: Binding): seq<Byte> {
    Encode(Items(version, b))
  }

  function Digest(s: Scheme, b: Binding): HashText {
    s.hash(Preimage(VERSION, b))
  }

  /** Binding.Digest: the fields are written to a running hash one at a time. */
  method ComputeDigest(s: Scheme, b: Binding) returns (digest: HashText)
    ensures digest == Digest(s, b)
  {
    var h := new Hasher();
    WriteBinding(h, VERSION, b);
    digest := s.hash(h.written);
  }

  method WriteBinding(h: Hasher, version: GoString, b: Binding)
    requires h.written == []
    modifies h
    ensures h.written == Preimage(version, b)
  {
    WriteParties(h, version, b);
    WriteTerms(h, b);
    JoinHalves(Parties(version, b), Terms(b));
  }

  lemma JoinHalves(xs: seq<Item>, ys: seq<Item>)
    ensures [] + Encode(xs) + Encode(ys) == Encode(xs + ys)
  {
    EncodeConcat(xs, ys);
    assert [] + Encode(xs) == Encode(xs);
  }

  method WriteParties(h: Hasher, version: GoString, b: Binding)
    modifies h
    ensures h.written == old(h.written) + Encode(Parties(version, b))
  {
    h.WriteField(version);
    h.WriteField(b.payer);
    h.WriteField(b.payee);
    h.WriteInt(b.amountMinor);
    EncodeFour(old(h.written), Field(version), Field(b.payer), Field(b.payee), Number(b.amountMinor));
  }

  method WriteTerms(h: Hasher, b: Binding)
    modifies h
    ensures h.written == old(h.written) + Encode(Terms(b))
  {
    h.WriteInt(b.feeMinor);
    h.WriteField(b.currency);
    h.WriteField(b.reference);
    h.WriteField(b.context);
    EncodeFour(old(h.written), Number(b.feeMinor), Field(b.currency), Field(b.reference), Field(b.context));
  }

  /** The layout of the hashed bytes: text is preceded by its length in eight bytes, an amount is eight
      bytes of two's complement, and the fields follow one another in this order. */
  lemma PreimageLayout(version: GoString, b: Binding)
    ensures Preimage(version, b)
         == (BigEndian(|version|, 8) + version)
          + (BigEndian(|b.payer|, 8) + b.payer)
          + (BigEndian(|b.payee|, 8) + b.payee)
          + BigEndian(ToUint64(b.amountMinor), 8)
          + BigEndian(ToUint64(b.feeMinor), 8)
          + (BigEndian(|b.currency|, 8) + b.currency)
          + (BigEndian(|b.reference|, 8) + b.reference)
          + (BigEndian(|b.context|, 8) + b.context)
  {
    EncodeEight(Field(version), Field(b.payer), Field(b.payee), Number(b.amountMinor),
                Number(b.feeMinor), Field(b.currency), Field(b.reference), Field(b.context));
  }

  /** No two transactions, under any two versions, feed the same bytes to the hash. */
  lemma PreimageInjective(v: GoString, b: Binding, w: GoString, c: Binding)
    ensures Preimage(v, b) == Preimage(w, c) <==> v == w && b == c
  {
    if Preimage(v, b) == Preimage(w, c) {
      var xs, ys := Items(v, b), Items(w, c);
      assert Kinds(xs) == Kinds(ys);
      assert Encode(xs) + [] == Encode(ys) + [];
      EncodeInjective(xs, ys, [], []);
      assert xs[0] == ys[0] && xs[1] == ys[1] && xs[2] == ys[2] && xs[3] == ys[3];
      assert xs[4] == ys[4] && xs[5] == ys[5] && xs[6] == ys[6] && xs[7] == ys[7];
    }
  }

  /** A decoder that knows the format recovers every one of the eight inputs. */
  lemma PreimageDecodes(v: GoString, b: Binding)
    ensures Decode(Kinds(Items(v, b)), Preimage(v, b)) == Some((Items(v, b), []))
  {
    assert Preimage(v, b) + [] == Preimage(v, b);
    DecodeEncode(Items(v, b), []);
  }

  /** The preimages of the two transactions do not collide. */
  predicate Apart(s: Scheme, b: Binding, c: Binding) {
    s.Apart(Preimage(VERSION, b), Preimage(VERSION, c))
  }

  lemma DigestInjective(s: Scheme, b: Binding, c: Binding)
    requires Apart(s, b, c)
    ensures Digest(s, b) == Digest(s, c) <==> b == c
  {
    PreimageInjective(VERSION, b, VERSION, c);
  }

  datatype Issuer = Issuer(name: GoString, key: GoString)

  function Filled(i: Issuer, p: Payload): Payload {
    p.(version := VERSION, issuer := i.name)
  }

  function Mint(s: Scheme, i: Issuer, p: Payload): Result<string, Error> {
    if |i.key| != PRIVATE_KEY_SIZE then Err(Malformed)
    else if i.name == [] then Err(Malformed)
    else if p.id == [] || p.subject == [] || p.binding == [] then Err(Malformed)
    else if p.how == [] then Err(Malformed)
    else if p.expiresAt <= p.issuedAt then Err(Malformed)
    else if Lifetime(p) > MAX_LIFETIME then Err(LifetimeTooLong)
    else Ok(Seal(s, i.key, Filled(i, p)))
  }

  datatype Verifier = Verifier(trusted: map<GoString, GoString>, allowTestMethod: bool)

  function ParseUnverified(s: Scheme, credential: string): Result<Payload, Error> {
    match Cut(credential)
    case None => Err(Malformed)
    case Some((encoded, _)) =>
      if encoded == "" then Err(Malformed)
      else
        match DecodeRawUrl(encoded)
        case None => Err(Malformed)
        case Some(body) =>
          match s.unmarshal(body)
          case None => Err(Malformed)
          case Some(p) => Ok(p)
  }

  /** The checks made on the payload once its signature has been accepted. */
  function CheckPayload(s: Scheme, v: Verifier, claimed: GoString, p: Payload, want: Binding, now: int):
    Result<Payload, Error>
  {
    if p.version != VERSION then Err(WrongVersion)
    else if p.issuer != claimed then Err(Malformed)
    else if p.id == [] then Err(Malformed)
    else if p.how == METHOD_TEST && !v.allowTestMethod then Err(TestMethodRefused)
    else if p.how == [] then Err(Malformed)
    else if Lifetime(p) > MAX_LIFETIME then Err(LifetimeTooLong)
    else if TooEarly(p, now) then Err(NotYetValid)
    else if TooLate(p, now) then Err(Expired)
    else if p.binding != Digest(s, want) then Err(BindingMismatch)
    else Ok(p)
  }

  function Verify(s: Scheme, v: Verifier, credential: string, want: Binding, now: int): Result<Payload, Error> {
    match Cut(credential)
    case None => Err(Malformed)
    case Some((encoded, sigPart)) =>
      if encoded == "" || sigPart == "" then Err(Malformed)
      else
        match DecodeRawUrl(sigPart)
        case None => Err(Malformed)
        case Some(sig) =>
          match ParseUnverified(s, credential)
          case Err(e) => Err(e)
          case Ok(claimed) =>
            if claimed.issuer !in v.trusted then Err(UntrustedIssuer)
            else if |v.trusted[claimed.issuer]| != PUBLIC_KEY_SIZE then Err(Malformed)
            else if !s.checks(v.trusted[claimed.issuer], encoded, sig) then Err(BadSignature)
            else
              match DecodeRawUrl(encoded)
              case None => Err(Malformed)
              case Some(body) =>
                match s.decodeStrict(body)
                case None => Err(Malformed)
                case Some(p) => CheckPayload(s, v, claimed.issuer, p, want, now)
  }

  /** What a verifier that trusts the issuer decides about a credential the issuer minted. */
  function DueOutcome(s: Scheme, v: Verifier, p: Payload, want: Binding, now: int): Result<Payload, Error> {
    if p.how == METHOD_TEST && !v.allowTestMethod then Err(TestMethodRefused)
    else if Unix(now) + MAX_CLOCK_SKEW < p.issuedAt then Err(NotYetValid)
    else if Unix(now) - MAX_CLOCK_SKEW > p.expiresAt then Err(Expired)
    else if p.binding != Digest(s, want) then Err(BindingMismatch)
    else Ok(p)
  }

  /** Mint then Verify: whatever Mint accepts reaches the verifier unchanged, with the version and
      issuer filled in, and only the method, the clock and the transaction decide its outcome. */
  lemma MintThenVerify(s: Scheme, i: Issuer, p: Payload, v: Verifier, want: Binding, now: int)
    requires s.CodecRoundTrips() && s.SignaturesCheck() && s.Utf8Payload(Filled(i, p))
    requires Mint(s, i, p).Ok?
    requires i.name in v.trusted && v.trusted[i.name] == s.publicKey(i.key)
    ensures Verify(s, v, Mint(s, i, p).value, want, now) == DueOutcome(s, v, Filled(i, p), want, now)
  {
    SealedIsChecked(s, i.key, Filled(i, p), v, want, now);
    UnixShift(now, MAX_CLOCK_SKEW);
  }

  /** A credential minted for one transaction is accepted, as what was minted, for exactly that
      transaction, at exactly the clock readings in its window, by exactly the verifiers that
      permit its method. */
  lemma MintedIsAccepted(s: Scheme, i: Issuer, p: Payload, b: Binding, v: Verifier, want: Binding, now: int)
    requires s.CodecRoundTrips() && s.SignaturesCheck() && s.Utf8Payload(Filled(i, p))
    requires Mint(s, i, p).Ok? && p.binding == Digest(s, b) && Apart(s, b, want)
    requires i.name in v.trusted && v.trusted[i.name] == s.publicKey(i.key)
    ensures Verify(s, v, Mint(s, i, p).value, want, now) == Ok(Filled(i, p)) <==>
            && want == b
            && p.issuedAt - MAX_CLOCK_SKEW <= Unix(now) <= p.expiresAt + MAX_CLOCK_SKEW
            && (p.how == METHOD_TEST ==> v.allowTestMethod)
  {
    MintThenVerify(s, i, p, v, want, now);
    DigestInjective(s, b, want);
  }

  /** A sealed payload reaches the checks on its content, as the payload that was sealed. */
  lemma SealedIsChecked(s: Scheme, key: GoString, q: Payload, v: Verifier, want: Binding, now: int)
    requires s.CodecRoundTrips() && s.SignaturesCheck() && s.Utf8Payload(q) && |key| == PRIVATE_KEY_SIZE
    requires q.issuer in v.trusted && v.trusted[q.issuer] == s.publicKey(key)
    ensures Verify(s, v, Seal(s, key, q), want, now) == CheckPayload(s, v, q.issuer, q, want, now)
  {
    SealedParts(s, key, q);
    KeyAndCodec(s, key, q);
    assert ParseUnverified(s, Seal(s, key, q)) == Ok(q);
  }

  /** The parts of an accepted credential. */
  lemma Accepted(s: Scheme, v: Verifier, credential: string, want: Binding, now: int)
    requires Verify(s, v, credential, want, now).Ok?
    ensures var p := Verify(s, v, credential, want, now).value;
      && Cut(credential).Some? && DecodeRawUrl(Cut(credential).value.1).Some?
      && p.issuer in v.trusted
      && s.checks(v.trusted[p.issuer], Cut(credential).value.0, DecodeRawUrl(Cut(credential).value.1).value)
      && DecodeRawUrl(Cut(credential).value.0).Some?
      && s.decodeStrict(DecodeRawUrl(Cut(credential).value.0).value) == Some(p)
      && p.id != [] && p.binding == Digest(s, want) && UsableAt(p, now)
  {
  }

  predicate ContentError(e: Error) {
    e in {WrongVersion, Expired, NotYetValid, LifetimeTooLong, TestMethodRefused, BindingMismatch}
  }

  /** Acceptance, and every error about what a credential says, comes after a signature that checks
      under the key trusted for the issuer the credential names; what was read before the check
      decides nothing else. */
  lemma ContentOnlyAfterSignature(s: Scheme, v: Verifier, credential: string, want: Binding, now: int)
    requires var r := Verify(s, v, credential, want, now); r.Ok? || ContentError(r.error)
    ensures Cut(credential).Some? && DecodeRawUrl(Cut(credential).value.1).Some?
    ensures ParseUnverified(s, credential).Ok? && ParseUnverified(s, credential).value.issuer in v.trusted
    ensures var key := v.trusted[ParseUnverified(s, credential).value.issuer];
      && |key| == PUBLIC_KEY_SIZE
      && s.checks(key, Cut(credential).value.0, DecodeRawUrl(Cut(credential).value.1).value)
  {
  }

  /** The transaction is looked at last: it only decides between acceptance and a mismatch, so
      every other error is the same whatever transaction a credential is presented against. */
  lemma TransactionDecidesLast(s: Scheme, v: Verifier, credential: string, want: Binding, other: Binding, now: int)
    ensures var r, t := Verify(s, v, credential, want, now), Verify(s, v, credential, other, now);
      r == t || ((r.Ok? || r == Err(BindingMismatch)) && (t.Ok? || t == Err(BindingMismatch)))
  {
  }

  /** A credential accepted for one transaction is refused for every other one, and the refusal
      is BindingMismatch, the error to alert on. */
  lemma RepointingRefused(s: Scheme, v: Verifier, credential: string, want: Binding, other: Binding, now: int)
    requires Apart(s, want, other)
    requires Verify(s, v, credential, want, now).Ok? && other != want
    ensures Verify(s, v, credential, other, now) == Err(BindingMismatch)
  {
    DigestInjective(s, want, other);
  }

  /** Any two instants at which one credential is accepted are at most 360 seconds apart. */
  lemma AcceptedWindow(s: Scheme, v: Verifier, credential: string, a: Binding, b: Binding, t: int, u: int)
    requires Verify(s, v, credential, a, t).Ok? && Verify(s, v, credential, b, u).Ok?
    requires var p := Verify(s, v, credential, a, t).value; p.expiresAt - p.issuedAt <= MAX
    ensures -360 <= Unix(t) - Unix(u) <= 360
  {
    Accepted(s, v, credential, a, t);
    Accepted(s, v, credential, b, u);
    UsableTime(Verify(s, v, credential, a, t).value);
  }

  /** A payload that lasts from the first second an int64 can hold to the last: its lifetime wraps to
      minus one, so it is minted, and it is usable for ever. */
  const FOREVER := Payload([], Ascii("id"), [], Ascii("s"), Ascii("m"), [1], MIN, MAX)

  lemma WrappedLifetime(s: Scheme, i: Issuer)
    requires |i.key| == PRIVATE_KEY_SIZE && i.name != []
    ensures Mint(s, i, FOREVER).Ok? && !UsableTimeBounded(Filled(i, FOREVER))
  {
    assert |FOREVER.id| == 2 && |FOREVER.subject| == 1 && |FOREVER.how| == 1;
    assert Lifetime(FOREVER) == -1;
    UsableTime(Filled(i, FOREVER));
  }

  /** Trusting one more issuer name changes nothing for credentials that name another issuer. */
  lemma TrustIsSeparate(s: Scheme, v: Verifier, name: GoString, key: GoString,
                        credential: string, want: Binding, now: int)
    requires ParseUnverified(s, credential).Ok? ==> ParseUnverified(s, credential).value.issuer != name
    ensures Verify(s, v.(trusted := v.trusted[name := key]), credential, want, now)
         == Verify(s, v, credential, want, now)
  {
    var w := v.(trusted := v.trusted[name := key]);
    match ParseUnverified(s, credential)
    case Err(_) =>
    case Ok(claimed) =>
      assert claimed.issuer in w.trusted <==> claimed.issuer in v.trusted;
  }
}
