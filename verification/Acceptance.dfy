/** What Verify and Mint decide, said without their code: for any string whatever, exactly when it is
    accepted and as what, and exactly which strings give each error. The constants are those of
    modules/boundedauth/authority.go and services/authgrant/grant.go, written out. */
module Acceptance {
  import opened Wrappers
  import opened Int64
  import opened LengthPrefix
  import opened Base64Url
  import opened Credential
  import Authority
  import Grant

  // ----- reading a token -----

  /** The parts of a token in the wire format. */
  datatype Reading = Reading(encoded: string, sig: seq<Byte>, body: seq<Byte>)

  function Read(token: string): Option<Reading> {
    match Cut(token)
    case None => None
    case Some((encoded, sig)) =>
      if encoded != "" && sig != "" && DecodeRawUrl(encoded).Some? && DecodeRawUrl(sig).Some? then
        Some(Reading(encoded, DecodeRawUrl(sig).value, DecodeRawUrl(encoded).value))
      else None
  }

  // ----- the tests on a payload, in the order in which they are made -----

  const CREDENTIAL: GoString := Ascii("bounded-authority/1")
  const TEST: GoString := Ascii("test_authenticator")
  const GRANT: GoString := Ascii("ephera-authorisation-grant/1")
  const IDENTITY: GoString := Ascii("ephera-identity-access")

  predicate Short(p: Payload) { Wrap(p.expiresAt - p.issuedAt) <= 300 }

  /** Clocks are in nanoseconds, timestamps in seconds, and clocks may be off by thirty of these. */
  predicate Begun(p: Payload, now: int) { p.issuedAt <= now / 1_000_000_000 + 30 }

  predicate Live(p: Payload, now: int) { now / 1_000_000_000 - 30 <= p.expiresAt }

  lemma WindowIs(p: Payload, now: int)
    ensures TooEarly(p, now) <==> !Begun(p, now)
    ensures TooLate(p, now) <==> !Live(p, now)
  {
    UnixShift(now, MAX_CLOCK_SKEW);
  }

  // ----- credentials -----

  /** The payload read before the signature is checked, which says whose key to check it with. */
  predicate Readable(s: Scheme, token: string) {
    Read(token).Some? && s.unmarshal(Read(token).value.body).Some?
  }

  function Claimed(s: Scheme, token: string): GoString
    requires Readable(s, token)
  {
    s.unmarshal(Read(token).value.body).value.issuer
  }

  predicate Trusted(s: Scheme, v: Authority.Verifier, token: string) {
    Readable(s, token) && Claimed(s, token) in v.trusted
  }

  predicate Keyed(s: Scheme, v: Authority.Verifier, token: string) {
    Trusted(s, v, token) && |v.trusted[Claimed(s, token)]| == 32
  }

  predicate Signed(s: Scheme, v: Authority.Verifier, token: string) {
    && Keyed(s, v, token)
    && s.checks(v.trusted[Claimed(s, token)], Read(token).value.encoded, Read(token).value.sig)
  }

  /** Signed, and the body decodes with no field unknown. */
  predicate Carries(s: Scheme, v: Authority.Verifier, token: string, p: Payload) {
    Signed(s, v, token) && s.decodeStrict(Read(token).value.body) == Some(p)
  }

  predicate Whole(p: Payload, claimed: GoString) { p.issuer == claimed && p.id != [] }

  predicate Permitted(v: Authority.Verifier, p: Payload) {
    p.how == TEST ==> v.allowTestMethod
  }

  predicate BoundTo(s: Scheme, p: Payload, want: Authority.Binding) {
    p.binding == s.hash(Authority.Preimage(CREDENTIAL, want))
  }

  /** For a token that does not carry a signed payload: which error it gives. */
  lemma UnsignedExactly(s: Scheme, v: Authority.Verifier, token: string, want: Authority.Binding, now: int)
    requires forall p :: !Carries(s, v, token, p)
    ensures Authority.Verify(s, v, token, want, now) == Err(
      if Readable(s, token) && !Trusted(s, v, token) then Authority.UntrustedIssuer
      else if Keyed(s, v, token) && !Signed(s, v, token) then Authority.BadSignature
      else Authority.Malformed)
  {
    if Signed(s, v, token) && s.decodeStrict(Read(token).value.body).Some? {
      assert Carries(s, v, token, s.decodeStrict(Read(token).value.body).value);
    }
  }

  lemma CarriedIsChecked(s: Scheme, v: Authority.Verifier, token: string, p: Payload, want: Authority.Binding, now: int)
    requires Carries(s, v, token, p)
    ensures Authority.Verify(s, v, token, want, now)
         == Authority.CheckPayload(s, v, Claimed(s, token), p, want, now)
  {
  }

  /** The result for a token that carries a signed payload: accepted exactly when every test is
      passed, and otherwise refused by the first one failed. */
  ghost predicate Decision(s: Scheme, v: Authority.Verifier, claimed: GoString, p: Payload, want: Authority.Binding,
                           now: int, version: bool, r: Result<Payload, Authority.Error>) {
    var whole, how := Whole(p, claimed), Permitted(v, p) && p.how != [];
    && (r == Ok(p) <==> version && whole && how && Short(p) && Begun(p, now) && Live(p, now) && BoundTo(s, p, want))
    && (r == Err(Authority.WrongVersion) <==> !version)
    && (r == Err(Authority.TestMethodRefused) <==> version && whole && !Permitted(v, p))
    && (r == Err(Authority.Malformed) <==> version && (!whole || (Permitted(v, p) && p.how == [])))
    && (r == Err(Authority.LifetimeTooLong) <==> version && whole && how && !Short(p))
    && (r == Err(Authority.NotYetValid) <==> version && whole && how && Short(p) && !Begun(p, now))
    && (r == Err(Authority.Expired) <==> version && whole && how && Short(p) && Begun(p, now) && !Live(p, now))
    && (r == Err(Authority.BindingMismatch) <==>
          version && whole && how && Short(p) && Begun(p, now) && Live(p, now) && !BoundTo(s, p, want))
  }

  lemma CarriedExactly(s: Scheme, v: Authority.Verifier, token: string, p: Payload, want: Authority.Binding, now: int)
    requires Carries(s, v, token, p)
    ensures Decision(s, v, Claimed(s, token), p, want, now, p.version == CREDENTIAL,
                     Authority.Verify(s, v, token, want, now))
  {
    CarriedIsChecked(s, v, token, p, want, now);
    Decides(s, v, Claimed(s, token), p, want, now);
  }

  lemma Decides(s: Scheme, v: Authority.Verifier, claimed: GoString, p: Payload, want: Authority.Binding, now: int)
    ensures Decision(s, v, claimed, p, want, now, p.version == Authority.VERSION,
                     Authority.CheckPayload(s, v, claimed, p, want, now))
  {
    WindowIs(p, now);
  }

  /** Acceptance of an arbitrary string. */
  lemma AcceptedExactly(s: Scheme, v: Authority.Verifier, token: string, p: Payload, want: Authority.Binding, now: int)
    ensures Authority.Verify(s, v, token, want, now) == Ok(p) <==>
      && Carries(s, v, token, p)
      && p.version == CREDENTIAL && Whole(p, Claimed(s, token))
      && Permitted(v, p) && p.how != []
      && Short(p) && Begun(p, now) && Live(p, now) && BoundTo(s, p, want)
  {
    if q :| Carries(s, v, token, q) {
      CarriedExactly(s, v, token, q, want, now);
      CarriedIsChecked(s, v, token, q, want, now);
    } else {
      UnsignedExactly(s, v, token, want, now);
    }
  }

  /** Minting: the conditions on key, name and payload, the token that results, and the errors. */
  lemma MintedExactly(s: Scheme, i: Authority.Issuer, p: Payload)
    ensures var fit := |i.key| == 64 && i.name != [] && p.id != [] && p.subject != [] && p.binding != []
                       && p.how != [] && p.issuedAt < p.expiresAt;
      && (Authority.Mint(s, i, p).Ok? <==> fit && Short(p))
      && (Authority.Mint(s, i, p) == Err(Authority.LifetimeTooLong) <==> fit && !Short(p))
      && (Authority.Mint(s, i, p) == Err(Authority.Malformed) <==> !fit)
    ensures Authority.Mint(s, i, p).Ok? ==>
      var q := p.(version := CREDENTIAL, issuer := i.name);
      var text := EncodeRawUrl(s.marshal(q));
      Authority.Mint(s, i, p).value == text + "." + EncodeRawUrl(s.sign(i.key, text))
  {
  }

  // ----- grants -----

  predicate GrantSigned(s: Scheme, pub: GoString, token: string) {
    |pub| == 32 && Read(token).Some? && s.checks(pub, Read(token).value.encoded, Read(token).value.sig)
  }

  predicate GrantCarries(s: Scheme, pub: GoString, token: string, p: Payload) {
    GrantSigned(s, pub, token) && s.decodeStrict(Read(token).value.body) == Some(p)
  }

  predicate GrantBoundTo(s: Scheme, p: Payload, want: Grant.Binding) {
    p.binding == s.hash(Grant.Preimage(want))
  }

  /** The signature is checked before the payload is decoded, so a body that is no base64url gives
      BadSignature unless its signature checks. */
  lemma GrantUnsignedExactly(s: Scheme, pub: GoString, token: string, want: Grant.Binding, now: int)
    requires forall p :: !GrantCarries(s, pub, token, p)
    ensures Grant.Verify(s, pub, token, want, now) == Err(
      if |pub| == 32 && Cut(token).Some? && Cut(token).value.0 != "" && Cut(token).value.1 != ""
         && DecodeRawUrl(Cut(token).value.1).Some?
         && !s.checks(pub, Cut(token).value.0, DecodeRawUrl(Cut(token).value.1).value)
      then Grant.BadSignature else Grant.Malformed)
  {
    if GrantSigned(s, pub, token) && s.decodeStrict(Read(token).value.body).Some? {
      assert GrantCarries(s, pub, token, s.decodeStrict(Read(token).value.body).value);
    }
  }

  lemma GrantIsChecked(s: Scheme, pub: GoString, token: string, p: Payload, want: Grant.Binding, now: int)
    requires GrantCarries(s, pub, token, p)
    ensures Grant.Verify(s, pub, token, want, now) == Grant.CheckPayload(s, p, want, now)
  {
  }

  lemma GrantConstants(p: Payload)
    ensures p.version == GRANT <==> p.version == Grant.VERSION
    ensures p.issuer == IDENTITY <==> p.issuer == Grant.ISSUER
  {
  }

  lemma GrantCarriedExactly(s: Scheme, pub: GoString, token: string, p: Payload, want: Grant.Binding, now: int)
    requires GrantCarries(s, pub, token, p)
    ensures var r := Grant.Verify(s, pub, token, want, now);
      var version, issuer := p.version == GRANT, p.issuer == IDENTITY;
      GrantDecision(s, p, want, now, version, issuer, r)
  {
    GrantIsChecked(s, pub, token, p, want, now);
    GrantConstants(p);
    WindowIs(p, now);
    GrantDecides(s, p, want, now);
  }

  /** The result of a grant that carries a signed payload: accepted exactly when every test is passed,
      and otherwise refused by the first one failed. */
  ghost predicate GrantDecision(s: Scheme, p: Payload, want: Grant.Binding, now: int, version: bool, issuer: bool,
                                r: Result<Payload, Grant.Error>) {
    && (r == Ok(p) <==>
          version && issuer && p.id != [] && Short(p) && Begun(p, now) && Live(p, now) && GrantBoundTo(s, p, want))
    && (r == Err(Grant.WrongVersion) <==> !version)
    && (r == Err(Grant.WrongIssuer) <==> version && !issuer)
    && (r == Err(Grant.Malformed) <==> version && issuer && p.id == [])
    && (r == Err(Grant.LifetimeTooLong) <==> version && issuer && p.id != [] && !Short(p))
    && (r == Err(Grant.NotYetValid) <==> version && issuer && p.id != [] && Short(p) && !Begun(p, now))
    && (r == Err(Grant.Expired) <==>
          version && issuer && p.id != [] && Short(p) && Begun(p, now) && !Live(p, now))
    && (r == Err(Grant.BindingMismatch) <==>
          version && issuer && p.id != [] && Short(p) && Begun(p, now) && Live(p, now) && !GrantBoundTo(s, p, want))
  }

  lemma GrantDecides(s: Scheme, p: Payload, want: Grant.Binding, now: int)
    ensures GrantDecision(s, p, want, now, p.version == Grant.VERSION, p.issuer == Grant.ISSUER,
                          Grant.CheckPayload(s, p, want, now))
  {
    WindowIs(p, now);
  }

  lemma GrantAcceptedExactly(s: Scheme, pub: GoString, token: string, p: Payload, want: Grant.Binding, now: int)
    ensures Grant.Verify(s, pub, token, want, now) == Ok(p) <==>
      && GrantCarries(s, pub, token, p)
      && p.version == GRANT && p.issuer == IDENTITY && p.id != []
      && Short(p) && Begun(p, now) && Live(p, now) && GrantBoundTo(s, p, want)
  {
    if q :| GrantCarries(s, pub, token, q) {
      GrantCarriedExactly(s, pub, token, q, want, now);
      GrantIsChecked(s, pub, token, q, want, now);
    } else {
      GrantUnsignedExactly(s, pub, token, want, now);
    }
  }

  lemma GrantMintedExactly(s: Scheme, key: GoString, p: Payload)
    ensures var fit := |key| == 64 && p.id != [] && p.subject != [] && p.binding != [];
      && (Grant.Mint(s, key, p).Ok? <==> fit && Short(p))
      && (Grant.Mint(s, key, p) == Err(Grant.LifetimeTooLong) <==> fit && !Short(p))
      && (Grant.Mint(s, key, p) == Err(Grant.Malformed) <==> !fit)
    ensures Grant.Mint(s, key, p).Ok? ==>
      var q := p.(version := if p.version == [] then GRANT else p.version,
                  issuer := if p.issuer == [] then IDENTITY else p.issuer);
      var text := EncodeRawUrl(s.marshal(q));
      Grant.Mint(s, key, p).value == text + "." + EncodeRawUrl(s.sign(key, text))
  {
  }
}
