/** services/authgrant/grant.go: the authorisation grant of the ledger service, whose digest starts
    with the raw version string instead of a length-prefixed one. */
module Grant {
  import opened Seqs
  import opened Wrappers
  import opened Int64
  import opened LengthPrefix
  import opened Base64Url
  import opened Credential
  import Authority

  const VERSION: GoString := Ascii("ephera-authorisation-grant/1")
  const ISSUER: GoString := Ascii("ephera-identity-access")

  datatype Error =
    | Malformed | BadSignature | Expired | NotYetValid | WrongIssuer | WrongVersion
    | BindingMismatch | LifetimeTooLong

  datatype Binding = Binding(
    fromExternalRef: GoString, toExternalRef: GoString, amountMinor: int64, feeMinor: int64,
    currency: GoString, transferId: GoString)

  function Items(b: Binding): seq<Item> {
    [Field(b.fromExternalRef), Field(b.toExternalRef), Number(b.amountMinor), Number(b.feeMinor),
     Field(b.currency), Field(b.transferId)]
  }

  function Preimage(b: Binding): seq<Byte> {
    VERSION + Encode(Items(b))
  }

  function Digest(s: Scheme, b: Binding): HashText {
    s.hash(Preimage(b))
  }

  method ComputeDigest(s: Scheme, b: Binding) returns (digest: HashText)
    ensures digest == Digest(s, b)
  {
    var h := new Hasher();
    h.Write(VERSION);
    WriteBinding(h, b);
    assert [] + VERSION == VERSION;
    digest := s.hash(h.written);
  }

  method WriteBinding(h: Hasher, b: Binding)
    modifies h
    ensures h.written == old(h.written) + Encode(Items(b))
  {
    var from, to := Field(b.fromExternalRef), Field(b.toExternalRef);
    var amount, fee := Number(b.amountMinor), Number(b.feeMinor);
    var currency, transfer := Field(b.currency), Field(b.transferId);
    h.WriteField(b.fromExternalRef);
    h.WriteField(b.toExternalRef);
    h.WriteInt(b.amountMinor);
    h.WriteInt(b.feeMinor);
    EncodeFour(old(h.written), from, to, amount, fee);
    h.WriteField(b.currency);
    h.WriteField(b.transferId);
    EncodeSix(old(h.written), [from, to, amount, fee], currency, transfer);
    assert [from, to, amount, fee] + [currency, transfer] == Items(b);
  }

  lemma EncodeSix(before: seq<Byte>, four: seq<Item>, x: Item, y: Item)
    ensures before + Encode(four) + EncodeItem(x) + EncodeItem(y) == before + Encode(four + [x, y])
  {
    EncodePair(x, y);
    EncodeConcat(four, [x, y]);
    Assoc(before + Encode(four), EncodeItem(x), EncodeItem(y));
    Assoc(before, Encode(four), EncodeItem(x) + EncodeItem(y));
  }

  /** The layout of the hashed bytes: the bare version, then each text after its length in eight bytes
      and each amount as eight bytes of two's complement, in this order. */
  lemma PreimageLayout(b: Binding)
    ensures Preimage(b)
         == VERSION
          + (BigEndian(|b.fromExternalRef|, 8) + b.fromExternalRef)
          + (BigEndian(|b.toExternalRef|, 8) + b.toExternalRef)
          + BigEndian(ToUint64(b.amountMinor), 8)
          + BigEndian(ToUint64(b.feeMinor), 8)
          + (BigEndian(|b.currency|, 8) + b.currency)
          + (BigEndian(|b.transferId|, 8) + b.transferId)
  {
    LayoutAfter(VERSION, b);
  }

  lemma LayoutAfter(start: seq<Byte>, b: Binding)
    ensures start + Encode(Items(b))
         == start + (BigEndian(|b.fromExternalRef|, 8) + b.fromExternalRef)
          + (BigEndian(|b.toExternalRef|, 8) + b.toExternalRef)
          + BigEndian(ToUint64(b.amountMinor), 8)
          + BigEndian(ToUint64(b.feeMinor), 8)
          + (BigEndian(|b.currency|, 8) + b.currency)
          + (BigEndian(|b.transferId|, 8) + b.transferId)
  {
    var from, to := Field(b.fromExternalRef), Field(b.toExternalRef);
    var amount, fee := Number(b.amountMinor), Number(b.feeMinor);
    EncodeFour(start, from, to, amount, fee);
    EncodeSix(start, [from, to, amount, fee], Field(b.currency), Field(b.transferId));
    assert Items(b) == [from, to, amount, fee] + [Field(b.currency), Field(b.transferId)];
  }

  lemma PreimageInjective(b: Binding, c: Binding)
    ensures Preimage(b) == Preimage(c) <==> b == c
  {
    if Preimage(b) == Preimage(c) {
      var xs, ys := Items(b), Items(c);
      assert Encode(xs) == Preimage(b)[|VERSION|..] && Encode(ys) == Preimage(c)[|VERSION|..];
      assert Kinds(xs) == Kinds(ys);
      assert Encode(xs) + [] == Encode(ys) + [];
      EncodeInjective(xs, ys, [], []);
      assert xs[0] == ys[0] && xs[1] == ys[1] && xs[2] == ys[2];
      assert xs[3] == ys[3] && xs[4] == ys[4] && xs[5] == ys[5];
    }
  }

  /** No transfer bound here feeds the hash the bytes of a transaction bound under bounded authority:
      the first byte is a letter here and the top of a short length there. */
  lemma PreimagesAreDisjoint(g: Binding, b: Authority.Binding)
    ensures Preimage(g) != Authority.Preimage(Authority.VERSION, b)
  {
    var items := Authority.Items(Authority.VERSION, b);
    var prefix := BigEndian(|Authority.VERSION|, 8);
    assert Encode(items) == EncodeItem(items[0]) + Encode(items[1..]);
    assert Authority.Preimage(Authority.VERSION, b)[0] == prefix[0];
    assert prefix[0] == 0 by {
      LeadingZero(|Authority.VERSION|, 8);
    }
    assert Preimage(g)[0] == VERSION[0] == 101;
  }

  lemma DigestsAreDisjoint(s: Scheme, g: Binding, b: Authority.Binding)
    requires s.Apart(Preimage(g), Authority.Preimage(Authority.VERSION, b))
    ensures Digest(s, g) != Authority.Digest(s, b)
  {
    PreimagesAreDisjoint(g, b);
  }

  lemma {:induction false} LeadingZero(n: nat, w: nat)
    requires n < 256 && w >= 2
    ensures BigEndian(n, w)[0] == 0
  {
    if w > 2 {
      LeadingZero(n / 256, w - 1);
    } else {
      assert BigEndian(n / 256, 1) == [] + [n / 256 % 256];
    }
  }

  function Filled(p: Payload): Payload {
    p.(version := if p.version == [] then VERSION else p.version,
       issuer := if p.issuer == [] then ISSUER else p.issuer)
  }

  function Mint(s: Scheme, key: GoString, p: Payload): Result<string, Error> {
    if |key| != PRIVATE_KEY_SIZE then Err(Malformed)
    else if p.id == [] || p.subject == [] || p.binding == [] then Err(Malformed)
    else if Lifetime(p) > MAX_LIFETIME then Err(LifetimeTooLong)
    else Ok(Seal(s, key, Filled(p)))
  }

  function CheckPayload(s: Scheme, p: Payload, want: Binding, now: int): Result<Payload, Error> {
    if p.version != VERSION then Err(WrongVersion)
    else if p.issuer != ISSUER then Err(WrongIssuer)
    else if p.id == [] then Err(Malformed)
    else if Lifetime(p) > MAX_LIFETIME then Err(LifetimeTooLong)
    else if TooEarly(p, now) then Err(NotYetValid)
    else if TooLate(p, now) then Err(Expired)
    else if p.binding != Digest(s, want) then Err(BindingMismatch)
    else Ok(p)
  }

  function Verify(s: Scheme, pub: GoString, grant: string, want: Binding, now: int): Result<Payload, Error> {
    if |pub| != PUBLIC_KEY_SIZE then Err(Malformed)
    else
      match Cut(grant)
      case None => Err(Malformed)
      case Some((encoded, sigPart)) =>
        if encoded == "" || sigPart == "" then Err(Malformed)
        else
          match DecodeRawUrl(sigPart)
          case None => Err(Malformed)
          case Some(sig) =>
            if !s.checks(pub, encoded, sig) then Err(BadSignature)
            else
              match DecodeRawUrl(encoded)
              case None => Err(Malformed)
              case Some(body) =>
                match s.decodeStrict(body)
                case None => Err(Malformed)
                case Some(p) => CheckPayload(s, p, want, now)
  }

  /** Nothing inside a grant is looked at until its signature has checked. */
  lemma SignatureFirst(s: Scheme, pub: GoString, grant: string, want: Binding, now: int)
    requires var r := Verify(s, pub, grant, want, now); r.Ok? || r.error !in {Malformed, BadSignature}
    ensures Cut(grant).Some? && DecodeRawUrl(Cut(grant).value.1).Some?
    ensures s.checks(pub, Cut(grant).value.0, DecodeRawUrl(Cut(grant).value.1).value)
  {
  }

  /** A grant minted for one transfer is accepted for exactly that transfer, at exactly the clock
      readings in its window, and only if the caller left version and issuer to Mint or named
      the right ones. A grant whose window is empty is minted and can never be used. */
  lemma MintThenVerify(s: Scheme, key: GoString, p: Payload, b: Binding, want: Binding, now: int)
    requires s.CodecRoundTrips() && s.SignaturesCheck() && s.Utf8Payload(Filled(p))
    requires Mint(s, key, p).Ok? && p.binding == Digest(s, b) && s.Apart(Preimage(b), Preimage(want))
    ensures Verify(s, s.publicKey(key), Mint(s, key, p).value, want, now) == Ok(Filled(p)) <==>
            && want == b
            && (p.version == [] || p.version == VERSION) && (p.issuer == [] || p.issuer == ISSUER)
            && p.issuedAt - MAX_CLOCK_SKEW <= Unix(now) <= p.expiresAt + MAX_CLOCK_SKEW
    ensures Verify(s, s.publicKey(key), Mint(s, key, p).value, want, now).Ok? ==>
            Verify(s, s.publicKey(key), Mint(s, key, p).value, want, now).value == Filled(p)
  {
    SealedIsChecked(s, key, Filled(p), want, now);
    UnixShift(now, MAX_CLOCK_SKEW);
    PreimageInjective(b, want);
  }

  /** A grant that expires 61 seconds before it is issued, more than both skews together. */
  const LATE := Payload([], Ascii("g"), [], Ascii("s"), [], [1], 61, 0)

  /** A grant of an unknown version. */
  const ODD := Payload(Ascii("v"), Ascii("g"), [], Ascii("s"), [], [1], 0, 300)

  lemma EmptyWindow(s: Scheme, key: GoString, p: Payload, want: Binding, now: int)
    requires s.CodecRoundTrips() && s.SignaturesCheck() && s.Utf8Payload(Filled(p)) && Mint(s, key, p).Ok?
    requires p.expiresAt + 2 * MAX_CLOCK_SKEW < p.issuedAt
    ensures Verify(s, s.publicKey(key), Mint(s, key, p).value, want, now).Err?
  {
    SealedIsChecked(s, key, Filled(p), want, now);
    UnixShift(now, MAX_CLOCK_SKEW);
  }

  lemma OtherVersion(s: Scheme, key: GoString, p: Payload, want: Binding, now: int)
    requires s.CodecRoundTrips() && s.SignaturesCheck() && s.Utf8Payload(Filled(p)) && Mint(s, key, p).Ok?
    requires Filled(p).version != VERSION
    ensures Verify(s, s.publicKey(key), Mint(s, key, p).value, want, now) == Err(WrongVersion)
  {
    SealedIsChecked(s, key, Filled(p), want, now);
  }

  /** Mint signs both, and nobody ever accepts either. */
  lemma MintedInVain(s: Scheme, key: GoString, want: Binding, now: int)
    requires s.CodecRoundTrips() && s.SignaturesCheck() && |key| == PRIVATE_KEY_SIZE
    requires s.Utf8Payload(Filled(LATE)) && s.Utf8Payload(Filled(ODD))
    ensures Mint(s, key, LATE).Ok? && Verify(s, s.publicKey(key), Mint(s, key, LATE).value, want, now).Err?
    ensures Mint(s, key, ODD).Ok?
    ensures Verify(s, s.publicKey(key), Mint(s, key, ODD).value, want, now) == Err(WrongVersion)
  {
    MintsBoth(s, key);
    assert |Filled(ODD).version| == 1;
    EmptyWindow(s, key, LATE, want, now);
    OtherVersion(s, key, ODD, want, now);
  }

  lemma MintsBoth(s: Scheme, key: GoString)
    requires |key| == PRIVATE_KEY_SIZE
    ensures Mint(s, key, LATE).Ok? && Mint(s, key, ODD).Ok?
  {
    assert |LATE.id| == |LATE.subject| == |ODD.id| == |ODD.subject| == 1;
  }

  lemma SealedIsChecked(s: Scheme, key: GoString, q: Payload, want: Binding, now: int)
    requires s.CodecRoundTrips() && s.SignaturesCheck() && s.Utf8Payload(q) && |key| == PRIVATE_KEY_SIZE
    ensures Verify(s, s.publicKey(key), Seal(s, key, q), want, now) == CheckPayload(s, q, want, now)
  {
    SealedParts(s, key, q);
    KeyAndCodec(s, key, q);
  }
}
