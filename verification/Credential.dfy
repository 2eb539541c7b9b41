/** The wire format shared by bounded-authority credentials and authorisation grants:
    base64url(payload JSON) "." base64url(signature), the signature covering the encoded text. */
module Credential {
  import opened Wrappers
  import opened Int64
  import opened LengthPrefix
  import opened Base64Url

  const PRIVATE_KEY_SIZE := 64
  const PUBLIC_KEY_SIZE := 32
  const MAX_LIFETIME := 300
  const MAX_CLOCK_SKEW := 30
  const NANOS_PER_SECOND := 1_000_000_000

  /** The text of a digest. Its length is left open: no hash into texts of bounded length is free of
      collisions. */
  type HashText = seq<Byte>

  datatype Payload = Payload(
    version: GoString, id: GoString, issuer: GoString, subject: GoString, how: GoString,
    binding: HashText, issuedAt: int64, expiresAt: int64)

  /** The primitives the code calls and this model leaves abstract: SHA-256 followed by
      lower-case hex, Ed25519, and encoding/json with and without unknown fields. */
  datatype Scheme = Scheme(
    hash: seq<Byte> -> HashText,
    publicKey: GoString -> GoString,
    sign: (GoString, string) -> seq<Byte>,
    checks: (GoString, string, seq<Byte>) -> bool,
    utf8: seq<Byte> -> bool,
    marshal: Payload -> seq<Byte>,
    unmarshal: seq<Byte> -> Option<Payload>,
    decodeStrict: seq<Byte> -> Option<Payload>)
  {
    /** JSON strings carry UTF-8 text only; the encoder rewrites anything else. */
    predicate Utf8Payload(p: Payload) {
      utf8(p.version) && utf8(p.id) && utf8(p.issuer) && utf8(p.subject) && utf8(p.how) && utf8(p.binding)
    }

    /** The two inputs do not collide. */
    predicate Apart(x: seq<Byte>, y: seq<Byte>) {
      hash(x) == hash(y) ==> x == y
    }

    ghost predicate CollisionFree() {
      forall x, y :: Apart(x, y)
    }

    ghost predicate DigestsNotEmpty() {
      forall x :: hash(x) != []
    }

    ghost predicate CodecRoundTrips() {
      forall p {:trigger marshal(p)} :: Utf8Payload(p) ==>
        marshal(p) != [] && unmarshal(marshal(p)) == Some(p) && decodeStrict(marshal(p)) == Some(p)
    }

    ghost predicate SignaturesCheck() {
      && (forall k: GoString :: |k| == PRIVATE_KEY_SIZE ==> |publicKey(k)| == PUBLIC_KEY_SIZE)
      && (forall k: GoString, m: string {:trigger sign(k, m)} :: |k| == PRIVATE_KEY_SIZE ==>
            sign(k, m) != [] && checks(publicKey(k), m, sign(k, m)))
    }
  }

  /** strings.Cut(s, "."). */
  function Cut(s: string): Option<(string, string)> {
    if s == "" then None
    else if s[0] == '.' then Some(("", s[1..]))
    else
      match Cut(s[1..])
      case None => None
      case Some((before, after)) => Some(([s[0]] + before, after))
  }

  lemma {:induction false} CutAtFirstDot(before: string, after: string)
    requires '.' !in before
    ensures Cut(before + "." + after) == Some((before, after))
  {
    var s := before + "." + after;
    if before == "" {
      assert s[1..] == after;
    } else {
      assert s[0] == before[0] && before[0] in before;
      assert s[1..] == before[1..] + "." + after;
      CutAtFirstDot(before[1..], after);
      assert [before[0]] + before[1..] == before;
    }
  }

  function EncodedPayload(s: Scheme, p: Payload): string {
    EncodeRawUrl(s.marshal(p))
  }

  function Seal(s: Scheme, key: GoString, p: Payload): string {
    EncodedPayload(s, p) + "." + EncodeRawUrl(s.sign(key, EncodedPayload(s, p)))
  }

  /** Both halves of a sealed payload can be taken apart again. */
  lemma SealedParts(s: Scheme, key: GoString, p: Payload)
    requires s.CodecRoundTrips() && s.SignaturesCheck() && s.Utf8Payload(p) && |key| == PRIVATE_KEY_SIZE
    ensures var encoded := EncodedPayload(s, p); var sig := s.sign(key, encoded);
      && Cut(Seal(s, key, p)) == Some((encoded, EncodeRawUrl(sig)))
      && encoded != "" && EncodeRawUrl(sig) != ""
      && DecodeRawUrl(encoded) == Some(s.marshal(p))
      && DecodeRawUrl(EncodeRawUrl(sig)) == Some(sig)
      && s.checks(s.publicKey(key), encoded, sig)
  {
    var encoded := EncodedPayload(s, p);
    var sig := s.sign(key, encoded);
    RenderAlphabet(UrlSafe, Split(s.marshal(p)));
    assert !InAlphabet(UrlSafe, '.');
    CutAtFirstDot(encoded, EncodeRawUrl(sig));
    GoRoundTrip(s.marshal(p));
    GoRoundTrip(sig);
    SplitLength(s.marshal(p));
    SplitLength(sig);
  }

  lemma KeyAndCodec(s: Scheme, key: GoString, p: Payload)
    requires s.CodecRoundTrips() && s.SignaturesCheck() && s.Utf8Payload(p) && |key| == PRIVATE_KEY_SIZE
    ensures |s.publicKey(key)| == PUBLIC_KEY_SIZE
    ensures s.unmarshal(s.marshal(p)) == Some(p) && s.decodeStrict(s.marshal(p)) == Some(p)
  {
    assert |s.sign(key, EncodedPayload(s, p))| > 0;
  }

  /** time.Time.Unix for an instant in nanoseconds: whole seconds, rounded down. */
  function Unix(nanos: int): int {
    nanos / NANOS_PER_SECOND
  }

  function Seconds(n: int): int {
    n * NANOS_PER_SECOND
  }

  /** The lifetime both ends compare with the ceiling, subtracted in wrapping int64 arithmetic. */
  function Lifetime(p: Payload): int64 {
    Wrap(p.expiresAt - p.issuedAt)
  }

  predicate TooEarly(p: Payload, now: int) {
    Unix(now + Seconds(MAX_CLOCK_SKEW)) < p.issuedAt
  }

  predicate TooLate(p: Payload, now: int) {
    Unix(now - Seconds(MAX_CLOCK_SKEW)) > p.expiresAt
  }

  lemma UnixShift(now: int, n: int)
    ensures Unix(now + Seconds(n)) == Unix(now) + n && Unix(now - Seconds(n)) == Unix(now) - n
  {
  }

  ghost predicate UsableAt(p: Payload, now: int) {
    Lifetime(p) <= MAX_LIFETIME && !TooEarly(p, now) && !TooLate(p, now)
  }

  ghost predicate UsableTimeBounded(p: Payload) {
    forall s, t :: UsableAt(p, s) && UsableAt(p, t) ==> Unix(t) - Unix(s) <= MAX_LIFETIME + 2 * MAX_CLOCK_SKEW
  }

  /** A payload whose lifetime passes the ceiling is usable for at most 360 seconds, whichever
      instants are tried, exactly when its two timestamps subtract without wrapping. */
  lemma UsableTime(p: Payload)
    requires Lifetime(p) <= MAX_LIFETIME
    ensures UsableTimeBounded(p) <==> p.expiresAt - p.issuedAt <= MAX
  {
    if p.expiresAt - p.issuedAt <= MAX {
      assert p.expiresAt - p.issuedAt <= MAX_LIFETIME;
    } else {
      var s, t := Seconds(p.issuedAt), Seconds(p.expiresAt);
      assert UsableAt(p, s) && UsableAt(p, t);
      assert Unix(t) - Unix(s) == p.expiresAt - p.issuedAt;
    }
  }

  /** Non-negative timestamps never wrap. */
  lemma UsableTimeOfOrdinaryPayloads(p: Payload, s: int, t: int)
    requires p.issuedAt >= 0 && UsableAt(p, s) && UsableAt(p, t)
    ensures -360 <= Unix(t) - Unix(s) <= 360
  {
    UsableTime(p);
  }
}
