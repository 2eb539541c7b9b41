/** base64url without padding (section 5 of RFC 4648), as the two ends of the system compute it:
    Go's base64.RawURLEncoding, and the browser's btoa/atob with the characters exchanged. */
module Base64Url {
  import opened Wrappers
  import opened LengthPrefix

  type Sextet = x: int | 0 <= x < 64

  // ----- the group structure common to every base64 variant -----

  function Sextet0(x: Byte): Sextet { x / 4 }

  function Sextet1(x: Byte, y: Byte): Sextet { x % 4 * 16 + y / 16 }

  function Sextet2(y: Byte, z: Byte): Sextet { y % 16 * 4 + z / 64 }

  function Sextet3(z: Byte): Sextet { z % 64 }

  /** A last group of one or two bytes is completed with zero bits. */
  function Split(b: seq<Byte>): seq<Sextet> {
    if |b| == 0 then []
    else if |b| == 1 then [Sextet0(b[0]), Sextet1(b[0], 0)]
    else if |b| == 2 then [Sextet0(b[0]), Sextet1(b[0], b[1]), Sextet2(b[1], 0)]
    else [Sextet0(b[0]), Sextet1(b[0], b[1]), Sextet2(b[1], b[2]), Sextet3(b[2])] + Split(b[3..])
  }

  function Byte0(x: Sextet, y: Sextet): Byte { 4 * x + y / 16 }

  function Byte1(y: Sextet, z: Sextet): Byte { y % 16 * 16 + z / 4 }

  function Byte2(z: Sextet, w: Sextet): Byte { z % 4 * 64 + w }

  /** Spare low bits of a last short group are dropped, as both decoders do. */
  function Join(d: seq<Sextet>): Option<seq<Byte>> {
    if |d| == 0 then Some([])
    else if |d| == 1 then None
    else if |d| == 2 then Some([Byte0(d[0], d[1])])
    else if |d| == 3 then Some([Byte0(d[0], d[1]), Byte1(d[1], d[2])])
    else
      match Join(d[4..])
      case None => None
      case Some(rest) => Some([Byte0(d[0], d[1]), Byte1(d[1], d[2]), Byte2(d[2], d[3])] + rest)
  }

  lemma FirstByte(x: Byte, y: Byte)
    ensures Byte0(Sextet0(x), Sextet1(x, y)) == x
  {
  }

  lemma LowBits(high: int, low: int)
    requires 0 <= low < 16
    ensures (high * 16 + low) % 16 == low
  {
  }

  lemma HighBits(high: int, low: int)
    requires 0 <= low < 4
    ensures (high * 4 + low) / 4 == high
  {
  }

  lemma SecondByte(x: Byte, y: Byte, z: Byte)
    ensures Byte1(Sextet1(x, y), Sextet2(y, z)) == y
  {
    LowBits(x % 4, y / 16);
    HighBits(y % 16, z / 64);
  }

  lemma ThirdByte(y: Byte, z: Byte)
    ensures Byte2(Sextet2(y, z), Sextet3(z)) == z
  {
    LowPair(y % 16, z / 64);
  }

  lemma LowPair(high: int, low: int)
    requires 0 <= low < 4
    ensures (high * 4 + low) % 4 == low
  {
  }

  lemma OneByte(x: Byte)
    ensures Join(Split([x])) == Some([x])
  {
    FirstByte(x, 0);
    var d := [Sextet0(x), Sextet1(x, 0)];
    assert Split([x]) == d;
    assert Join(d) == Some([Byte0(d[0], d[1])]);
  }

  lemma TwoBytes(x: Byte, y: Byte)
    ensures Join(Split([x, y])) == Some([x, y])
  {
    FirstByte(x, y);
    SecondByte(x, y, 0);
    assert Split([x, y]) == [Sextet0(x), Sextet1(x, y), Sextet2(y, 0)];
  }

  lemma ThreeBytes(x: Byte, y: Byte, z: Byte, rest: seq<Byte>)
    requires Join(Split(rest)) == Some(rest)
    ensures Join(Split([x, y, z] + rest)) == Some([x, y, z] + rest)
  {
    FirstByte(x, y);
    SecondByte(x, y, z);
    ThirdByte(y, z);
    var b := [x, y, z] + rest;
    var d := [Sextet0(x), Sextet1(x, y), Sextet2(y, z), Sextet3(z)] + Split(rest);
    assert b[3..] == rest && Split(b) == d && d[4..] == Split(rest);
  }

  lemma {:induction false} JoinSplit(b: seq<Byte>)
    ensures Join(Split(b)) == Some(b)
  {
    if |b| == 1 {
      assert b == [b[0]];
      OneByte(b[0]);
    } else if |b| == 2 {
      assert b == [b[0], b[1]];
      TwoBytes(b[0], b[1]);
    } else if |b| >= 3 {
      JoinSplit(b[3..]);
      ThreeBytes(b[0], b[1], b[2], b[3..]);
      assert b == [b[0], b[1], b[2]] + b[3..];
    }
  }

  /** Digits left over by a last group of r bytes. */
  function Tail(r: nat): nat {
    if r == 0 then 0 else r + 1
  }

  lemma {:induction false} GroupLengths(b: seq<Byte>, groups: nat, r: nat)
    requires |b| == 3 * groups + r && r < 3
    ensures |Split(b)| == 4 * groups + Tail(r)
  {
    if groups > 0 {
      GroupLengths(b[3..], groups - 1, r);
    }
  }

  lemma WholeGroups(length: nat, groups: nat, r: nat)
    requires length == 4 * groups + Tail(r) && r < 3
    ensures length % 4 == Tail(r)
  {
  }

  lemma SplitLength(b: seq<Byte>)
    ensures |Split(b)| == 4 * (|b| / 3) + Tail(|b| % 3)
    ensures |Split(b)| % 4 == Tail(|b| % 3)
  {
    GroupLengths(b, |b| / 3, |b| % 3);
    WholeGroups(|Split(b)|, |b| / 3, |b| % 3);
  }

  // ----- alphabets -----

  /** The characters standing for 62 and 63, which is all the two alphabets differ in. */
  datatype Alphabet = Standard | UrlSafe {
    function Char62(): char { if Standard? then '+' else '-' }
    function Char63(): char { if Standard? then '/' else '_' }
  }

  function ToChar(a: Alphabet, d: Sextet): char {
    if d < 26 then (d + 65) as char
    else if d < 52 then (d + 71) as char
    else if d < 62 then (d - 4) as char
    else if d == 62 then a.Char62()
    else a.Char63()
  }

  function FromChar(a: Alphabet, c: char): Option<Sextet> {
    var n := c as int;
    if 65 <= n <= 90 then Some(n - 65)
    else if 97 <= n <= 122 then Some(n - 71)
    else if 48 <= n <= 57 then Some(n + 4)
    else if c == a.Char62() then Some(62)
    else if c == a.Char63() then Some(63)
    else None
  }

  /** The rows of the two alphabets of RFC 4648: capitals, small letters, digits, and two more. */
  lemma AlphabetIs(a: Alphabet, d: Sextet)
    ensures d < 26 ==> ToChar(a, d) as int == 'A' as int + d
    ensures 26 <= d < 52 ==> ToChar(a, d) as int == 'a' as int + (d - 26)
    ensures 52 <= d < 62 ==> ToChar(a, d) as int == '0' as int + (d - 52)
    ensures ToChar(Standard, 62) == '+' && ToChar(Standard, 63) == '/'
    ensures ToChar(UrlSafe, 62) == '-' && ToChar(UrlSafe, 63) == '_'
  {
  }

  /** Three bytes and their four digits are the same 24 bits. */
  lemma GroupValue(x: Byte, y: Byte, z: Byte)
    ensures var a: int, b: int, c: int := x, y, z;
      var p: int, q: int, r: int, s: int := Sextet0(x), Sextet1(x, y), Sextet2(y, z), Sextet3(z);
      65536 * a + 256 * b + c == 262144 * p + 4096 * q + 64 * r + s
  {
  }

  /** A last group of one or two bytes is the group completed with zeros, less its last digits. */
  lemma ShortGroups(x: Byte, y: Byte)
    ensures Split([x]) == Split([x, 0, 0])[..2] && Split([x, y]) == Split([x, y, 0])[..3]
  {
    assert Split([x, 0, 0]) == [Sextet0(x), Sextet1(x, 0), Sextet2(0, 0), Sextet3(0)] + Split([]);
    assert Split([x, y, 0]) == [Sextet0(x), Sextet1(x, y), Sextet2(y, 0), Sextet3(0)] + Split([]);
  }

  function Render(a: Alphabet, d: seq<Sextet>): (s: string)
    ensures |s| == |d|
  {
    if d == [] then "" else [ToChar(a, d[0])] + Render(a, d[1..])
  }

  function Scan(a: Alphabet, s: string): Option<seq<Sextet>> {
    if s == "" then Some([])
    else
      match (FromChar(a, s[0]), Scan(a, s[1..]))
      case (Some(d), Some(ds)) => Some([d] + ds)
      case _ => None
  }

  lemma {:induction false} ScanRender(a: Alphabet, d: seq<Sextet>)
    ensures Scan(a, Render(a, d)) == Some(d)
  {
    if d != [] {
      ScanRender(a, d[1..]);
      ScanFirst(a, d[0], d[1..], Render(a, d[1..]));
      assert [d[0]] + d[1..] == d;
    }
  }

  lemma CharRoundTrip(a: Alphabet, d: Sextet)
    ensures FromChar(a, ToChar(a, d)) == Some(d)
  {
  }

  lemma ScanFirst(a: Alphabet, first: Sextet, rest: seq<Sextet>, text: string)
    requires Scan(a, text) == Some(rest)
    ensures Scan(a, [ToChar(a, first)] + text) == Some([first] + rest)
  {
    var s := [ToChar(a, first)] + text;
    assert s[0] == ToChar(a, first) && s[1..] == text;
    CharRoundTrip(a, first);
  }

  /** A character either alphabet can produce, the URL-safe two only for UrlSafe. */
  predicate InAlphabet(a: Alphabet, c: char) {
    FromChar(a, c).Some?
  }

  predicate AllInAlphabet(a: Alphabet, s: string) {
    forall c :: c in s ==> InAlphabet(a, c)
  }

  lemma {:induction false} RenderAlphabet(a: Alphabet, d: seq<Sextet>)
    ensures AllInAlphabet(a, Render(a, d))
  {
    if d != [] {
      RenderAlphabet(a, d[1..]);
      CharRoundTrip(a, d[0]);
    }
  }

  // ----- Go: base64.RawURLEncoding -----

  function EncodeRawUrl(b: seq<Byte>): string {
    Render(UrlSafe, Split(b))
  }

  /** Go's decoder skips line breaks wherever they stand. */
  function DropLineBreaks(s: string): string {
    if s == "" then ""
    else if s[0] == '\r' || s[0] == '\n' then DropLineBreaks(s[1..])
    else [s[0]] + DropLineBreaks(s[1..])
  }

  function DecodeRawUrl(s: string): Option<seq<Byte>> {
    match Scan(UrlSafe, DropLineBreaks(s))
    case None => None
    case Some(d) => Join(d)
  }

  // ----- the browser: btoa and atob -----

  function Repeat(c: char, n: nat): (s: string)
    ensures |s| == n && forall x :: x in s ==> x == c
  {
    if n == 0 then "" else [c] + Repeat(c, n - 1)
  }

  /** Padding that brings a length up to a multiple of four. */
  function PadLength(n: nat): nat {
    if n % 4 == 0 then 0 else 4 - n % 4
  }

  function Btoa(b: seq<Byte>): string {
    var s := Render(Standard, Split(b));
    s + Repeat('=', PadLength(|s|))
  }

  predicate AsciiSpace(c: char) {
    c == ' ' || c == '\t' || c == '\n' || c == '\r' || c as int == 12
  }

  function DropSpaces(s: string): string {
    if s == "" then ""
    else if AsciiSpace(s[0]) then DropSpaces(s[1..])
    else [s[0]] + DropSpaces(s[1..])
  }

  /** At most two trailing '=' are removed, and only from a length divisible by four. */
  function DropPadding(s: string): string {
    if |s| == 0 || |s| % 4 != 0 || s[|s| - 1] != '=' then s
    else if s[|s| - 2] != '=' then s[..|s| - 1]
    else s[..|s| - 2]
  }

  function Atob(s: string): Option<seq<Byte>> {
    match Scan(Standard, DropPadding(DropSpaces(s)))
    case None => None
    case Some(d) => Join(d)
  }

  function Replace(s: string, from: char, to: char): (r: string)
    ensures |r| == |s|
  {
    seq(|s|, i requires 0 <= i < |s| => if s[i] == from then to else s[i])
  }

  function StripTrailing(s: string, c: char): string {
    if s != "" && s[|s| - 1] == c then StripTrailing(s[..|s| - 1], c) else s
  }

  function BytesToUrl(b: seq<Byte>): string {
    StripTrailing(Replace(Replace(Btoa(b), '+', '-'), '/', '_'), '=')
  }

  function ToStandard(s: string): (r: string)
    ensures |r| == |s|
  {
    Replace(Replace(s, '-', '+'), '_', '/')
  }

  function UrlToBytes(s: string): Option<seq<Byte>> {
    Atob(ToStandard(s) + Repeat('=', PadLength(|s|)))
  }

  /** bufferToBase64url: the binary string is built byte by byte, then encoded. */
  method BufferToBase64url(bytes: array<Byte>) returns (s: string)
    ensures s == EncodeRawUrl(bytes[..])
  {
    var bin: string := "";
    var i := 0;
    while i < bytes.Length
      invariant 0 <= i <= bytes.Length
      invariant |bin| == i
      invariant forall j :: 0 <= j < i ==> bin[j] as int == bytes[j]
    {
      bin := bin + [bytes[i] as char];
      i := i + 1;
    }
    var codes: seq<Byte> := seq(|bin|, j requires 0 <= j < |bin| => bin[j] as int);
    assert codes == bytes[..];
    s := BytesToUrl(codes);
    BytesToUrlIsRawUrl(codes);
  }

  /** base64urlToBytes; None stands for the exception atob throws. */
  method Base64urlToBytes(s: string) returns (bytes: Option<array<Byte>>)
    ensures bytes.None? <==> UrlToBytes(s).None?
    ensures bytes.Some? ==> UrlToBytes(s) == Some(bytes.value[..])
  {
    var decoded := UrlToBytes(s);
    if decoded.None? {
      return None;
    }
    var bin := decoded.value;
    var out := new Byte[|bin|];
    var i := 0;
    while i < |bin|
      invariant 0 <= i <= |bin|
      invariant forall j :: 0 <= j < i ==> out[j] == bin[j]
    {
      out[i] := bin[i];
      i := i + 1;
    }
    assert out[..] == bin;
    bytes := Some(out);
  }

  // ----- the two encoders agree -----

  lemma {:induction false} ReplaceRendered(d: seq<Sextet>)
    ensures Replace(Replace(Render(Standard, d), '+', '-'), '/', '_') == Render(UrlSafe, d)
    ensures Replace(Replace(Render(UrlSafe, d), '-', '+'), '_', '/') == Render(Standard, d)
  {
    if d != [] {
      var s, u := Render(Standard, d), Render(UrlSafe, d);
      ReplaceRendered(d[1..]);
      assert s[1..] == Render(Standard, d[1..]) && u[1..] == Render(UrlSafe, d[1..]);
      var r := Replace(Replace(s, '+', '-'), '/', '_');
      var q := Replace(Replace(u, '-', '+'), '_', '/');
      assert r[1..] == Replace(Replace(s[1..], '+', '-'), '/', '_');
      assert q[1..] == Replace(Replace(u[1..], '-', '+'), '_', '/');
      assert r == [r[0]] + r[1..] && q == [q[0]] + q[1..];
    }
  }

  lemma {:induction false} StripPadding(s: string, n: nat)
    requires '=' !in s
    ensures StripTrailing(s + Repeat('=', n), '=') == s
  {
    var t := s + Repeat('=', n);
    if n == 0 {
      assert t == s;
    } else {
      assert t[|t| - 1] in Repeat('=', n);
      assert t[..|t| - 1] == s + Repeat('=', n)[..n - 1];
      RepeatInit('=', n);
      StripPadding(s, n - 1);
    }
  }

  lemma {:induction false} RepeatInit(c: char, n: nat)
    requires n > 0
    ensures Repeat(c, n)[..n - 1] == Repeat(c, n - 1)
  {
    if n > 1 {
      RepeatInit(c, n - 1);
      assert Repeat(c, n)[..n - 1] == [c] + Repeat(c, n - 1)[..n - 2];
    }
  }

  lemma {:induction false} ReplaceConcat(s: string, t: string, from: char, to: char)
    requires from !in t
    ensures Replace(s + t, from, to) == Replace(s, from, to) + t
  {
    assert forall i :: 0 <= i < |t| ==> t[i] in t;
  }

  /** The browser's encoder computes exactly RFC 4648 base64url without padding. */
  lemma BytesToUrlIsRawUrl(b: seq<Byte>)
    ensures BytesToUrl(b) == EncodeRawUrl(b)
  {
    var d := Split(b);
    var s := Render(Standard, d);
    var pad := Repeat('=', PadLength(|s|));
    ReplaceConcat(s, pad, '+', '-');
    ReplaceConcat(Replace(s, '+', '-'), pad, '/', '_');
    ReplaceRendered(d);
    RenderAlphabet(UrlSafe, d);
    assert !InAlphabet(UrlSafe, '=');
    StripPadding(Render(UrlSafe, d), PadLength(|s|));
  }

  // ----- round trips -----

  lemma {:induction false} NothingDropped(s: string)
    requires forall c :: c in s ==> !AsciiSpace(c)
    ensures DropLineBreaks(s) == s && DropSpaces(s) == s
  {
    if s != "" {
      assert s[0] in s;
      NothingDropped(s[1..]);
      assert s == [s[0]] + s[1..];
    }
  }

  /** Go's decoder inverts Go's encoder. */
  lemma GoRoundTrip(b: seq<Byte>)
    ensures DecodeRawUrl(EncodeRawUrl(b)) == Some(b)
  {
    var s := EncodeRawUrl(b);
    RenderAlphabet(UrlSafe, Split(b));
    forall c | c in s ensures !AsciiSpace(c) {
      assert InAlphabet(UrlSafe, c);
    }
    NothingDropped(s);
    ScanRender(UrlSafe, Split(b));
    JoinSplit(b);
  }

  lemma {:induction false} AlphabetHasNoSpaces(a: Alphabet, s: string, pad: nat)
    requires AllInAlphabet(a, s)
    ensures forall c :: c in s + Repeat('=', pad) ==> !AsciiSpace(c)
  {
    forall c | c in s + Repeat('=', pad) ensures !AsciiSpace(c) {
      if c in s {
        assert InAlphabet(a, c);
      }
    }
  }

  lemma StandardForm(s: string)
    requires AllInAlphabet(UrlSafe, s)
    ensures Scan(Standard, ToStandard(s)) == Scan(UrlSafe, s)
    ensures AllInAlphabet(Standard, ToStandard(s))
  {
    var std := ToStandard(s);
    forall i | 0 <= i < |s|
      ensures FromChar(Standard, std[i]) == FromChar(UrlSafe, s[i])
      ensures InAlphabet(Standard, std[i])
    {
      assert s[i] in s && InAlphabet(UrlSafe, s[i]);
    }
    SameScan(std, s);
  }

  /** atob sees the padded text as it is: it removes the padding when the padding is one or two
      characters long, and keeps one '=' when a length of 1 modulo 4 asked for three. */
  lemma PaddingSeen(std: string)
    requires AllInAlphabet(Standard, std)
    ensures var padded := std + Repeat('=', PadLength(|std|));
      DropPadding(DropSpaces(padded)) == if |std| % 4 == 1 then std + "=" else std
  {
    AlphabetHasNoSpaces(Standard, std, PadLength(|std|));
    NothingDropped(std + Repeat('=', PadLength(|std|)));
    if std != "" {
      assert std[|std| - 1] in std && InAlphabet(Standard, std[|std| - 1]);
      assert !InAlphabet(Standard, '=');
    }
    PaddingDropped(std, Repeat('=', PadLength(|std|)));
  }

  lemma PaddingDropped(s: string, pad: string)
    requires s != "" ==> s[|s| - 1] != '='
    requires |pad| == PadLength(|s|) && forall c :: c in pad ==> c == '='
    ensures DropPadding(s + pad) == if |s| % 4 == 1 then s + "=" else s
  {
    var t := s + pad;
    assert |t| % 4 == 0;
    assert forall i :: 0 <= i < |pad| ==> pad[i] in pad;
    if |pad| >= 1 { assert t[|t| - 1] == pad[|pad| - 1]; }
    if |pad| >= 2 { assert t[|t| - 2] == pad[|pad| - 2]; }
    if |pad| == 3 {
      assert t[..|t| - 2] == s + "=";
    } else {
      assert t[..|s|] == s;
    }
  }

  /** Over the URL-safe alphabet the browser's decoder and Go's accept the same strings and
      give the same bytes; in particular the padding the browser computes is always right. */
  lemma DecodersAgree(s: string)
    requires AllInAlphabet(UrlSafe, s)
    ensures UrlToBytes(s) == DecodeRawUrl(s)
  {
    var std := ToStandard(s);
    StandardForm(s);
    PaddingSeen(std);
    AlphabetHasNoSpaces(UrlSafe, s, 0);
    assert s + Repeat('=', 0) == s;
    NothingDropped(s);
    if |s| % 4 == 1 {
      ScanTotal(UrlSafe, s);
      JoinRejects(Scan(UrlSafe, s).value);
      ScanRejects(Standard, std + "=", |s|);
    }
  }

  lemma {:induction false} SameScan(s: string, t: string)
    requires |s| == |t|
    requires forall i :: 0 <= i < |s| ==> FromChar(Standard, s[i]) == FromChar(UrlSafe, t[i])
    ensures Scan(Standard, s) == Scan(UrlSafe, t)
  {
    if s != "" {
      SameScan(s[1..], t[1..]);
    }
  }

  lemma {:induction false} ScanTotal(a: Alphabet, s: string)
    requires AllInAlphabet(a, s)
    ensures Scan(a, s).Some? && |Scan(a, s).value| == |s|
  {
    if s != "" {
      assert s[0] in s;
      ScanTotal(a, s[1..]);
    }
  }

  lemma {:induction false} ScanRejects(a: Alphabet, s: string, i: nat)
    requires i < |s| && !InAlphabet(a, s[i])
    ensures Scan(a, s).None?
  {
    if i > 0 {
      ScanRejects(a, s[1..], i - 1);
    }
  }

  lemma {:induction false} JoinRejects(d: seq<Sextet>)
    requires |d| % 4 == 1
    ensures Join(d).None?
  {
    if |d| >= 4 {
      JoinRejects(d[4..]);
    }
  }

  /** base64urlToBytes(bufferToBase64url(b)) == b, over an alphabet free of '.' and '='. */
  lemma BrowserRoundTrip(b: seq<Byte>)
    ensures UrlToBytes(BytesToUrl(b)) == Some(b)
    ensures AllInAlphabet(UrlSafe, BytesToUrl(b))
    ensures '.' !in BytesToUrl(b) && '=' !in BytesToUrl(b)
    ensures |BytesToUrl(b)| == (4 * |b| + 2) / 3
  {
    BytesToUrlIsRawUrl(b);
    RenderAlphabet(UrlSafe, Split(b));
    assert !InAlphabet(UrlSafe, '.') && !InAlphabet(UrlSafe, '=');
    DecodersAgree(BytesToUrl(b));
    GoRoundTrip(b);
    SplitLength(b);
  }
}
