/** UTF-8 as browsers encode and decode it. The decoder never fails: bytes that are not well-formed
    give replacement characters, one for each maximal part of a sequence. */
module Utf8 {
  import opened LengthPrefix
  import opened Seqs

  const REPLACEMENT: char := 0xFFFD as char

  function EncodeChar(c: char): (s: seq<Byte>)
    ensures 1 <= |s| <= 4
  {
    var n := c as int;
    if n < 0x80 then [n]
    else if n < 0x800 then [0xC0 + n / 64, Tail(n)]
    else if n < 0x1_0000 then [0xE0 + n / 64 / 64, Tail(n / 64), Tail(n)]
    else [0xF0 + n / 64 / 64 / 64, Tail(n / 64 / 64), Tail(n / 64), Tail(n)]
  }

  /** A continuation byte carries six bits. */
  function Tail(n: nat): Byte {
    0x80 + n % 64
  }

  function Bits(b: Byte): (n: nat)
    ensures n < 64
  {
    b % 64
  }

  function LeadBits(b: Byte, size: nat): nat
    requires 2 <= size <= 4
  {
    if size == 2 then b % 32 else if size == 3 then b % 16 else b % 8
  }

  function Encode(s: string): seq<Byte> {
    if s == "" then [] else EncodeChar(s[0]) + Encode(s[1..])
  }

  predicate Follows(s: seq<Byte>, i: nat, lo: int, hi: int) {
    i < |s| && lo <= s[i] <= hi
  }

  /** Bytes in the sequence a lead byte announces; 0 for a byte that cannot lead. */
  function LengthOf(lead: Byte): (n: nat)
    ensures n <= 4
  {
    if lead < 0x80 then 1
    else if 0xC2 <= lead <= 0xDF then 2
    else if 0xE0 <= lead <= 0xEF then 3
    else if 0xF0 <= lead <= 0xF4 then 4
    else 0
  }

  /** The first character and how many bytes it took. */
  function DecodeOne(s: seq<Byte>): (r: (char, nat))
    requires s != []
    ensures 1 <= r.1 <= |s|
  {
    var b := s[0];
    if b < 0x80 then (b as char, 1)
    else if LengthOf(b) == 2 then
      if !Follows(s, 1, 0x80, 0xBF) then (REPLACEMENT, 1)
      else ((64 * LeadBits(b, 2) + Bits(s[1])) as char, 2)
    else if LengthOf(b) == 3 then
      if !Follows(s, 1, if b == 0xE0 then 0xA0 else 0x80, if b == 0xED then 0x9F else 0xBF) then (REPLACEMENT, 1)
      else if !Follows(s, 2, 0x80, 0xBF) then (REPLACEMENT, 2)
      else ((64 * (64 * LeadBits(b, 3) + Bits(s[1])) + Bits(s[2])) as char, 3)
    else if LengthOf(b) == 4 then
      if !Follows(s, 1, if b == 0xF0 then 0x90 else 0x80, if b == 0xF4 then 0x8F else 0xBF) then (REPLACEMENT, 1)
      else if !Follows(s, 2, 0x80, 0xBF) then (REPLACEMENT, 2)
      else if !Follows(s, 3, 0x80, 0xBF) then (REPLACEMENT, 3)
      else ((64 * (64 * (64 * LeadBits(b, 4) + Bits(s[1])) + Bits(s[2])) + Bits(s[3])) as char, 4)
    else (REPLACEMENT, 1)
  }

  function Decode(s: seq<Byte>): string {
    if s == [] then ""
    else
      var (c, n) := DecodeOne(s);
      [c] + Decode(s[n..])
  }

  lemma OneRoundTrip(c: char, rest: seq<Byte>)
    ensures DecodeOne(EncodeChar(c) + rest) == (c, |EncodeChar(c)|)
    ensures LengthOf(EncodeChar(c)[0]) == |EncodeChar(c)|
  {
    var n := c as int;
    var s := EncodeChar(c) + rest;
    assert s[0] == EncodeChar(c)[0];
    if 0x80 <= n < 0x800 {
      assert s[1] == Tail(n);
      TwoBytes(n);
    } else if 0x800 <= n < 0x1_0000 {
      assert s[1] == Tail(n / 64) && s[2] == Tail(n);
      ThreeBytes(n);
    } else if 0x1_0000 <= n {
      assert s[1] == Tail(n / 64 / 64) && s[2] == Tail(n / 64) && s[3] == Tail(n);
      FourBytes(n);
    }
  }

  lemma TwoBytes(n: nat)
    requires 0x80 <= n < 0x800
    ensures 0xC2 <= 0xC0 + n / 64 <= 0xDF
    ensures 64 * LeadBits(0xC0 + n / 64, 2) + Bits(Tail(n)) == n
  {
  }

  lemma ThreeBytes(n: nat)
    requires 0x800 <= n < 0xD800 || 0xE000 <= n < 0x1_0000
    ensures var b, x := 0xE0 + n / 64 / 64, Tail(n / 64);
      && 0xE0 <= b <= 0xEF && (b == 0xE0 ==> x >= 0xA0) && (b == 0xED ==> x <= 0x9F)
      && 64 * (64 * LeadBits(b, 3) + Bits(x)) + Bits(Tail(n)) == n
  {
    var m := n / 64;
    assert n == 64 * m + n % 64 && m == 64 * (m / 64) + m % 64;
  }

  lemma FourBytes(n: nat)
    requires 0x1_0000 <= n < 0x11_0000
    ensures var b, x := 0xF0 + n / 64 / 64 / 64, Tail(n / 64 / 64);
      && 0xF0 <= b <= 0xF4 && (b == 0xF0 ==> x >= 0x90) && (b == 0xF4 ==> x <= 0x8F)
      && 64 * (64 * (64 * LeadBits(b, 4) + Bits(x)) + Bits(Tail(n / 64))) + Bits(Tail(n)) == n
  {
    var m := n / 64;
    var k := m / 64;
    assert n == 64 * m + n % 64 && m == 64 * k + m % 64 && k == 64 * (k / 64) + k % 64;
  }

  /** One character of each length, as in section 3 of RFC 3629. */
  lemma Samples()
    ensures EncodeChar('A') == [0x41] && EncodeChar('\U{E9}') == [0xC3, 0xA9]
    ensures EncodeChar('\U{20AC}') == [0xE2, 0x82, 0xAC] && EncodeChar('\U{1F600}') == [0xF0, 0x9F, 0x98, 0x80]
  {
  }

  /** Every string of Unicode scalar values is recovered from its UTF-8 bytes. */
  lemma {:induction false} RoundTrip(s: string)
    ensures Decode(Encode(s)) == s
  {
    if s != "" {
      OneRoundTrip(s[0], Encode(s[1..]));
      RoundTrip(s[1..]);
      assert (EncodeChar(s[0]) + Encode(s[1..]))[|EncodeChar(s[0])|..] == Encode(s[1..]);
      assert [s[0]] + s[1..] == s;
    }
  }

  lemma {:induction false} Concat(s: string, t: string)
    ensures Encode(s + t) == Encode(s) + Encode(t)
  {
    if s == "" {
      assert s + t == t;
    } else {
      Concat(s[1..], t);
      assert (s + t)[0] == s[0] && (s + t)[1..] == s[1..] + t;
      Assoc(EncodeChar(s[0]), Encode(s[1..]), Encode(t));
    }
  }

  lemma {:induction false} Ascii(s: string)
    requires forall i :: 0 <= i < |s| ==> s[i] as int < 0x80
    ensures |Encode(s)| == |s| && forall i :: 0 <= i < |s| ==> Encode(s)[i] == s[i] as int
  {
    if s != "" {
      Ascii(s[1..]);
      assert EncodeChar(s[0]) == [s[0] as int];
    }
  }
}
