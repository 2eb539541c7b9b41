/** The byte strings that Binding.Digest, the grant digest and Receipt.hash feed to SHA-256:
    length-prefixed fields and two's-complement integers, written one after another. */
module LengthPrefix {
  import opened Seqs
  import opened Wrappers
  import opened Int64

  type Byte = x: int | 0 <= x < 256

  /** A Go string or byte slice; its length is an int, hence below 2^63. */
  type GoString = b: seq<Byte> | |b| < TWO_63

  /** The bytes of an ASCII literal. */
  function Ascii(s: string): seq<Byte>
    requires forall i :: 0 <= i < |s| ==> s[i] as int < 128
  {
    seq(|s|, i requires 0 <= i < |s| => s[i] as int)
  }

  function Pow256(w: nat): nat {
    if w == 0 then 1 else 256 * Pow256(w - 1)
  }

  /** Big-endian rendering of n in w bytes (binary.BigEndian.PutUint64 has w = 8). */
  function BigEndian(n: nat, w: nat): (s: seq<Byte>)
    ensures |s| == w
  {
    if w == 0 then [] else BigEndian(n / 256, w - 1) + [n % 256]
  }

  function FromBigEndian(s: seq<Byte>): nat {
    if s == [] then 0 else 256 * FromBigEndian(s[..|s| - 1]) + s[|s| - 1]
  }

  lemma {:induction false} BigEndianRoundTrip(n: nat, w: nat)
    requires n < Pow256(w)
    ensures FromBigEndian(BigEndian(n, w)) == n
  {
    if w > 0 {
      BigEndianRoundTrip(n / 256, w - 1);
      assert BigEndian(n, w)[..w - 1] == BigEndian(n / 256, w - 1);
    }
  }

  lemma {:induction false} FromBigEndianBound(s: seq<Byte>)
    ensures FromBigEndian(s) < Pow256(|s|)
  {
    if s != [] {
      FromBigEndianBound(s[..|s| - 1]);
    }
  }

  lemma Pow256Of8()
    ensures Pow256(8) == TWO_64
  {
    assert Pow256(4) == 0x1_0000_0000;
    assert Pow256(6) == 0x1_0000_0000_0000;
  }

  /** The eight bytes of PutUint64, most significant first. */
  lemma EightBytes(n: nat)
    requires n < 0x1_0000_0000_0000_0000
    ensures var s := BigEndian(n, 8);
      var a: int, b: int, c: int, d: int := s[0], s[1], s[2], s[3];
      var e: int, f: int, g: int, h: int := s[4], s[5], s[6], s[7];
      n == 256 * (256 * (256 * (256 * (256 * (256 * (256 * a + b) + c) + d) + e) + f) + g) + h
  {
    var s := BigEndian(n, 8);
    Pow256Of8();
    BigEndianRoundTrip(n, 8);
    assert s[..8] == s;
    Horner(s[..1], s[0]);
    ReadNext(s, 1);
    ReadNext(s, 2);
    ReadNext(s, 3);
    ReadNext(s, 4);
    ReadNext(s, 5);
    ReadNext(s, 6);
    ReadNext(s, 7);
  }

  lemma Horner(s: seq<Byte>, x: Byte)
    requires s == [x]
    ensures FromBigEndian(s) == x
  {
    assert s[..0] == [];
  }

  lemma ReadNext(s: seq<Byte>, k: nat)
    requires 0 < k < |s|
    ensures FromBigEndian(s[..k + 1]) == 256 * FromBigEndian(s[..k]) + s[k]
  {
    assert s[..k + 1][..k] == s[..k];
  }

  /** One call of writeField or writeInt. */
  datatype Item = Field(bytes: GoString) | Number(value: int64)

  datatype Kind = FieldKind | NumberKind

  function KindOf(x: Item): Kind {
    if x.Field? then FieldKind else NumberKind
  }

  function Kinds(xs: seq<Item>): seq<Kind> {
    seq(|xs|, i requires 0 <= i < |xs| => KindOf(xs[i]))
  }

  function EncodeItem(x: Item): seq<Byte> {
    match x
    case Field(b) => BigEndian(|b|, 8) + b
    case Number(v) => BigEndian(ToUint64(v), 8)
  }

  function Encode(xs: seq<Item>): seq<Byte> {
    if xs == [] then [] else EncodeItem(xs[0]) + Encode(xs[1..])
  }

  /** Reads one item of a known kind off the front of a byte string. */
  function DecodeItem(k: Kind, s: seq<Byte>): Option<(Item, seq<Byte>)> {
    if |s| < 8 then None
    else
      FromBigEndianBound(s[..8]);
      Pow256Of8();
      var n := FromBigEndian(s[..8]);
      if k.NumberKind? then Some((Number(FromUint64(n)), s[8..]))
      else if n < TWO_63 && n <= |s| - 8 then Some((Field(s[8..8 + n]), s[8 + n..]))
      else None
  }

  /** Reads a whole record whose field kinds are known, returning what follows it. */
  function Decode(ks: seq<Kind>, s: seq<Byte>): Option<(seq<Item>, seq<Byte>)> {
    if ks == [] then Some(([], s))
    else
      match DecodeItem(ks[0], s)
      case None => None
      case Some((x, tail)) =>
        match Decode(ks[1..], tail)
        case None => None
        case Some((xs, rest)) => Some(([x] + xs, rest))
  }

  lemma DecodeEncodeItem(x: Item, rest: seq<Byte>)
    ensures DecodeItem(KindOf(x), EncodeItem(x) + rest) == Some((x, rest))
  {
    Pow256Of8();
    var s := EncodeItem(x) + rest;
    var n := if x.Field? then |x.bytes| else ToUint64(x.value);
    BigEndianRoundTrip(n, 8);
    assert s[..8] == BigEndian(n, 8);
    if x.Field? {
      assert s[8..8 + n] == x.bytes;
      assert s[8 + n..] == rest;
    } else {
      assert s[8..] == rest;
    }
  }

  lemma DecodeCons(ks: seq<Kind>, s: seq<Byte>, x: Item, tail: seq<Byte>, xs: seq<Item>, rest: seq<Byte>)
    requires ks != [] && DecodeItem(ks[0], s) == Some((x, tail)) && Decode(ks[1..], tail) == Some((xs, rest))
    ensures Decode(ks, s) == Some(([x] + xs, rest))
  {
  }

  lemma KindsCons(x: Item, xs: seq<Item>)
    ensures var ks := Kinds([x] + xs); ks != [] && ks[0] == KindOf(x) && ks[1..] == Kinds(xs)
  {
  }

  lemma DecodeFirst(x: Item, xs: seq<Item>, rest: seq<Byte>)
    requires Decode(Kinds(xs), Encode(xs) + rest) == Some((xs, rest))
    ensures Decode(Kinds([x] + xs), Encode([x] + xs) + rest) == Some(([x] + xs, rest))
  {
    assert Encode([x] + xs) == EncodeItem(x) + Encode(xs) by {
      EncodeCons([x] + xs);
      assert ([x] + xs)[1..] == xs;
    }
    Assoc(EncodeItem(x), Encode(xs), rest);
    DecodeEncodeItem(x, Encode(xs) + rest);
    KindsCons(x, xs);
    DecodeCons(Kinds([x] + xs), Encode([x] + xs) + rest, x, Encode(xs) + rest, xs, rest);
  }

  /** Every field of a record can be read back, whatever bytes follow the record. */
  lemma {:induction false} DecodeEncode(xs: seq<Item>, rest: seq<Byte>)
    ensures Decode(Kinds(xs), Encode(xs) + rest) == Some((xs, rest))
  {
    if xs == [] {
      assert Encode(xs) + rest == rest;
    } else {
      DecodeEncode(xs[1..], rest);
      DecodeFirst(xs[0], xs[1..], rest);
      assert [xs[0]] + xs[1..] == xs;
    }
  }

  /** Records of one shape form a prefix code: equal byte strings split in only one way. */
  lemma EncodeInjective(xs: seq<Item>, ys: seq<Item>, s: seq<Byte>, t: seq<Byte>)
    requires Kinds(xs) == Kinds(ys)
    requires Encode(xs) + s == Encode(ys) + t
    ensures xs == ys && s == t
  {
    DecodeEncode(xs, s);
    DecodeEncode(ys, t);
  }

  lemma {:induction false} EncodeConcat(xs: seq<Item>, ys: seq<Item>)
    ensures Encode(xs + ys) == Encode(xs) + Encode(ys)
  {
    if xs == [] {
      assert xs + ys == ys;
    } else {
      var zs := xs + ys;
      assert zs[0] == xs[0] && zs[1..] == xs[1..] + ys;
      EncodeConcat(xs[1..], ys);
      EncodeCons(xs);
      EncodeCons(zs);
      Assoc(EncodeItem(xs[0]), Encode(xs[1..]), Encode(ys));
    }
  }

  lemma EncodeCons(xs: seq<Item>)
    requires xs != []
    ensures Encode(xs) == EncodeItem(xs[0]) + Encode(xs[1..])
  {
  }

  lemma EncodeAppend(xs: seq<Item>, x: Item)
    ensures Encode(xs + [x]) == Encode(xs) + EncodeItem(x)
  {
    EncodeConcat(xs, [x]);
    assert Encode([x]) == EncodeItem(x) + Encode([]);
  }

  lemma EncodePair(a: Item, b: Item)
    ensures Encode([a, b]) == EncodeItem(a) + EncodeItem(b)
  {
    assert [a, b][1..] == [b] && [b][1..] == [];
    assert Encode([b]) == EncodeItem(b) + Encode([]) == EncodeItem(b);
  }

  /** Writing four items one after another, after anything else, writes the record of the four. */
  lemma EncodeFour(before: seq<Byte>, a: Item, b: Item, c: Item, d: Item)
    ensures before + EncodeItem(a) + EncodeItem(b) + EncodeItem(c) + EncodeItem(d) == before + Encode([a, b, c, d])
  {
    EncodePair(a, b);
    EncodePair(c, d);
    EncodeConcat([a, b], [c, d]);
    assert [a, b] + [c, d] == [a, b, c, d];
    FourParts(before, EncodeItem(a), EncodeItem(b), EncodeItem(c), EncodeItem(d));
  }

  lemma EncodeEight(a: Item, b: Item, c: Item, d: Item, e: Item, f: Item, g: Item, h: Item)
    ensures Encode([a, b, c, d] + [e, f, g, h])
         == EncodeItem(a) + EncodeItem(b) + EncodeItem(c) + EncodeItem(d)
          + EncodeItem(e) + EncodeItem(f) + EncodeItem(g) + EncodeItem(h)
  {
    EncodeFour([], a, b, c, d);
    assert [] + EncodeItem(a) == EncodeItem(a) && [] + Encode([a, b, c, d]) == Encode([a, b, c, d]);
    EncodeFour(Encode([a, b, c, d]), e, f, g, h);
    EncodeConcat([a, b, c, d], [e, f, g, h]);
  }

  lemma FourParts(p: seq<Byte>, a: seq<Byte>, b: seq<Byte>, c: seq<Byte>, d: seq<Byte>)
    ensures p + a + b + c + d == p + ((a + b) + (c + d))
  {
  }

  /** The running SHA-256 state: what has been written to it so far. */
  class Hasher {
    var written: seq<Byte>

    constructor ()
      ensures written == []
    {
      written := [];
    }

    method Write(b: seq<Byte>)
      modifies this
      ensures written == old(written) + b
    {
      written := written + b;
    }

    method WriteField(b: GoString)
      modifies this
      ensures written == old(written) + EncodeItem(Field(b))
    {
      Write(BigEndian(|b|, 8));
      Write(b);
    }

    method WriteInt(v: int64)
      modifies this
      ensures written == old(written) + EncodeItem(Number(v))
    {
      Write(BigEndian(ToUint64(v), 8));
    }
  }
}
