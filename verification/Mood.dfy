/** apps/mobile/lib/mood.ts: colour conversion between hexadecimal RGB and HSV, over the reals. */
module Mood {
  import opened Wrappers
  import opened JsText

  datatype Rgb = Rgb(r: real, g: real, b: real)

  datatype Hsv = Hsv(h: real, s: real, v: real)

  function Max(x: real, y: real): real { if x >= y then x else y }

  function Min(x: real, y: real): real { if x <= y then x else y }

  /** The part of hexToHsv after the channels have been divided by 255. */
  function ToHsv(c: Rgb): Hsv {
    var max := Max(c.r, Max(c.g, c.b));
    var min := Min(c.r, Min(c.g, c.b));
    var d := max - min;
    var h :=
      if d == 0.0 then 0.0
      else if max == c.r then ((c.g - c.b) / d + (if c.g < c.b then 6.0 else 0.0)) / 6.0
      else if max == c.g then ((c.b - c.r) / d + 2.0) / 6.0
      else ((c.r - c.g) / d + 4.0) / 6.0;
    var s := if max == 0.0 then 0.0 else d / max;
    Hsv(h, s, max)
  }

  /** JavaScript's remainder by six, which takes the sign of the dividend. */
  function Rem6(i: int): int {
    if i >= 0 then i % 6 else -((-i) % 6)
  }

  /** The part of hsvToHex before the channels are scaled to 255. */
  function ToRgb(c: Hsv): Rgb {
    var i := (c.h * 6.0).Floor;
    SectorRgb(c, Rem6(i), c.h * 6.0 - i as real)
  }

  /** The channels in sector i at fraction f of the way through it. */
  function SectorRgb(c: Hsv, i: int, f: real): Rgb {
    var p := c.v * (1.0 - c.s);
    var q := c.v * (1.0 - f * c.s);
    var t := c.v * (1.0 - (1.0 - f) * c.s);
    match i
    case 0 => Rgb(c.v, t, p)
    case 1 => Rgb(q, c.v, p)
    case 2 => Rgb(p, c.v, t)
    case 3 => Rgb(p, q, c.v)
    case 4 => Rgb(t, p, c.v)
    case 5 => Rgb(c.v, p, q)
    case _ => Rgb(0.0, 0.0, 0.0)
  }

  predicate InCube(c: Rgb) {
    0.0 <= c.r <= 1.0 && 0.0 <= c.g <= 1.0 && 0.0 <= c.b <= 1.0
  }

  lemma Quotient(x: real, y: real)
    requires 0.0 <= x <= y && y > 0.0
    ensures 0.0 <= x / y <= 1.0 && x / y * y == x && (x / y == 1.0 <==> x == y) && (x / y == 0.0 <==> x == 0.0)
  {
    var q := x / y;
    assert q * y == x;
    assert q < 0.0 ==> q * y < 0.0;
    assert q > 1.0 ==> (q - 1.0) * y > 0.0;
  }

  /** The three channels a sextant interpolates: the largest, the smallest, and the one between
      them at fraction u of the way up. */
  lemma Channels(max: real, min: real, mid: real)
    requires 0.0 <= min <= mid <= max && min < max
    ensures var s := (max - min) / max; var u := (mid - min) / (max - min);
      && max * (1.0 - s) == min
      && max * (1.0 - (1.0 - u) * s) == mid
      && 0.0 < s <= 1.0 && 0.0 <= u <= 1.0
  {
    var d := max - min;
    var s := d / max;
    var u := (mid - min) / d;
    Quotient(d, max);
    Quotient(mid - min, d);
    assert max * s == d;
    assert max * (1.0 - s) == max - max * s;
    assert max * (1.0 - (1.0 - u) * s) == max - (1.0 - u) * (max * s);
    assert (1.0 - u) * d == d - (mid - min);
  }

  lemma WholePart(y: real, n: int, w: real)
    requires 0.0 <= w < 1.0 && y == n as real + w
    ensures y.Floor == n && y - y.Floor as real == w
  {
  }

  /** What ToRgb gives in sextant n, at fraction w of the way through it. */
  lemma Sextant(x: Hsv, n: int, w: real)
    requires 0 <= n < 6 && 0.0 <= w < 1.0 && x.h * 6.0 == n as real + w
    ensures var p := x.v * (1.0 - x.s); var q := x.v * (1.0 - w * x.s); var t := x.v * (1.0 - (1.0 - w) * x.s);
      ToRgb(x) == if n == 0 then Rgb(x.v, t, p) else if n == 1 then Rgb(q, x.v, p) else if n == 2 then Rgb(p, x.v, t)
                  else if n == 3 then Rgb(p, q, x.v) else if n == 4 then Rgb(t, p, x.v) else Rgb(x.v, p, q)
  {
    WholePart(x.h * 6.0, n, w);
    assert Rem6(n) == n;
    assert ToRgb(x) == SectorRgb(x, n, w);
  }

  /** A hue that rises from whole sextant n by the fraction at which the middle channel lies puts
      that channel where it was; at the very top it belongs to the next sextant. */
  lemma Rising(x: Hsv, n: int, max: real, min: real, mid: real)
    requires n in {0, 2, 4} && 0.0 <= min <= mid <= max && min < max
    requires x.v == max && x.s == (max - min) / max && x.h * 6.0 == n as real + (mid - min) / (max - min)
    ensures ToRgb(x) == if n == 0 then Rgb(max, mid, min) else if n == 2 then Rgb(min, max, mid) else Rgb(mid, min, max)
    ensures 0.0 <= x.h < 1.0 && 0.0 <= x.s <= 1.0
  {
    var u := (mid - min) / (max - min);
    Channels(max, min, mid);
    Quotient(mid - min, max - min);
    if u < 1.0 {
      RisingWithin(x, n, u, max, min, mid);
    } else {
      assert mid == max;
      Edge(x, n, max, min);
    }
  }

  lemma RisingWithin(x: Hsv, n: int, u: real, max: real, min: real, mid: real)
    requires n in {0, 2, 4} && 0.0 <= u < 1.0 && x.v == max && x.h * 6.0 == n as real + u
    requires max * (1.0 - x.s) == min && max * (1.0 - (1.0 - u) * x.s) == mid
    ensures ToRgb(x) == if n == 0 then Rgb(max, mid, min) else if n == 2 then Rgb(min, max, mid) else Rgb(mid, min, max)
  {
    Sextant(x, n, u);
  }

  lemma Edge(x: Hsv, n: int, max: real, min: real)
    requires n in {0, 2, 4} && x.v == max && max * (1.0 - x.s) == min && x.h * 6.0 == n as real + 1.0
    ensures ToRgb(x) == if n == 0 then Rgb(max, max, min) else if n == 2 then Rgb(min, max, max) else Rgb(max, min, max)
  {
    assert max * (1.0 - 0.0 * x.s) == max;
    Sextant(x, n + 1, 0.0);
  }

  lemma Falling(x: Hsv, n: int, max: real, min: real, mid: real)
    requires n in {1, 3, 5} && 0.0 <= min < mid <= max
    requires x.v == max && x.s == (max - min) / max && x.h * 6.0 == (n + 1) as real - (mid - min) / (max - min)
    ensures ToRgb(x) == if n == 1 then Rgb(mid, max, min) else if n == 3 then Rgb(min, mid, max) else Rgb(max, min, mid)
    ensures 0.0 <= x.h < 1.0 && 0.0 <= x.s <= 1.0
  {
    var u := (mid - min) / (max - min);
    Channels(max, min, mid);
    Quotient(mid - min, max - min);
    FallingWithin(x, n, 1.0 - u, max, min, mid);
  }

  lemma FallingWithin(x: Hsv, n: int, w: real, max: real, min: real, mid: real)
    requires n in {1, 3, 5} && 0.0 <= w < 1.0 && x.v == max && x.h * 6.0 == n as real + w
    requires max * (1.0 - x.s) == min && max * (1.0 - w * x.s) == mid
    ensures ToRgb(x) == if n == 1 then Rgb(mid, max, min) else if n == 3 then Rgb(min, mid, max) else Rgb(max, min, mid)
  {
    Sextant(x, n, w);
  }

  /** Twelve half-sextants: in each, the hue times six is a whole number plus or minus the fraction
      at which the middle channel lies. */
  lemma HueOf(c: Rgb)
    requires InCube(c) && Max(c.r, Max(c.g, c.b)) != Min(c.r, Min(c.g, c.b))
    ensures var max := Max(c.r, Max(c.g, c.b)); var min := Min(c.r, Min(c.g, c.b)); var h6 := ToHsv(c).h * 6.0;
      && (c.r == max && c.g >= c.b ==> h6 == (c.g - min) / (max - min))
      && (c.r == max && c.g < c.b ==> h6 == 6.0 - (c.b - min) / (max - min))
      && (c.r != max && c.g == max && c.b >= c.r ==> h6 == 2.0 + (c.b - min) / (max - min))
      && (c.r != max && c.g == max && c.b < c.r ==> h6 == 2.0 - (c.r - min) / (max - min))
      && (c.r != max && c.g != max && c.r >= c.g ==> h6 == 4.0 + (c.r - min) / (max - min))
      && (c.r != max && c.g != max && c.r < c.g ==> h6 == 4.0 - (c.g - min) / (max - min))
  {
    var max := Max(c.r, Max(c.g, c.b));
    var min := Min(c.r, Min(c.g, c.b));
    var d := max - min;
    Negated(c.g - c.b, d);
    Negated(c.b - c.r, d);
    Negated(c.r - c.g, d);
  }

  lemma Extremes(c: Rgb)
    ensures var max := Max(c.r, Max(c.g, c.b)); var min := Min(c.r, Min(c.g, c.b));
      && max >= c.r && max >= c.g && max >= c.b && (max == c.r || max == c.g || max == c.b)
      && min <= c.r && min <= c.g && min <= c.b && (min == c.r || min == c.g || min == c.b)
  {
  }

  lemma Share(max: real, min: real, s: real)
    requires 0.0 <= min <= max && s == if max == 0.0 then 0.0 else (max - min) / max
    ensures s * max == max - min
  {
    if max != 0.0 {
      Quotient(max - min, max);
    }
  }

  /** The value is the largest channel, and the saturation the share of it that the smallest lacks. */
  lemma SaturationAndValue(c: Rgb, max: real, min: real)
    requires InCube(c) && max == Max(c.r, Max(c.g, c.b)) && min == Min(c.r, Min(c.g, c.b))
    ensures ToHsv(c).v == max && ToHsv(c).s * max == max - min && (max == 0.0 ==> ToHsv(c).s == 0.0)
  {
    Extremes(c);
    Share(max, min, ToHsv(c).s);
  }

  lemma Negated(x: real, d: real)
    requires d > 0.0
    ensures (-x) / d == -(x / d)
  {
    assert -(x / d) * d == -x;
  }

  /** HSV is only another name for the colour: every point of the RGB cube, greys included, comes
      back exactly, with the hue in [0, 1) and the saturation in [0, 1]. */
  lemma RoundTrip(c: Rgb)
    requires InCube(c)
    ensures ToRgb(ToHsv(c)) == c
    ensures 0.0 <= ToHsv(c).h < 1.0 && 0.0 <= ToHsv(c).s <= 1.0 && 0.0 <= ToHsv(c).v <= 1.0
  {
    var max := Max(c.r, Max(c.g, c.b));
    var min := Min(c.r, Min(c.g, c.b));
    if max == min {
      GreyRoundTrip(c);
    } else if c.r == max {
      RedRoundTrip(c, max, min);
    } else if c.g == max {
      GreenRoundTrip(c, max, min);
    } else {
      BlueRoundTrip(c, max, min);
    }
  }

  lemma GreyRoundTrip(c: Rgb)
    requires InCube(c) && c.r == c.g == c.b
    ensures ToRgb(ToHsv(c)) == c && ToHsv(c) == Hsv(0.0, 0.0, c.r)
  {
    assert ToHsv(c) == Hsv(0.0, 0.0, c.r);
    Sextant(ToHsv(c), 0, 0.0);
  }

  ghost predicate Recovered(c: Rgb) {
    var x := ToHsv(c);
    ToRgb(x) == c && 0.0 <= x.h < 1.0 && 0.0 <= x.s <= 1.0 && 0.0 <= x.v <= 1.0
  }

  lemma RedRoundTrip(c: Rgb, max: real, min: real)
    requires InCube(c) && max == Max(c.r, Max(c.g, c.b)) && min == Min(c.r, Min(c.g, c.b))
    requires max != min && c.r == max
    ensures Recovered(c)
  {
    HueOf(c);
    if c.g >= c.b {
      Rising(ToHsv(c), 0, max, min, c.g);
    } else {
      Falling(ToHsv(c), 5, max, min, c.b);
    }
  }

  lemma GreenRoundTrip(c: Rgb, max: real, min: real)
    requires InCube(c) && max == Max(c.r, Max(c.g, c.b)) && min == Min(c.r, Min(c.g, c.b))
    requires max != min && c.r != max && c.g == max
    ensures Recovered(c)
  {
    HueOf(c);
    if c.b >= c.r {
      Rising(ToHsv(c), 2, max, min, c.b);
    } else {
      Falling(ToHsv(c), 1, max, min, c.r);
    }
  }

  lemma BlueRoundTrip(c: Rgb, max: real, min: real)
    requires InCube(c) && max == Max(c.r, Max(c.g, c.b)) && min == Min(c.r, Min(c.g, c.b))
    requires max != min && c.r != max && c.g != max
    ensures Recovered(c)
  {
    HueOf(c);
    if c.r >= c.g {
      Rising(ToHsv(c), 4, max, min, c.r);
    } else {
      Falling(ToHsv(c), 3, max, min, c.g);
    }
  }

  // ----- hexadecimal text -----

  datatype Channels8 = Channels8(r: nat, g: nat, b: nat)

  predicate Bytes(c: Channels8) {
    c.r < 256 && c.g < 256 && c.b < 256
  }

  /** The six digits of a colour, after an optional '#', ignoring surrounding white space. */
  function Digits(text: string): (r: Option<string>)
    ensures r.Some? ==> |r.value| == 6 && forall i :: 0 <= i < 6 ==> HexValue(r.value[i]) < 16
  {
    var t := Trim(text);
    var d := if t != "" && t[0] == '#' then t[1..] else t;
    if |d| == 6 && forall i :: 0 <= i < 6 ==> HexValue(d[i]) < 16 then Some(d) else None
  }

  function ParseHex(d: string): nat {
    if d == "" then 0 else 16 * ParseHex(d[..|d| - 1]) + HexValue(d[|d| - 1])
  }

  function HexToRgb(text: string): Option<Channels8> {
    match Digits(text)
    case None => None
    case Some(d) =>
      var n := ParseHex(d);
      Some(Channels8(n / 65536 % 256, n / 256 % 256, n % 256))
  }

  /** Math.round. */
  function Round(x: real): int {
    (x + 0.5).Floor
  }

  function Clamp(n: int): (m: nat)
    ensures m < 256
  {
    if n < 0 then 0 else if n > 255 then 255 else n
  }

  function TwoDigits(x: real): string {
    var n := Clamp(Round(x));
    [HexDigit(n / 16), HexDigit(n % 16)]
  }

  function RgbToHex(r: real, g: real, b: real): string {
    "#" + TwoDigits(r) + TwoDigits(g) + TwoDigits(b)
  }

  const FALLBACK := Channels8(244, 248, 255)

  function Channel(c: nat): real {
    c as real / 255.0
  }

  function HexToHsv(text: string): Hsv {
    var c := ColourOf(text);
    ToHsv(Rgb(Channel(c.r), Channel(c.g), Channel(c.b)))
  }

  function HsvToHex(c: Hsv): string {
    var x := ToRgb(c);
    RgbToHex(x.r * 255.0, x.g * 255.0, x.b * 255.0)
  }

  lemma ParseTwoMore(d: string, k: nat)
    requires k + 1 < |d| && HexValue(d[k]) < 16 && HexValue(d[k + 1]) < 16
    ensures ParseHex(d[..k + 2]) == 256 * ParseHex(d[..k]) + PairValue(d, k)
  {
    assert d[..k + 2][..k + 1] == d[..k + 1] && d[..k + 1][..k] == d[..k];
  }

  lemma ThreeBytes(n: nat, a: nat, b: nat, c: nat)
    requires a < 256 && b < 256 && c < 256 && n == 65536 * a + 256 * b + c
    ensures n / 65536 % 256 == a && n / 256 % 256 == b && n % 256 == c
  {
  }

  function PairValue(d: string, k: nat): (v: nat)
    requires k + 1 < |d| && HexValue(d[k]) < 16 && HexValue(d[k + 1]) < 16
    ensures v < 256
  {
    16 * HexValue(d[k]) + HexValue(d[k + 1])
  }

  lemma ParseSix(d: string)
    requires |d| == 6 && forall i :: 0 <= i < 6 ==> HexValue(d[i]) < 16
    ensures ParseHex(d) == 65536 * PairValue(d, 0) + 256 * PairValue(d, 2) + PairValue(d, 4)
  {
    assert ParseHex(d[..2]) == PairValue(d, 0) by {
      ParseTwoMore(d, 0);
      assert d[..0] == "";
    }
    assert ParseHex(d[..4]) == 256 * PairValue(d, 0) + PairValue(d, 2) by {
      ParseTwoMore(d, 2);
    }
    assert ParseHex(d[..6]) == 256 * (256 * PairValue(d, 0) + PairValue(d, 2)) + PairValue(d, 4) by {
      ParseTwoMore(d, 4);
    }
    assert d[..6] == d;
  }

  lemma SixDigits(d: string)
    requires |d| == 6 && forall i :: 0 <= i < 6 ==> HexValue(d[i]) < 16
    ensures var n := ParseHex(d);
      Channels8(n / 65536 % 256, n / 256 % 256, n % 256) == Channels8(PairValue(d, 0), PairValue(d, 2), PairValue(d, 4))
  {
    ParseSix(d);
    ThreeBytes(ParseHex(d), PairValue(d, 0), PairValue(d, 2), PairValue(d, 4));
  }

  lemma HexOfBytes(c: Channels8)
    requires Bytes(c)
    ensures HexToRgb(RgbToHex(c.r as real, c.g as real, c.b as real)) == Some(c)
  {
    var t := RgbToHex(c.r as real, c.g as real, c.b as real);
    RoundOf(c.r);
    RoundOf(c.g);
    RoundOf(c.b);
    var d := t[1..];
    assert d == [HexDigit(c.r / 16), HexDigit(c.r % 16), HexDigit(c.g / 16), HexDigit(c.g % 16),
                 HexDigit(c.b / 16), HexDigit(c.b % 16)];
    assert !Blank('#') && HexValue(t[6]) < 16 && !Blank(t[6]);
    TrimGives(t);
    assert Digits(t) == Some(d);
    SixDigits(d);
  }

  lemma RoundOf(n: nat)
    ensures Round(n as real) == n
  {
  }

  function ColourOf(text: string): Channels8 {
    match HexToRgb(text) case Some(c) => c case None => FALLBACK
  }

  /** hsvToHex(hexToHsv(text)) is the same colour, in the normal form "#RRGGBB", for every text;
      text that is not a colour stands for the fallback. */
  lemma HexRoundTrip(text: string)
    ensures var c := ColourOf(text);
      && HsvToHex(HexToHsv(text)) == RgbToHex(c.r as real, c.g as real, c.b as real)
      && HexToRgb(HsvToHex(HexToHsv(text))) == Some(c)
  {
    BytesRoundTrip(ColourOf(text));
    HexOfBytes(ColourOf(text));
  }

  /** For six digits that is the text itself in capitals, after a '#'. */
  lemma HexIsKept(text: string, d: string)
    requires Digits(text) == Some(d)
    ensures HsvToHex(HexToHsv(text))
         == ['#', Upper(d[0]), Upper(d[1]), Upper(d[2]), Upper(d[3]), Upper(d[4]), Upper(d[5])]
  {
    HexRoundTrip(text);
    ColourIs(text, d);
    PairsText(d);
  }

  lemma ColourIs(text: string, d: string)
    requires Digits(text) == Some(d)
    ensures ColourOf(text) == Channels8(PairValue(d, 0), PairValue(d, 2), PairValue(d, 4))
  {
    SixDigits(d);
  }

  lemma PairsText(d: string)
    requires |d| == 6 && forall i :: 0 <= i < 6 ==> HexValue(d[i]) < 16
    ensures RgbToHex(PairValue(d, 0) as real, PairValue(d, 2) as real, PairValue(d, 4) as real)
         == ['#', Upper(d[0]), Upper(d[1]), Upper(d[2]), Upper(d[3]), Upper(d[4]), Upper(d[5])]
  {
    PairText(d, 0);
    PairText(d, 2);
    PairText(d, 4);
  }

  lemma PairText(d: string, k: nat)
    requires k + 1 < |d| && HexValue(d[k]) < 16 && HexValue(d[k + 1]) < 16
    ensures TwoDigits(PairValue(d, k) as real) == [Upper(d[k]), Upper(d[k + 1])]
  {
    RoundOf(PairValue(d, k));
    DigitValues(d[k]);
    DigitValues(d[k + 1]);
  }

  /** The channels of a colour, in the order red, green, blue. */
  lemma ChannelsOf(text: string, d: string)
    requires Digits(text) == Some(d)
    ensures HexToRgb(text) == Some(Channels8(
      16 * HexValue(d[0]) + HexValue(d[1]), 16 * HexValue(d[2]) + HexValue(d[3]), 16 * HexValue(d[4]) + HexValue(d[5])))
  {
    SixDigits(d);
  }

  lemma BytesRoundTrip(c: Channels8)
    requires Bytes(c)
    ensures HsvToHex(ToHsv(Rgb(Channel(c.r), Channel(c.g), Channel(c.b))))
         == RgbToHex(c.r as real, c.g as real, c.b as real)
  {
    ChannelScales(c.r);
    ChannelScales(c.g);
    ChannelScales(c.b);
    RoundTrip(Rgb(Channel(c.r), Channel(c.g), Channel(c.b)));
  }

  lemma ChannelScales(n: nat)
    requires n < 256
    ensures 0.0 <= Channel(n) <= 1.0 && Channel(n) * 255.0 == n as real
  {
    Quotient(n as real, 255.0);
  }
}
