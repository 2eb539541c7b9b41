/** The parts of the WHATWG URL Standard that payment links rely on: form-encoded query strings
    (section 5), percent-encoded path components, and the path and query states of the parser
    (section 4.4) for a URL whose scheme and host are already known. */
module Url {
  import opened Seqs
  import opened Wrappers
  import opened LengthPrefix
  import opened JsText
  import Utf8

  // ----- percent-encoding -----

  predicate Alphanumeric(b: int) {
    48 <= b <= 57 || 65 <= b <= 90 || 97 <= b <= 122
  }

  function PercentByte(b: Byte): string {
    ['%', HexDigit(b / 16), HexDigit(b % 16)]
  }

  /** Unescaped in a form-encoded query: letters, digits and * - . _ */
  predicate FormSafe(b: Byte) {
    Alphanumeric(b) || b == 42 || b == 45 || b == 46 || b == 95
  }

  function FormByte(b: Byte): string {
    if FormSafe(b) then [b as char] else if b == 32 then "+" else PercentByte(b)
  }

  function FormBytes(s: seq<Byte>): string {
    if s == [] then "" else FormByte(s[0]) + FormBytes(s[1..])
  }

  function EncodeForm(s: string): string {
    FormBytes(Utf8.Encode(s))
  }

  predicate HexAt(s: seq<Byte>, i: nat) {
    i < |s| && s[i] < 128 && HexValue(s[i] as char) < 16
  }

  function HexPair(x: Byte, y: Byte): Byte
    requires x < 128 && y < 128 && HexValue(x as char) < 16 && HexValue(y as char) < 16
  {
    16 * HexValue(x as char) + HexValue(y as char)
  }

  /** A '%' not followed by two hexadecimal digits stands for itself. */
  function PercentDecode(s: seq<Byte>): seq<Byte> {
    if s == [] then []
    else if s[0] == 37 && HexAt(s, 1) && HexAt(s, 2) then [HexPair(s[1], s[2])] + PercentDecode(s[3..])
    else [s[0]] + PercentDecode(s[1..])
  }

  function PlusToSpace(s: seq<Byte>): seq<Byte> {
    seq(|s|, i requires 0 <= i < |s| => if s[i] == 43 then 32 else s[i])
  }

  function DecodeForm(s: string): string {
    Utf8.Decode(PercentDecode(PlusToSpace(Utf8.Encode(s))))
  }

  lemma EscapeDecodes(x: Byte, y: Byte, b: Byte, rest: seq<Byte>)
    requires x == HexDigit(b / 16) as int && y == HexDigit(b % 16) as int
    ensures PercentDecode(PlusToSpace([37, x, y] + rest)) == [b] + PercentDecode(PlusToSpace(rest))
  {
    var u := PlusToSpace([37, x, y] + rest);
    assert u[0] == 37 && u[1] == x && u[2] == y;
    assert u[3..] == PlusToSpace(rest);
  }

  lemma FormByteDecodes(b: Byte, rest: seq<Byte>)
    ensures PercentDecode(PlusToSpace(Utf8.Encode(FormByte(b)) + rest)) == [b] + PercentDecode(PlusToSpace(rest))
  {
    var t := FormByte(b);
    Utf8.Ascii(t);
    if |t| == 1 {
      var u := PlusToSpace(Utf8.Encode(t) + rest);
      assert u[1..] == PlusToSpace(rest);
    } else {
      assert Utf8.Encode(t) == [37, HexDigit(b / 16) as int, HexDigit(b % 16) as int];
      EscapeDecodes(HexDigit(b / 16) as int, HexDigit(b % 16) as int, b, rest);
    }
  }

  lemma {:induction false} FormBytesDecode(s: seq<Byte>)
    ensures PercentDecode(PlusToSpace(Utf8.Encode(FormBytes(s)))) == s
  {
    if s != [] {
      Utf8.Concat(FormByte(s[0]), FormBytes(s[1..]));
      FormByteDecodes(s[0], Utf8.Encode(FormBytes(s[1..])));
      FormBytesDecode(s[1..]);
    }
  }

  lemma FormRoundTrip(s: string)
    ensures DecodeForm(EncodeForm(s)) == s
  {
    FormBytesDecode(Utf8.Encode(s));
    Utf8.RoundTrip(s);
  }

  /** Every character form-encoding can produce. */
  predicate FormChar(c: char) {
    (c as int < 256 && FormSafe(c as int)) || c == '+' || c == '%'
  }

  lemma {:induction false} FormCharsOnly(s: seq<Byte>)
    ensures forall c :: c in FormBytes(s) ==> FormChar(c)
  {
    if s != [] {
      FormCharsOnly(s[1..]);
      assert forall c :: c in FormByte(s[0]) ==> FormChar(c);
    }
  }

  // ----- query strings -----

  type Pair = (string, string)

  function PairText(p: Pair): string {
    EncodeForm(p.0) + "=" + EncodeForm(p.1)
  }

  /** URLSearchParams.toString. */
  function Serialize(pairs: seq<Pair>): string {
    if pairs == [] then ""
    else if |pairs| == 1 then PairText(pairs[0])
    else PairText(pairs[0]) + "&" + Serialize(pairs[1..])
  }

  /** What stands before and after the first c; all and nothing if there is none. */
  function Break(s: string, c: char): (r: (string, string))
    ensures |r.1| < |s| || s == ""
    ensures |r.0| <= |s| && |r.1| <= |s|
  {
    if s == "" then ("", "")
    else if s[0] == c then ("", s[1..])
    else
      var (before, after) := Break(s[1..], c);
      ([s[0]] + before, after)
  }

  lemma {:induction false} BreakFinds(a: string, c: char, b: string)
    requires c !in a
    ensures Break(a + [c] + b, c) == (a, b) && Break(a, c) == (a, "")
  {
    var s := a + [c] + b;
    if a == "" {
      assert s[1..] == b;
    } else {
      assert s[0] == a[0] && a[0] in a;
      assert s[1..] == a[1..] + [c] + b;
      BreakFinds(a[1..], c, b);
      assert [a[0]] + a[1..] == a;
    }
  }

  function ParsePair(piece: string): Pair {
    var (name, value) := Break(piece, '=');
    (DecodeForm(name), DecodeForm(value))
  }

  /** new URLSearchParams(query). */
  function ParseQuery(query: string): seq<Pair>
    decreases |query|
  {
    if query == "" then []
    else
      var (piece, rest) := Break(query, '&');
      (if piece == "" then [] else [ParsePair(piece)]) + ParseQuery(rest)
  }

  lemma PairTextParses(p: Pair)
    ensures ParsePair(PairText(p)) == p && '&' !in PairText(p) && PairText(p) != ""
  {
    FormCharsOnly(Utf8.Encode(p.0));
    FormCharsOnly(Utf8.Encode(p.1));
    assert !FormChar('=') && !FormChar('&');
    BreakFinds(EncodeForm(p.0), '=', EncodeForm(p.1));
    FormRoundTrip(p.0);
    FormRoundTrip(p.1);
  }

  /** Any list of names and values survives being written as a query string and parsed again. */
  lemma {:induction false} QueryRoundTrip(pairs: seq<Pair>)
    ensures ParseQuery(Serialize(pairs)) == pairs
  {
    if pairs != [] {
      var text := PairText(pairs[0]);
      PairTextParses(pairs[0]);
      if |pairs| == 1 {
        BreakFinds(text, '&', "");
        assert ParseQuery("") == [];
      } else {
        QueryRoundTrip(pairs[1..]);
        BreakFinds(text, '&', Serialize(pairs[1..]));
      }
    }
  }

  function Get(pairs: seq<Pair>, name: string): Option<string> {
    if pairs == [] then None
    else if pairs[0].0 == name then Some(pairs[0].1)
    else Get(pairs[1..], name)
  }

  /** URLSearchParams.get answers the first entry of the name, if there is one. */
  lemma {:induction false} GetIsFirst(pairs: seq<Pair>, name: string, i: nat)
    requires i < |pairs| && pairs[i].0 == name && forall j :: 0 <= j < i ==> pairs[j].0 != name
    ensures Get(pairs, name) == Some(pairs[i].1)
  {
    if i > 0 {
      assert pairs[0].0 != name;
      GetIsFirst(pairs[1..], name, i - 1);
    }
  }

  lemma {:induction false} GetNeedsEntry(pairs: seq<Pair>, name: string)
    requires forall j :: 0 <= j < |pairs| ==> pairs[j].0 != name
    ensures Get(pairs, name) == None
  {
    if pairs != [] {
      assert pairs[0].0 != name;
      GetNeedsEntry(pairs[1..], name);
    }
  }

  predicate QueryChar(c: char) {
    FormChar(c) || c == '=' || c == '&'
  }

  lemma {:induction false} QueryCharsOnly(pairs: seq<Pair>)
    ensures forall c :: c in Serialize(pairs) ==> QueryChar(c)
  {
    if pairs != [] {
      FormCharsOnly(Utf8.Encode(pairs[0].0));
      FormCharsOnly(Utf8.Encode(pairs[0].1));
      if |pairs| > 1 {
        QueryCharsOnly(pairs[1..]);
      }
    }
  }

  // ----- path components -----

  /** Left alone by encodeURIComponent: letters, digits and - _ . ! ~ * ' ( ) */
  predicate ComponentSafe(b: Byte) {
    Alphanumeric(b) || b == 45 || b == 95 || b == 46 || b == 33 || b == 126 || 39 <= b <= 42
  }

  function ComponentByte(b: Byte): string {
    if ComponentSafe(b) then [b as char] else PercentByte(b)
  }

  function ComponentBytes(s: seq<Byte>): string {
    if s == [] then "" else ComponentByte(s[0]) + ComponentBytes(s[1..])
  }

  function EncodeComponent(s: string): string {
    ComponentBytes(Utf8.Encode(s))
  }

  /** The byte written as %XX at the front of a string. */
  function Escaped(s: string): Option<Byte> {
    if |s| >= 3 && s[0] == '%' && HexValue(s[1]) < 16 && HexValue(s[2]) < 16 then
      Some(16 * HexValue(s[1]) + HexValue(s[2]))
    else None
  }

  function EscapedRun(s: string, n: nat): Option<seq<Byte>> {
    if n == 0 then Some([])
    else
      match Escaped(s)
      case None => None
      case Some(b) =>
        match EscapedRun(s[3..], n - 1)
        case None => None
        case Some(rest) => Some([b] + rest)
  }

  lemma {:induction false} RunLength(s: string, n: nat)
    ensures EscapedRun(s, n).Some? ==> |EscapedRun(s, n).value| == n && 3 * n <= |s|
  {
    if n > 0 && Escaped(s).Some? {
      RunLength(s[3..], n - 1);
    }
  }

  /** decodeURIComponent; None stands for the URIError it throws. */
  function DecodeComponent(s: string): Option<string> {
    if s == "" then Some("")
    else if s[0] != '%' then
      match DecodeComponent(s[1..])
      case None => None
      case Some(rest) => Some([s[0]] + rest)
    else
      match Escaped(s)
      case None => None
      case Some(lead) =>
        var n := Utf8.LengthOf(lead);
        RunLength(s, n);
        match EscapedRun(s, n)
        case None => None
        case Some(bytes) =>
          if n == 0 || Utf8.DecodeOne(bytes).1 != n then None
          else
            match DecodeComponent(s[3 * n..])
            case None => None
            case Some(rest) => Some([Utf8.DecodeOne(bytes).0] + rest)
  }

  lemma EscapedByte(b: Byte, rest: string)
    requires !ComponentSafe(b)
    ensures Escaped(ComponentByte(b) + rest) == Some(b) && (ComponentByte(b) + rest)[3..] == rest
  {
    var s := ComponentByte(b) + rest;
    assert s[0] == '%' && s[1] == HexDigit(b / 16) && s[2] == HexDigit(b % 16);
  }

  lemma {:induction false} EscapedBytes(bytes: seq<Byte>, tail: string)
    requires forall i :: 0 <= i < |bytes| ==> !ComponentSafe(bytes[i])
    ensures EscapedRun(ComponentBytes(bytes) + tail, |bytes|) == Some(bytes)
    ensures |ComponentBytes(bytes)| == 3 * |bytes|
  {
    if bytes != [] {
      var rest := ComponentBytes(bytes[1..]) + tail;
      EscapedBytes(bytes[1..], tail);
      EscapedByte(bytes[0], rest);
      Assoc(ComponentByte(bytes[0]), ComponentBytes(bytes[1..]), tail);
      assert [bytes[0]] + bytes[1..] == bytes;
    }
  }

  lemma ComponentChar(c: char, tail: string)
    ensures DecodeComponent(ComponentBytes(Utf8.EncodeChar(c)) + tail)
         == match DecodeComponent(tail) case None => None case Some(rest) => Some([c] + rest)
  {
    var bytes := Utf8.EncodeChar(c);
    var s := ComponentBytes(bytes) + tail;
    Utf8.OneRoundTrip(c, []);
    assert bytes + [] == bytes;
    if ComponentSafe(bytes[0]) {
      assert bytes == [c as int];
      assert ComponentBytes(bytes) == [c] + ComponentBytes([]);
      assert s[0] == c && c != '%' && s[1..] == tail;
    } else {
      EscapedBytes(bytes, tail);
      assert s[3 * |bytes|..] == tail;
      var n := |bytes|;
      assert EscapedRun(s, n) == Some(bytes);
      LeadEscaped(s, bytes);
    }
  }

  lemma LeadEscaped(s: string, bytes: seq<Byte>)
    requires bytes != [] && EscapedRun(s, |bytes|) == Some(bytes)
    ensures Escaped(s) == Some(bytes[0])
  {
  }

  lemma {:induction false} ComponentConcat(x: seq<Byte>, y: seq<Byte>)
    ensures ComponentBytes(x + y) == ComponentBytes(x) + ComponentBytes(y)
  {
    if x == [] {
      assert x + y == y;
    } else {
      ComponentConcat(x[1..], y);
      assert (x + y)[0] == x[0] && (x + y)[1..] == x[1..] + y;
      Assoc(ComponentByte(x[0]), ComponentBytes(x[1..]), ComponentBytes(y));
    }
  }

  lemma {:induction false} ComponentRoundTrip(s: string)
    ensures DecodeComponent(EncodeComponent(s)) == Some(s)
  {
    if s != "" {
      ComponentConcat(Utf8.EncodeChar(s[0]), Utf8.Encode(s[1..]));
      ComponentChar(s[0], EncodeComponent(s[1..]));
      ComponentRoundTrip(s[1..]);
      assert [s[0]] + s[1..] == s;
    }
  }

  predicate PathChar(c: char) {
    (c as int < 256 && ComponentSafe(c as int)) || c == '%'
  }

  lemma {:induction false} PathCharsOnly(s: seq<Byte>)
    ensures forall c :: c in ComponentBytes(s) ==> PathChar(c)
  {
    if s != [] {
      PathCharsOnly(s[1..]);
      assert forall c :: c in ComponentByte(s[0]) ==> PathChar(c);
    }
  }

  // ----- the URL parser, after scheme and host -----

  predicate Dropped(c: char) {
    c == '\t' || c == '\n' || c == '\r'
  }

  function DropTabs(s: string): string {
    if s == "" then "" else (if Dropped(s[0]) then "" else [s[0]]) + DropTabs(s[1..])
  }

  function StripControls(s: string): string {
    if s != "" && s[|s| - 1] as int <= 32 then StripControls(s[..|s| - 1]) else s
  }

  /** What the parser works on: trailing controls and spaces, tabs and line breaks are ignored. */
  function Cleaned(s: string): string {
    DropTabs(StripControls(s))
  }

  function QueryOf(s: string): string {
    Break(Break(s, '#').0, '?').1
  }

  function PathOf(s: string): string {
    Break(Break(s, '#').0, '?').0
  }

  /** Path segments of a special URL, in which a backslash is a slash. */
  function Segments(path: string): seq<string> {
    SegmentsOf(Replaced(path))
  }

  function SegmentsOf(path: string): seq<string>
    decreases |path|
  {
    if '/' !in path then [path]
    else
      var (before, after) := Break(path, '/');
      [before] + SegmentsOf(after)
  }

  function Replaced(path: string): string {
    seq(|path|, i requires 0 <= i < |path| => if path[i] == '\\' then '/' else path[i])
  }

  predicate SingleDot(s: string) {
    s == "." || s == "%2e" || s == "%2E"
  }

  predicate DoubleDot(s: string) {
    exists i :: 0 <= i <= |s| && SingleDot(s[..i]) && SingleDot(s[i..])
  }

  /** The path the parser builds: "." is skipped, ".." removes the segment before it. */
  function Resolve(segments: seq<string>, path: seq<string>): seq<string> {
    if segments == [] then path
    else
      var last := |segments| == 1;
      var next :=
        if DoubleDot(segments[0]) then
          (if path == [] then [] else path[..|path| - 1]) + if last then [""] else []
        else if SingleDot(segments[0]) then path + if last then [""] else []
        else path + [segments[0]];
      Resolve(segments[1..], next)
  }

  function NonEmpty(xs: seq<string>): seq<string> {
    if xs == [] then []
    else (if xs[0] == "" then [] else [xs[0]]) + NonEmpty(xs[1..])
  }

  /** pathname.split("/").filter(Boolean). */
  function PathParts(path: string): seq<string> {
    NonEmpty(Resolve(Segments(path), []))
  }

  lemma {:induction false} NoTabs(s: string)
    requires forall i :: 0 <= i < |s| ==> !Dropped(s[i])
    ensures DropTabs(s) == s
  {
    if s != "" {
      NoTabs(s[1..]);
      assert [s[0]] + s[1..] == s;
    }
  }
}
