/** What payment links look like and what parsing reads, spelled out: the text of both links for every
    payload, what buildPayPayload makes of its input, and bare handles. */
module LinkText {
  import opened Seqs
  import opened Wrappers
  import opened JsText
  import opened Url
  import opened PaymentLink
  import Utf8

  // ----- form encoding, byte by byte -----

  /** Letters, digits and * - . _ stand for themselves, a space is '+', and any other byte is '%' and
      its two hexadecimal digits in capitals. */
  lemma FormByteIs(b: nat)
    requires b < 256
    ensures var c := b as char;
      if 'a' <= c <= 'z' || 'A' <= c <= 'Z' || '0' <= c <= '9' || c in {'*', '-', '.', '_'} then FormByte(b) == [c]
      else if c == ' ' then FormByte(b) == "+"
      else FormByte(b) == ['%', "0123456789ABCDEF"[b / 16], "0123456789ABCDEF"[b % 16]]
  {
    DigitValues(HexDigit(b / 16));
    DigitValues(HexDigit(b % 16));
  }

  /** In a path, letters, digits and - _ . ! ~ * ' ( ) stand for themselves. */
  lemma PathByteIs(b: nat)
    requires b < 256
    ensures var c := b as char;
      if 'a' <= c <= 'z' || 'A' <= c <= 'Z' || '0' <= c <= '9' || c in {'-', '_', '.', '!', '~', '*', '\'', '(', ')'}
      then ComponentByte(b) == [c]
      else ComponentByte(b) == ['%', "0123456789ABCDEF"[b / 16], "0123456789ABCDEF"[b % 16]]
  {
    DigitValues(HexDigit(b / 16));
    DigitValues(HexDigit(b % 16));
  }

  // ----- the text of a link -----

  /** A parameter name, which needs no escaping. */
  predicate PlainKey(name: string) {
    forall i :: 0 <= i < |name| ==> 'a' <= name[i] <= 'z'
  }

  lemma {:induction false} KeyIsItself(name: string)
    requires PlainKey(name)
    ensures EncodeForm(name) == name
  {
    if name != "" {
      KeyIsItself(name[1..]);
      var c := name[0];
      assert Utf8.EncodeChar(c) == [c as int];
      assert Utf8.Encode(name) == [c as int] + Utf8.Encode(name[1..]);
      assert Utf8.Encode(name)[1..] == Utf8.Encode(name[1..]);
      FormByteIs(c as int);
      assert [c] + name[1..] == name;
    }
  }

  function KeyValue(name: string, value: string): string {
    name + "=" + EncodeForm(value)
  }

  lemma PairIsKeyValue(name: string, value: string)
    requires PlainKey(name)
    ensures PairText((name, value)) == KeyValue(name, value)
  {
    KeyIsItself(name);
  }

  lemma {:induction false} OneMorePair(pairs: seq<Pair>, p: Pair)
    requires pairs != []
    ensures Serialize(pairs + [p]) == Serialize(pairs) + ("&" + PairText(p))
  {
    var all := pairs + [p];
    assert all[0] == pairs[0] && all[1..] == pairs[1..] + [p];
    if |pairs| > 1 {
      OneMorePair(pairs[1..], p);
      Assoc(PairText(pairs[0]) + "&", Serialize(pairs[1..]), "&" + PairText(p));
    } else {
      assert pairs[1..] == [] && [] + [p] == [p];
      Assoc(PairText(pairs[0]), "&", PairText(p));
    }
  }

  /** A parameter after others, if its value is truthy. */
  function After(name: string, value: Option<string>): string {
    match value
    case None => ""
    case Some(v) => if v == "" then "" else "&" + KeyValue(name, v)
  }

  /** The same before others. */
  function Before(name: string, value: Option<string>): string {
    match value
    case None => ""
    case Some(v) => if v == "" then "" else KeyValue(name, v) + "&"
  }

  lemma AfterPair(pairs: seq<Pair>, name: string, value: string)
    requires pairs != [] && PlainKey(name)
    ensures Serialize(pairs + [(name, value)]) == Serialize(pairs) + ("&" + KeyValue(name, value))
  {
    OneMorePair(pairs, (name, value));
    PairIsKeyValue(name, value);
  }

  lemma AfterPairs(pairs: seq<Pair>, name: string, value: Option<string>)
    requires pairs != [] && PlainKey(name)
    ensures Serialize(pairs + Field(name, value)) == Serialize(pairs) + After(name, value)
  {
    match Truthy(value)
    case None =>
      assert pairs + [] == pairs;
    case Some(v) =>
      AfterPair(pairs, name, v);
  }

  lemma BeforePairs(name: string, value: Option<string>, pairs: seq<Pair>)
    requires pairs != [] && PlainKey(name)
    ensures Serialize(Field(name, value) + pairs) == Before(name, value) + Serialize(pairs)
  {
    match Truthy(value)
    case None =>
      assert [] + pairs == pairs;
    case Some(v) =>
      PairIsKeyValue(name, v);
      assert ([(name, v)] + pairs)[0] == (name, v) && ([(name, v)] + pairs)[1..] == pairs;
  }

  lemma OnlyPair(name: string, value: string)
    requires PlainKey(name)
    ensures Serialize([(name, value)]) == KeyValue(name, value)
  {
    PairIsKeyValue(name, value);
  }

  /** ephera://pay?v=1&to=... and then, where they are given and not empty, name, amount, note, kind and
      mid, with ccy between amount and note. */
  lemma DeepLinkIs(p: PayPayload)
    ensures DeepLink(p) == "ephera://" + "pay" + "?" + (
      KeyValue("v", "1") + ("&" + KeyValue("to", p.to)) + After("name", p.displayName) + After("amount", p.amount)
      + ("&" + KeyValue("ccy", p.currency)) + After("note", p.note) + After("kind", p.kind)
      + After("mid", p.merchantId))
  {
    DeepQuery([("v", "1")], p, "to", "name", "amount", "ccy", "note", "kind", "mid");
    OnlyPair("v", "1");
    assert [] + [("v", "1")] == [("v", "1")];
  }

  lemma DeepQuery(start: seq<Pair>, p: PayPayload, to: string, name: string, amount: string, ccy: string,
                  note: string, kind: string, mid: string)
    requires start != [] && PlainKey(to) && PlainKey(name) && PlainKey(amount) && PlainKey(ccy)
    requires PlainKey(note) && PlainKey(kind) && PlainKey(mid)
    ensures Serialize(start + [(to, p.to)] + Field(name, p.displayName) + Field(amount, p.amount)
                      + [(ccy, p.currency)] + Field(note, p.note) + Field(kind, p.kind) + Field(mid, p.merchantId))
         == Serialize(start) + ("&" + KeyValue(to, p.to)) + After(name, p.displayName) + After(amount, p.amount)
          + ("&" + KeyValue(ccy, p.currency)) + After(note, p.note) + After(kind, p.kind) + After(mid, p.merchantId)
  {
    var a := start + [(to, p.to)] + Field(name, p.displayName) + Field(amount, p.amount);
    FirstParts(start, p, to, name, amount);
    LastParts(a, p, ccy, note, kind, mid);
  }

  lemma FirstParts(start: seq<Pair>, p: PayPayload, to: string, name: string, amount: string)
    requires start != [] && PlainKey(to) && PlainKey(name) && PlainKey(amount)
    ensures Serialize(start + [(to, p.to)] + Field(name, p.displayName) + Field(amount, p.amount))
         == Serialize(start) + ("&" + KeyValue(to, p.to)) + After(name, p.displayName) + After(amount, p.amount)
  {
    AfterPair(start, to, p.to);
    AfterPairs(start + [(to, p.to)], name, p.displayName);
    AfterPairs(start + [(to, p.to)] + Field(name, p.displayName), amount, p.amount);
  }

  lemma LastParts(start: seq<Pair>, p: PayPayload, ccy: string, note: string, kind: string, mid: string)
    requires start != [] && PlainKey(ccy) && PlainKey(note) && PlainKey(kind) && PlainKey(mid)
    ensures Serialize(start + [(ccy, p.currency)] + Field(note, p.note) + Field(kind, p.kind)
                      + Field(mid, p.merchantId))
         == Serialize(start) + ("&" + KeyValue(ccy, p.currency)) + After(note, p.note) + After(kind, p.kind)
          + After(mid, p.merchantId)
  {
    AfterPair(start, ccy, p.currency);
    AfterPairs(start + [(ccy, p.currency)], note, p.note);
    AfterPairs(start + [(ccy, p.currency)] + Field(note, p.note), kind, p.kind);
    AfterPairs(start + [(ccy, p.currency)] + Field(note, p.note) + Field(kind, p.kind), mid, p.merchantId);
  }

  /** https://pay.ephera.money/r/ and the recipient, then amount and note where they are given and not
      empty, the currency, and the kind. */
  lemma HttpsLinkIs(p: PayPayload)
    ensures HttpsLink(p) == "https://pay.ephera.money/" + ("r/" + EncodeComponent(p.to)) + "?" + (
      Before("amount", p.amount) + (Before("note", p.note) + (KeyValue("ccy", p.currency) + After("kind", p.kind))))
  {
    HttpsQuery(p, "amount", "note", "ccy", "kind");
  }

  lemma HttpsQuery(p: PayPayload, amount: string, note: string, ccy: string, kind: string)
    requires PlainKey(amount) && PlainKey(note) && PlainKey(ccy) && PlainKey(kind)
    ensures Serialize([] + Field(amount, p.amount) + Field(note, p.note) + [(ccy, p.currency)] + Field(kind, p.kind))
         == Before(amount, p.amount) + (Before(note, p.note) + (KeyValue(ccy, p.currency) + After(kind, p.kind)))
  {
    var last := [(ccy, p.currency)] + Field(kind, p.kind);
    OnlyPair(ccy, p.currency);
    AfterPairs([(ccy, p.currency)], kind, p.kind);
    BeforePairs(note, p.note, last);
    BeforePairs(amount, p.amount, Field(note, p.note) + last);
    PairsRegroup(Field(amount, p.amount), Field(note, p.note), [(ccy, p.currency)], Field(kind, p.kind));
  }

  lemma PairsRegroup(a: seq<Pair>, b: seq<Pair>, c: seq<Pair>, d: seq<Pair>)
    ensures [] + a + b + c + d == a + (b + (c + d))
  {
  }

  // ----- building and handles -----

  /** A leading '@' of the recipient is dropped, and only one. */
  lemma RecipientIs(input: Input, handle: string)
    ensures BuildPayPayload(input.(to := "@" + handle)).to == handle
    ensures handle == "" || handle[0] != '@' ==> BuildPayPayload(input.(to := handle)).to == handle
  {
  }

  /** A text field after building: what was given less the blanks around it, or nothing at all. */
  ghost predicate Tidied(given: Option<string>, built: Option<string>) {
    match built
    case None => given.Some? ==> AllBlank(given.value)
    case Some(v) =>
      given.Some? && v != "" && !Blank(v[0]) && !Blank(v[|v| - 1])
      && exists before, after :: given.value == before + v + after && AllBlank(before) && AllBlank(after)
  }

  lemma BuiltIs(input: Input)
    ensures var p := BuildPayPayload(input);
      && Tidied(input.amount, p.amount) && Tidied(input.note, p.note)
      && p.displayName == input.displayName && p.merchantId == input.merchantId
      && p.currency == (if input.currency.Some? then input.currency.value else "GHS")
      && p.kind == Some(if input.kind.Some? then input.kind.value else "p2p")
  {
    TextIsTidied(input.amount);
    TextIsTidied(input.note);
  }

  lemma TextIsTidied(x: Option<string>)
    ensures Tidied(x, TrimmedText(x))
  {
    if x.Some? {
      var before, after := TrimSplits(x.value);
      TrimGives(x.value);
      if Trim(x.value) == "" {
        assert x.value == before + after;
      }
    }
  }

  /** The characters of a handle. */
  predicate HandleText(h: string) {
    && 2 <= |h| <= 32
    && forall i :: 0 <= i < |h| ==>
         'a' <= h[i] <= 'z' || 'A' <= h[i] <= 'Z' || '0' <= h[i] <= '9' || h[i] == '_' || h[i] == '.'
  }

  /** A bare handle, with or without '@', is a payment to it, unless it mentions the host of https links,
      which is read as one. */
  lemma HandleParses(h: string)
    requires HandleText(h) && !Includes(h, "pay.ephera.money")
    ensures ParsePayPayload(h) == Payload(PayPayload(h, None, None, "GHS", None, Some("p2p"), None))
    ensures ParsePayPayload("@" + h) == Payload(PayPayload(h, None, None, "GHS", None, Some("p2p"), None))
  {
    HandleIsPlain(h, h);
    HandleIsPlain("@" + h, h);
    WithAtIncludes(h);
  }

  /** A handle is not trimmed, and is neither a deep link nor a document. */
  lemma HandleIsPlain(text: string, h: string)
    requires HandleText(h) && (text == h || text == "@" + h)
    ensures Trim(text) == text && text != "" && !StartsWith(text, DEEP) && !StartsWith(text, "{")
    ensures WithoutAt(text) == h && Handle(text)
  {
    TrimGives(text);
    assert WithoutAt(text) == h;
    forall c | c in h ensures WordChar(c) || c == '.' {
    }
    assert DEEP[6] == ':' && |DEEP| == 12;
    assert |text| > 6 ==> text[6] != ':';
  }

  lemma WithAtIncludes(h: string)
    requires !Includes(h, "pay.ephera.money")
    ensures !Includes("@" + h, "pay.ephera.money")
  {
    var s, part := "@" + h, "pay.ephera.money";
    forall i | 0 <= i <= |s| ensures !(part <= s[i..]) {
      if i == 0 {
        assert s[0..][0] == '@' && part[0] == 'p';
      } else {
        assert s[i..] == h[i - 1..];
      }
    }
  }

  // ----- reading any link, and anything else -----

  /** A deep link with any parameters: without a recipient it is no payment; a missing currency is GHS,
      a missing kind p2p, and what else is missing is absent. */
  lemma AnyDeepLink(q: seq<Pair>)
    ensures ParsePayPayload("ephera://" + "pay" + "?" + Serialize(q)) ==
      if Get(q, "to") == None || Get(q, "to").value == "" then Null
      else Payload(PayPayload(
        Get(q, "to").value, Get(q, "name"), Get(q, "amount"),
        if Get(q, "ccy").Some? then Get(q, "ccy").value else "GHS", Get(q, "note"),
        Some(if Get(q, "kind").Some? then Get(q, "kind").value else "p2p"), Get(q, "mid")))
  {
    PlainQuery(q);
    DeepPrefix(Serialize(q));
    LinkParts(SCHEME, "pay", Serialize(q));
    QueryRoundTrip(q);
    DeepReads(SCHEME + "pay" + "?" + Serialize(q), q);
  }

  lemma DeepReads(link: string, q: seq<Pair>)
    requires Trim(link) == link && link != "" && StartsWith(link, DEEP)
    requires ParseQuery(QueryOf(Cleaned(link[|SCHEME|..]))) == q
    ensures ParsePayPayload(link) ==
      if Get(q, "to") == None || Get(q, "to").value == "" then Null
      else Payload(PayPayload(
        Get(q, "to").value, Get(q, "name"), Get(q, "amount"),
        if Get(q, "ccy").Some? then Get(q, "ccy").value else "GHS", Get(q, "note"),
        Some(if Get(q, "kind").Some? then Get(q, "kind").value else "p2p"), Get(q, "mid")))
  {
  }

  /** The same for https links, which name neither a display name nor a merchant. */
  lemma AnyHttpsLink(to: string, q: seq<Pair>)
    requires to !in {"", ".", ".."}
    ensures ParsePayPayload("https://pay.ephera.money/" + ("r/" + EncodeComponent(to)) + "?" + Serialize(q)) ==
      Payload(PayPayload(
        to, None, Get(q, "amount"), if Get(q, "ccy").Some? then Get(q, "ccy").value else "GHS",
        Get(q, "note"), Some(if Get(q, "kind").Some? then Get(q, "kind").value else "p2p"), None))
  {
    var link := HOST + LinkPath(to) + "?" + Serialize(q);
    PlainQuery(q);
    PlainPath(to);
    PlainHost();
    LinkParts(HOST, LinkPath(to), Serialize(q));
    PaymentLink.Regroup(HOST, LinkPath(to), "?", Serialize(q));
    HostIsIncluded(LinkPath(to) + "?" + Serialize(q));
    QueryRoundTrip(q);
    RecipientPart(to);
    HttpsReads(link, to, q);
  }

  lemma HttpsReads(link: string, to: string, q: seq<Pair>)
    requires Trim(link) == link && link != "" && StartsWith(link, HOST) && !StartsWith(link, DEEP)
    requires Includes(link, "pay.ephera.money")
    requires var rest := Cleaned(link[|HOST|..]);
      ParseQuery(QueryOf(rest)) == q && NamedBy(PathParts(PathOf(rest))) == Some(to) && PathParts(PathOf(rest)) != []
    ensures ParsePayPayload(link) == Payload(PayPayload(
      to, None, Get(q, "amount"), if Get(q, "ccy").Some? then Get(q, "ccy").value else "GHS",
      Get(q, "note"), Some(if Get(q, "kind").Some? then Get(q, "kind").value else "p2p"), None))
  {
  }

  /** Text that is blank, or is no link, no document and no handle, is no payment. */
  lemma OtherTextIsNull(raw: string)
    requires var t := Trim(raw);
      t == "" || (!StartsWith(t, "ephera://pay") && !Includes(t, "pay.ephera.money") && !StartsWith(t, "{")
                  && !HandleText(t) && !(t[0] == '@' && HandleText(t[1..])))
    ensures ParsePayPayload(raw) == Null
  {
    var t := Trim(raw);
    if t != "" && Handle(t) {
      var h := WithoutAt(t);
      forall i | 0 <= i < |h| ensures WordChar(h[i]) || h[i] == '.' {
        assert h[i] in h;
      }
      assert HandleText(h);
      assert false;
    }
  }
}
