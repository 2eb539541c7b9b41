/** apps/mobile/lib/paymentLink.ts: payment payloads as deep links and https links. */
module PaymentLink {
  import opened Wrappers
  import opened LengthPrefix
  import opened JsText
  import opened Url
  import Utf8

  datatype PayPayload = PayPayload(
    to: string, displayName: Option<string>, amount: Option<string>, currency: string,
    note: Option<string>, kind: Option<string>, merchantId: Option<string>)

  datatype Input = Input(
    to: string, displayName: Option<string>, amount: Option<string>, currency: Option<string>,
    note: Option<string>, kind: Option<string>, merchantId: Option<string>)

  const KINDS := {"p2p", "merchant", "request"}

  /** JavaScript's `x || undefined` for strings. */
  function Truthy(x: Option<string>): Option<string> {
    if x == Some("") then None else x
  }

  function TrimmedText(x: Option<string>): Option<string> {
    match x case None => None case Some(v) => Truthy(Some(Trim(v)))
  }

  function WithoutAt(s: string): string {
    if s != "" && s[0] == '@' then s[1..] else s
  }

  function BuildPayPayload(input: Input): PayPayload {
    PayPayload(WithoutAt(input.to), input.displayName, TrimmedText(input.amount), OrElse(input.currency, "GHS"),
               TrimmedText(input.note), Some(OrElse(input.kind, "p2p")), input.merchantId)
  }

  /** One parameter, present only when its value is truthy. */
  function Field(name: string, value: Option<string>): seq<Pair> {
    match Truthy(value) case None => [] case Some(v) => [(name, v)]
  }

  function DeepLinkPairs(p: PayPayload): seq<Pair> {
    [] + [("v", "1")] + [("to", p.to)] + Field("name", p.displayName) + Field("amount", p.amount)
    + [("ccy", p.currency)] + Field("note", p.note) + Field("kind", p.kind) + Field("mid", p.merchantId)
  }

  function HttpsPairs(p: PayPayload): seq<Pair> {
    [] + Field("amount", p.amount) + Field("note", p.note) + [("ccy", p.currency)] + Field("kind", p.kind)
  }

  const SCHEME := "ephera://"
  const DEEP := "ephera://pay"
  const HOST := "https://pay.ephera.money/"

  /** The URLSearchParams object the two link builders fill in place. */
  class SearchParams {
    var pairs: seq<Pair>

    constructor ()
      ensures pairs == []
    {
      pairs := [];
    }

    /** Set replaces the first entry of that name and drops the others, or appends a new one. */
    method Set(name: string, value: string)
      modifies this
      ensures pairs == if Get(old(pairs), name).Some? then Reset(old(pairs), name, value)
                       else old(pairs) + [(name, value)]
    {
      pairs := if Get(pairs, name).Some? then Reset(pairs, name, value) else pairs + [(name, value)];
    }
  }

  function Without(pairs: seq<Pair>, name: string): seq<Pair> {
    if pairs == [] then []
    else (if pairs[0].0 == name then [] else [pairs[0]]) + Without(pairs[1..], name)
  }

  function Reset(pairs: seq<Pair>, name: string, value: string): seq<Pair> {
    if pairs == [] then []
    else if pairs[0].0 == name then [(name, value)] + Without(pairs[1..], name)
    else [pairs[0]] + Reset(pairs[1..], name, value)
  }

  lemma {:induction false} GetConcat(x: seq<Pair>, y: seq<Pair>, name: string)
    ensures Get(x + y, name) == if Get(x, name).Some? then Get(x, name) else Get(y, name)
  {
    if x == [] {
      assert x + y == y;
    } else {
      GetConcat(x[1..], y, name);
      assert (x + y)[1..] == x[1..] + y;
    }
  }

  lemma GetOne(name: string, value: string, other: string)
    ensures Get([(name, value)], other) == if other == name then Some(value) else None
  {
  }

  /** Tells the parameter names apart. */
  function Tag(name: string): nat {
    if |name| < 2 then 0
    else if name[0] == 't' then 1
    else if name[0] == 'n' && name[1] == 'a' then 2
    else if name[0] == 'a' then 3
    else if name[0] == 'c' then 4
    else if name[0] == 'n' then 5
    else if name[0] == 'k' then 6
    else 7
  }

  ghost predicate Uses(pairs: seq<Pair>, tags: set<nat>) {
    forall i :: 0 <= i < |pairs| ==> Tag(pairs[i].0) in tags
  }

  lemma {:induction false} NotUsed(pairs: seq<Pair>, tags: set<nat>, name: string)
    requires Uses(pairs, tags) && Tag(name) !in tags
    ensures Get(pairs, name).None?
  {
    if pairs != [] {
      assert Tag(pairs[0].0) in tags;
      NotUsed(pairs[1..], tags, name);
    }
  }

  method Append(q: SearchParams, name: string, value: string, ghost tags: set<nat>)
    requires Uses(q.pairs, tags) && Tag(name) !in tags
    modifies q
    ensures q.pairs == old(q.pairs) + [(name, value)] && Uses(q.pairs, tags + {Tag(name)})
  {
    NotUsed(q.pairs, tags, name);
    q.Set(name, value);
  }

  /** if (value) q.set(name, value) */
  method AppendIfTruthy(q: SearchParams, name: string, value: Option<string>, ghost tags: set<nat>)
    requires Uses(q.pairs, tags) && Tag(name) !in tags
    modifies q
    ensures q.pairs == old(q.pairs) + Field(name, value) && Uses(q.pairs, tags + {Tag(name)})
  {
    if value.Some? && value.value != "" {
      Append(q, name, value.value, tags);
    }
  }

  method ToDeepLink(p: PayPayload) returns (link: string)
    ensures link == DeepLink(p)
  {
    var q := new SearchParams();
    Append(q, "v", "1", {});
    Append(q, "to", p.to, {0});
    AppendIfTruthy(q, "name", p.displayName, {0, 1});
    AppendIfTruthy(q, "amount", p.amount, {0, 1, 2});
    Append(q, "ccy", p.currency, {0, 1, 2, 3});
    AppendIfTruthy(q, "note", p.note, {0, 1, 2, 3, 4});
    AppendIfTruthy(q, "kind", p.kind, {0, 1, 2, 3, 4, 5});
    AppendIfTruthy(q, "mid", p.merchantId, {0, 1, 2, 3, 4, 5, 6});
    assert q.pairs == DeepLinkPairs(p);
    link := SCHEME + "pay" + "?" + Serialize(q.pairs);
  }

  method ToHttpsLink(p: PayPayload) returns (link: string)
    ensures link == HttpsLink(p)
  {
    var q := new SearchParams();
    AppendIfTruthy(q, "amount", p.amount, {});
    AppendIfTruthy(q, "note", p.note, {3});
    Append(q, "ccy", p.currency, {3, 5});
    AppendIfTruthy(q, "kind", p.kind, {3, 5, 4});
    assert q.pairs == HttpsPairs(p);
    link := HOST + LinkPath(p.to) + "?" + Serialize(q.pairs);
  }

  function DeepLink(p: PayPayload): string {
    SCHEME + "pay" + "?" + Serialize(DeepLinkPairs(p))
  }

  function HttpsLink(p: PayPayload): string {
    HOST + LinkPath(p.to) + "?" + Serialize(HttpsPairs(p))
  }

  // ----- parsing -----

  /** NotModelled: a JSON document, or a URL whose scheme or host is written in another way. */
  datatype Parsed = Payload(payload: PayPayload) | Null | NotModelled

  predicate StartsWith(s: string, prefix: string) {
    prefix <= s
  }

  predicate Includes(s: string, part: string) {
    exists i :: 0 <= i <= |s| && part <= s[i..]
  }

  function FromQuery(to: string, q: seq<Pair>, displayName: Option<string>, merchantId: Option<string>): PayPayload {
    PayPayload(to, displayName, Get(q, "amount"), OrElse(Get(q, "ccy"), "GHS"), Get(q, "note"),
               Some(OrElse(Get(q, "kind"), "p2p")), merchantId)
  }

  function ParseDeep(text: string): Parsed
    requires StartsWith(text, DEEP)
  {
    var q := ParseQuery(QueryOf(Cleaned(text[|SCHEME|..])));
    match Get(q, "to")
    case None => Null
    case Some(to) => if to == "" then Null else Payload(FromQuery(to, q, Get(q, "name"), Get(q, "mid")))
  }

  function ParseHttps(text: string): Parsed
    requires StartsWith(text, HOST)
  {
    var rest := Cleaned(text[|HOST|..]);
    var parts := PathParts(PathOf(rest));
    if parts == [] then Null
    else
      match DecodeComponent(parts[|parts| - 1])
      case None => Null
      case Some(to) => Payload(FromQuery(to, ParseQuery(QueryOf(rest)), None, None))
  }

  predicate WordChar(c: char) {
    Alphanumeric(c as int) || c == '_'
  }

  /** A bare handle: an optional '@', then 2 to 32 word characters or dots. */
  predicate Handle(text: string) {
    var h := WithoutAt(text);
    2 <= |h| <= 32 && forall c :: c in h ==> WordChar(c) || c == '.'
  }

  function ParsePayPayload(raw: string): Parsed {
    var text := Trim(raw);
    if text == "" then Null
    else if StartsWith(text, DEEP) then ParseDeep(text)
    else if Includes(text, "pay.ephera.money") then
      if StartsWith(text, HOST) then ParseHttps(text) else NotModelled
    else if StartsWith(text, "{") then NotModelled
    else if Handle(text) then Payload(PayPayload(WithoutAt(text), None, None, "GHS", None, Some("p2p"), None))
    else Null
  }

  // ----- round trips -----

  lemma DeepLinkFields(p: PayPayload, n: string)
    ensures Get(DeepLinkPairs(p), n) == DeepLinkField(p, n)
  {
    var a, b, c, d := [("v", "1")], [("to", p.to)], Field("name", p.displayName), Field("amount", p.amount);
    var e, f, g, h := [("ccy", p.currency)], Field("note", p.note), Field("kind", p.kind), Field("mid", p.merchantId);
    GetConcat([], a, n);
    GetConcat([] + a, b, n);
    GetConcat([] + a + b, c, n);
    GetConcat([] + a + b + c, d, n);
    GetConcat([] + a + b + c + d, e, n);
    GetConcat([] + a + b + c + d + e, f, n);
    GetConcat([] + a + b + c + d + e + f, g, n);
    GetConcat([] + a + b + c + d + e + f + g, h, n);
    GetOne("v", "1", n);
    GetOne("to", p.to, n);
    GetOne("ccy", p.currency, n);
  }

  function DeepLinkField(p: PayPayload, n: string): Option<string> {
    if n == "v" then Some("1")
    else if n == "to" then Some(p.to)
    else if n == "name" then Truthy(p.displayName)
    else if n == "amount" then Truthy(p.amount)
    else if n == "ccy" then Some(p.currency)
    else if n == "note" then Truthy(p.note)
    else if n == "kind" then Truthy(p.kind)
    else if n == "mid" then Truthy(p.merchantId)
    else None
  }

  function HttpsField(p: PayPayload, n: string): Option<string> {
    if n == "amount" then Truthy(p.amount)
    else if n == "note" then Truthy(p.note)
    else if n == "ccy" then Some(p.currency)
    else if n == "kind" then Truthy(p.kind)
    else None
  }

  lemma HttpsFields(p: PayPayload, n: string)
    ensures Get(HttpsPairs(p), n) == HttpsField(p, n)
  {
    var a, b, c, d := Field("amount", p.amount), Field("note", p.note), [("ccy", p.currency)], Field("kind", p.kind);
    GetConcat([], a, n);
    GetConcat([] + a, b, n);
    GetConcat([] + a + b, c, n);
    GetConcat([] + a + b + c, d, n);
    GetOne("ccy", p.currency, n);
  }

  /** Characters that neither trimming nor the URL parser treats specially in a query. */
  predicate PlainChar(c: char) {
    33 <= c as int <= 126 && c != '#'
  }

  ghost predicate Plain(s: string) {
    forall i :: 0 <= i < |s| ==> PlainChar(s[i])
  }

  lemma PlainText(s: string)
    requires Plain(s)
    ensures Trim(s) == s && Cleaned(s) == s && '#' !in s
  {
    TrimGives(s);
    NoTabs(s);
  }

  lemma QueryCharIsPlain(c: char)
    requires QueryChar(c)
    ensures PlainChar(c)
  {
  }

  lemma PathCharIsPlain(c: char)
    requires PathChar(c)
    ensures PlainChar(c) && c != '/' && c != '\\' && c != '?'
  {
  }

  lemma PlainQuery(pairs: seq<Pair>)
    ensures Plain(Serialize(pairs))
  {
    QueryCharsOnly(pairs);
    var s := Serialize(pairs);
    forall i | 0 <= i < |s| ensures PlainChar(s[i]) {
      assert s[i] in s;
      QueryCharIsPlain(s[i]);
    }
  }

  lemma PlainName(to: string)
    ensures Plain(EncodeComponent(to)) && '/' !in EncodeComponent(to) && '\\' !in EncodeComponent(to)
    ensures '?' !in EncodeComponent(to)
  {
    PathCharsOnly(Utf8.Encode(to));
    var s := EncodeComponent(to);
    forall i | 0 <= i < |s| ensures PlainChar(s[i]) && s[i] != '/' && s[i] != '\\' && s[i] != '?' {
      assert s[i] in s;
      PathCharIsPlain(s[i]);
    }
  }

  lemma PlainConcat(a: string, b: string)
    requires Plain(a) && Plain(b)
    ensures Plain(a + b)
  {
  }

  /** A link without special characters comes apart into the pieces it was made of. */
  lemma LinkParts(prefix: string, path: string, query: string)
    requires Plain(prefix) && Plain(path) && Plain(query) && '?' !in path
    ensures var link := prefix + path + "?" + query; var rest := Cleaned(link[|prefix|..]);
      Trim(link) == link && PathOf(rest) == path && QueryOf(rest) == query
  {
    var link, rest := prefix + path + "?" + query, path + ['?'] + query;
    assert link[|prefix|..] == rest;
    PlainConcat(path, ['?']);
    PlainConcat(path + ['?'], query);
    PlainConcat(prefix, rest);
    assert link == prefix + rest;
    PlainText(link);
    PlainText(rest);
    NoHash(rest);
    BreakFinds(path, '?', query);
  }

  lemma NoHash(s: string)
    requires '#' !in s
    ensures Break(s, '#').0 == s
  {
    BreakFinds(s, '#', "");
  }

  /** What every built payload has: no empty amount or note, and a kind. */
  lemma Built(input: Input)
    requires input.kind.Some? ==> input.kind.value in KINDS
    ensures var p := BuildPayPayload(input);
      && Truthy(p.amount) == p.amount && Truthy(p.note) == p.note
      && p.kind.Some? && Truthy(p.kind) == p.kind
  {
  }

  /** parsePayPayload(toDeepLink(p)) == p for a built payload, exactly when the recipient is not
      empty and an empty display name or merchant ID is left out rather than given as "". */
  lemma DeepLinkRoundTrip(input: Input)
    requires input.kind.Some? ==> input.kind.value in KINDS
    ensures var p := BuildPayPayload(input);
      ParsePayPayload(DeepLink(p)) == Payload(p) <==>
        p.to != "" && p.displayName != Some("") && p.merchantId != Some("")
  {
    Built(input);
    DeepLinkParses(BuildPayPayload(input));
  }

  lemma DeepLinkParses(p: PayPayload)
    ensures ParsePayPayload(DeepLink(p)) ==
      if p.to == "" then Null
      else Payload(PayPayload(p.to, Truthy(p.displayName), Truthy(p.amount), p.currency, Truthy(p.note),
                              Some(OrElse(Truthy(p.kind), "p2p")), Truthy(p.merchantId)))
  {
    DeepLinkQuery(p);
    DeepLinkFields(p, "to");
    DeepLinkPayload(p);
  }

  lemma DeepLinkPayload(p: PayPayload)
    ensures var q := DeepLinkPairs(p);
      FromQuery(p.to, q, Get(q, "name"), Get(q, "mid"))
      == PayPayload(p.to, Truthy(p.displayName), Truthy(p.amount), p.currency, Truthy(p.note),
                    Some(OrElse(Truthy(p.kind), "p2p")), Truthy(p.merchantId))
  {
    DeepLinkFields(p, "name");
    DeepLinkFields(p, "amount");
    DeepLinkFields(p, "ccy");
    DeepLinkFields(p, "note");
    DeepLinkFields(p, "kind");
    DeepLinkFields(p, "mid");
  }

  lemma DeepLinkQuery(p: PayPayload)
    ensures var link := DeepLink(p);
      && Trim(link) == link && link != "" && StartsWith(link, DEEP)
      && ParseQuery(QueryOf(Cleaned(link[|SCHEME|..]))) == DeepLinkPairs(p)
  {
    PlainQuery(DeepLinkPairs(p));
    DeepPrefix(Serialize(DeepLinkPairs(p)));
    LinkParts(SCHEME, "pay", Serialize(DeepLinkPairs(p)));
    QueryRoundTrip(DeepLinkPairs(p));
  }

  lemma DeepPrefix(query: string)
    ensures Plain(SCHEME) && Plain("pay") && '?' !in "pay"
    ensures var link := SCHEME + "pay" + "?" + query; link != "" && StartsWith(link, DEEP)
  {
    assert SCHEME + "pay" == DEEP;
  }

  /** For https links the payload comes back without display name and merchant ID, exactly when the
      recipient is not one of the names the URL parser takes for path navigation. */
  lemma HttpsLinkRoundTrip(input: Input)
    requires input.kind.Some? ==> input.kind.value in KINDS
    ensures var p := BuildPayPayload(input);
      ParsePayPayload(HttpsLink(p)) == Payload(p.(displayName := None, merchantId := None)) <==>
        p.to !in {"", ".", ".."}
  {
    Built(input);
    HttpsLinkParses(BuildPayPayload(input));
  }

  lemma HttpsLinkParses(p: PayPayload)
    ensures ParsePayPayload(HttpsLink(p)) ==
      match Recipient(p.to)
      case None => Null
      case Some(to) => Payload(PayPayload(to, None, Truthy(p.amount), p.currency, Truthy(p.note),
                                          Some(OrElse(Truthy(p.kind), "p2p")), None))
  {
    HttpsLinkShape(p);
    HttpsLinkParts(p);
    QueryRoundTrip(HttpsPairs(p));
    RecipientPart(p.to);
    if Recipient(p.to).Some? {
      HttpsPayload(p, Recipient(p.to).value);
    }
  }

  lemma HttpsPayload(p: PayPayload, to: string)
    ensures FromQuery(to, HttpsPairs(p), None, None)
      == PayPayload(to, None, Truthy(p.amount), p.currency, Truthy(p.note), Some(OrElse(Truthy(p.kind), "p2p")), None)
  {
    HttpsFields(p, "amount");
    HttpsFields(p, "ccy");
    HttpsFields(p, "note");
    HttpsFields(p, "kind");
  }

  /** A link to "." asks to pay "r", and a link to ".." cannot be read at all. */
  lemma DotRecipients(currency: string)
    ensures ParsePayPayload(HttpsLink(PayPayload(".", None, None, currency, None, Some("p2p"), None)))
         == Payload(PayPayload("r", None, None, currency, None, Some("p2p"), None))
    ensures ParsePayPayload(HttpsLink(PayPayload("..", None, None, currency, None, Some("p2p"), None))) == Null
  {
    HttpsLinkParses(PayPayload(".", None, None, currency, None, Some("p2p"), None));
    HttpsLinkParses(PayPayload("..", None, None, currency, None, Some("p2p"), None));
  }

  /** An empty display name is not written, and comes back as no display name. */
  lemma EmptyNameIsDropped(currency: string)
    ensures ParsePayPayload(DeepLink(PayPayload("ama", Some(""), None, currency, None, Some("p2p"), None)))
         == Payload(PayPayload("ama", None, None, currency, None, Some("p2p"), None))
  {
    DeepLinkParses(PayPayload("ama", Some(""), None, currency, None, Some("p2p"), None));
  }

  lemma HttpsLinkShape(p: PayPayload)
    ensures var link := HttpsLink(p);
      && Trim(link) == link && link != "" && StartsWith(link, HOST) && !StartsWith(link, DEEP)
      && Includes(link, "pay.ephera.money")
  {
    HttpsLinkParts(p);
    var rest := LinkPath(p.to) + "?" + Serialize(HttpsPairs(p));
    Regroup(HOST, LinkPath(p.to), "?", Serialize(HttpsPairs(p)));
    HostIsIncluded(rest);
  }

  lemma Regroup(a: string, b: string, c: string, d: string)
    ensures a + b + c + d == a + (b + c + d)
  {
  }

  function LinkPath(to: string): string {
    "r/" + EncodeComponent(to)
  }

  lemma HostIsIncluded(rest: string)
    ensures StartsWith(HOST + rest, HOST) && !StartsWith(HOST + rest, DEEP)
    ensures Includes(HOST + rest, "pay.ephera.money")
  {
    var link := HOST + rest;
    assert link[0] == 'h' && DEEP[0] == 'e';
    assert link[8..] == HOST[8..] + rest;
    assert "pay.ephera.money" <= HOST[8..];
  }

  lemma HttpsLinkParts(p: PayPayload)
    ensures var link := HttpsLink(p); var rest := Cleaned(link[|HOST|..]);
      && Trim(link) == link && PathOf(rest) == LinkPath(p.to) && QueryOf(rest) == Serialize(HttpsPairs(p))
  {
    PlainQuery(HttpsPairs(p));
    PlainPath(p.to);
    PlainHost();
    LinkParts(HOST, LinkPath(p.to), Serialize(HttpsPairs(p)));
  }

  lemma PlainHost()
    ensures Plain(HOST)
  {
  }

  lemma PlainPath(to: string)
    ensures Plain(LinkPath(to)) && '?' !in LinkPath(to)
  {
    PlainName(to);
    PlainConcat("r/", EncodeComponent(to));
  }

  /** The recipient a parsed link names, if any. */
  function Recipient(to: string): Option<string> {
    if to == ".." then None else if to == "" || to == "." then Some("r") else Some(to)
  }

  function NamedBy(parts: seq<string>): Option<string> {
    if parts == [] then None else DecodeComponent(parts[|parts| - 1])
  }

  /** The last path segment of a link. */
  lemma RecipientPart(to: string)
    ensures var parts := PathParts(LinkPath(to));
      NamedBy(parts) == Recipient(to) && (parts == [] <==> to == "..")
  {
    PlainName(to);
    LinkSegments(EncodeComponent(to));
    PlainLetter();
    ComponentRoundTrip(to);
    DotsOnlyFromDots(to);
  }

  lemma PlainLetter()
    ensures DecodeComponent("r") == Some("r")
  {
    assert "r"[1..] == "" && DecodeComponent("") == Some("");
    assert "r" + "" == "r";
  }

  lemma LinkSegments(name: string)
    requires '/' !in name && '\\' !in name
    ensures PathParts("r/" + name) ==
      if DoubleDot(name) then [] else if SingleDot(name) || name == "" then ["r"] else ["r", name]
  {
    var path := "r/" + name;
    assert Replaced(path) == path;
    BreakFinds("r", '/', name);
    assert path == "r" + ['/'] + name;
    assert SegmentsOf(path) == ["r"] + SegmentsOf(name) && SegmentsOf(name) == [name];
    assert ["r"] + [name] == ["r", name];
    assert !DoubleDot("r");
    ResolveTwo("r", name);
    NonEmptyTwo("r", name);
    NonEmptyTwo("r", "");
    assert NonEmpty([""]) == NonEmpty([""][1..]);
  }

  lemma NonEmptyTwo(first: string, name: string)
    requires first != ""
    ensures NonEmpty([first, name]) == if name == "" then [first] else [first, name]
  {
    assert [first, name][1..] == [name] && [name][1..] == [];
    assert NonEmpty([name]) == if name == "" then [] else [name];
  }

  lemma ResolveTwo(first: string, name: string)
    requires !SingleDot(first) && !DoubleDot(first)
    ensures Resolve([first, name], []) ==
      if DoubleDot(name) then [""] else if SingleDot(name) then [first, ""] else [first, name]
  {
    var segments := [first, name];
    assert segments[1..] == [name] && [name][1..] == [];
    assert [] + [first] == [first];
    assert Resolve(segments, []) == Resolve([name], [first]);
  }

  /** A segment the URL parser takes for navigation spells one or two dots. */
  lemma DotSegments(name: string)
    ensures SingleDot(name) ==> DecodeComponent(name) == Some(".")
    ensures DoubleDot(name) ==> DecodeComponent(name) == Some("..")
  {
    assert DecodeComponent("") == Some("");
    if SingleDot(name) {
      assert name + "" == name && "." + "" == ".";
      DotDecodes(name, "");
    }
    if DoubleDot(name) {
      var i :| 0 <= i <= |name| && SingleDot(name[..i]) && SingleDot(name[i..]);
      TwoDots(name[..i], name[i..]);
      assert name[..i] + name[i..] == name;
    }
  }

  lemma TwoDots(first: string, second: string)
    requires SingleDot(first) && SingleDot(second)
    ensures DecodeComponent(first + second) == Some("..")
  {
    assert second + "" == second && "." + "" == "." && "." + "." == "..";
    DotDecodes(second, "");
    DotDecodes(first, second);
  }

  /** Encoding never produces a dot segment except from "." and "..". */
  lemma DotsOnlyFromDots(to: string)
    ensures SingleDot(EncodeComponent(to)) <==> to == "."
    ensures DoubleDot(EncodeComponent(to)) <==> to == ".."
    ensures EncodeComponent(to) == "" <==> to == ""
  {
    ComponentRoundTrip(to);
    DotSegments(EncodeComponent(to));
    DotEncodes();
    assert ".."[..1] == "." && ".."[1..] == ".";
  }

  lemma DotEncodes()
    ensures EncodeComponent(".") == "." && EncodeComponent("..") == ".."
  {
    var one := Utf8.EncodeChar('.');
    assert one == [46] && one[1..] == [];
    assert "."[1..] == "" && Utf8.Encode(".") == one + Utf8.Encode("") == one;
    assert ".."[1..] == "." && Utf8.Encode("..") == one + one;
    ComponentConcat(one, one);
    assert ComponentBytes(one) == ComponentByte(46) + ComponentBytes([]) == ".";
  }

  lemma DotDecodes(dot: string, tail: string)
    requires SingleDot(dot) && DecodeComponent(tail).Some?
    ensures DecodeComponent(dot + tail) == Some("." + DecodeComponent(tail).value)
  {
    var s := dot + tail;
    if dot == "." {
      assert s[1..] == tail;
    } else {
      assert s[0] == '%' && s[3..] == tail;
      assert Escaped(s) == Some(46);
      var none: seq<Byte> := [];
      assert EscapedRun(s[3..], 0) == Some(none) && [46] + none == [46];
      assert EscapedRun(s, 1) == Some([46]);
    }
  }
}
