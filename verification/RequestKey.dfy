/** Cache keys (src/openopps/cache.py, `cache_key`, `_request_identity_hash`, `_normalize_url`).

    Query text is handled byte-wise: a string of characters below U+0100, one per byte. */
module RequestKey {
  import opened Hashing
  import opened Orders
  import opened Wrappers
  import Text

  const CACHE_SCHEMA_VERSION := "v2"
  const INCLUDED_HEADERS: set<string> :=
    {"accept", "content-type", "origin", "referer", "authorization", "cookie", "proxy-authorization", "x-api-key",
      "x-auth-token"}

  datatype Pair = Pair(name: string, value: string)

  predicate ByteString(s: string) { forall i | 0 <= i < |s| :: s[i] < '\U{100}' }

  predicate BytePairs(ps: seq<Pair>) {
    forall i | 0 <= i < |ps| :: ByteString(ps[i].name) && ByteString(ps[i].value)
  }

  // ---- quote_plus and unquote ----

  predicate Unreserved(c: char) {
    'A' <= c <= 'Z' || 'a' <= c <= 'z' || '0' <= c <= '9' || c in {'_', '.', '-', '~'}
  }

  function HexDigit(n: int): char
    requires 0 <= n < 16
  {
    if n < 10 then ('0' as int + n) as char else ('A' as int + n - 10) as char
  }

  function HexValue(c: char): Option<int> {
    if '0' <= c <= '9' then Some(c as int - '0' as int)
    else if 'A' <= c <= 'F' then Some(c as int - 'A' as int + 10)
    else if 'a' <= c <= 'f' then Some(c as int - 'a' as int + 10)
    else None
  }

  lemma HexDigitValue(n: int)
    requires 0 <= n < 16
    ensures HexValue(HexDigit(n)) == Some(n)
    ensures HexDigit(n) != '+' && HexDigit(n) != '%' && HexDigit(n) != '&' && HexDigit(n) != '='
  {
  }

  function QuoteByte(c: char): string
    requires c < '\U{100}'
  {
    if Unreserved(c) then [c]
    else if c == ' ' then "+"
    else ['%', HexDigit(c as int / 16), HexDigit(c as int % 16)]
  }

  /** `quote_plus`. */
  function Quote(s: string): string
    requires ByteString(s)
  {
    if s == [] then [] else QuoteByte(s[0]) + Quote(s[1..])
  }

  /** `unquote(s.replace("+", " "))`. */
  function Unquote(s: string): string {
    if s == [] then []
    else if s[0] == '+' then " " + Unquote(s[1..])
    else if s[0] == '%' && |s| >= 3 && HexValue(s[1]).Some? && HexValue(s[2]).Some? then
      [(16 * HexValue(s[1]).value + HexValue(s[2]).value) as char] + Unquote(s[3..])
    else [s[0]] + Unquote(s[1..])
  }

  lemma UnquoteByte(c: char, rest: string)
    requires c < '\U{100}'
    ensures Unquote(QuoteByte(c) + rest) == [c] + Unquote(rest)
  {
    var s := QuoteByte(c) + rest;
    if Unreserved(c) || c == ' ' {
      assert s[1..] == rest;
    } else {
      HexDigitValue(c as int / 16);
      HexDigitValue(c as int % 16);
      assert s[3..] == rest;
      assert 16 * (c as int / 16) + c as int % 16 == c as int;
    }
  }

  lemma {:induction false} UnquoteUndoesQuote(s: string)
    requires ByteString(s)
    ensures Unquote(Quote(s)) == s
  {
    if s != [] {
      UnquoteByte(s[0], Quote(s[1..]));
      UnquoteUndoesQuote(s[1..]);
    }
  }

  lemma {:induction false} QuotedIsPlain(s: string)
    requires ByteString(s)
    ensures '&' !in Quote(s) && '=' !in Quote(s)
  {
    if s != [] {
      QuotedIsPlain(s[1..]);
      HexDigitValue(s[0] as int / 16);
      HexDigitValue(s[0] as int % 16);
    }
  }

  // ---- urlencode and parse_qsl ----

  function Piece(p: Pair): string
    requires ByteString(p.name) && ByteString(p.value)
  {
    Quote(p.name) + "=" + Quote(p.value)
  }

  function Pieces(ps: seq<Pair>): seq<string>
    requires BytePairs(ps)
  {
    seq(|ps|, i requires 0 <= i < |ps| => Piece(ps[i]))
  }

  function UrlEncode(ps: seq<Pair>): string
    requires BytePairs(ps)
  {
    Text.Join('&', Pieces(ps))
  }

  /** `name, _, value = piece.partition("=")`. */
  function PairOf(piece: string): Pair {
    var parts := Text.Split('=', piece);
    Pair(Unquote(parts[0]), Unquote(Text.Join('=', parts[1..])))
  }

  function PairsOf(pieces: seq<string>): seq<Pair> {
    if pieces == [] then []
    else (if pieces[0] == "" then [] else [PairOf(pieces[0])]) + PairsOf(pieces[1..])
  }

  /** `parse_qsl(query, keep_blank_values=True)`. */
  function ParseQsl(query: string): seq<Pair> { PairsOf(Text.Split('&', query)) }

  lemma PieceReads(p: Pair)
    requires ByteString(p.name) && ByteString(p.value)
    ensures PairOf(Piece(p)) == p && Piece(p) != "" && '&' !in Piece(p)
  {
    QuotedIsPlain(p.name);
    QuotedIsPlain(p.value);
    UnquoteUndoesQuote(p.name);
    UnquoteUndoesQuote(p.value);
    Text.SplitAtSeparator('=', Quote(p.name), Quote(p.value));
    Text.SplitWithoutSeparator('=', Quote(p.value));
    assert Piece(p) == Quote(p.name) + ['='] + Quote(p.value);
    assert ([Quote(p.name)] + [Quote(p.value)])[1..] == [Quote(p.value)];
  }

  lemma PiecesCons(ps: seq<Pair>)
    requires BytePairs(ps) && ps != []
    ensures BytePairs(ps[1..]) && Pieces(ps) == [Piece(ps[0])] + Pieces(ps[1..])
  {
    hide Piece, ByteString;
    var rest := ps[1..];
    assert forall i | 0 <= i < |rest| :: rest[i] == ps[i + 1];
  }

  lemma PairsOfCons(first: string, rest: seq<string>)
    ensures PairsOf([first] + rest) == (if first == "" then [] else [PairOf(first)]) + PairsOf(rest)
  {
    hide PairOf;
    assert ([first] + rest)[1..] == rest;
  }

  lemma {:induction false} PiecesRead(ps: seq<Pair>)
    requires BytePairs(ps)
    ensures PairsOf(Pieces(ps)) == ps && Text.Free('&', Pieces(ps))
  {
    if ps != [] {
      PieceReads(ps[0]);
      PiecesCons(ps);
      PiecesRead(ps[1..]);
      hide Piece, PairOf, ByteString, Pieces, BytePairs;
      PairsOfCons(Piece(ps[0]), Pieces(ps[1..]));
      assert ps == [ps[0]] + ps[1..];
    }
  }

  /** Parsing an encoded query gives back its pairs, blank values and all. */
  lemma ParseUndoesEncode(ps: seq<Pair>)
    requires BytePairs(ps)
    ensures ParseQsl(UrlEncode(ps)) == ps
  {
    PiecesRead(ps);
    if ps != [] {
      Text.SplitUndoesJoin('&', Pieces(ps));
    } else {
      assert Text.Split('&', "") == [""];
      assert PairsOf([""]) == PairsOf([""][1..]);
    }
  }

  // ---- Requests ----

  datatype ParamValue = Null | One(text: string) | Many(texts: seq<string>)

  datatype Param = Param(name: string, value: ParamValue)

  /** A URL as `urlsplit` presents it. */
  datatype Url = Url(scheme: string, userinfo: Option<string>, host: string, port: Option<nat>, path: string,
      query: string)

  datatype Header = Header(name: string, value: string)

  /** `json` and `identity` are the canonical texts of the JSON body and the caller's identity. */
  datatype Request = Request(verb: string, url: Url, params: seq<Param>, json: string, headers: seq<Header>,
      identity: string)

  function UpperChar(c: char): char { if 'a' <= c <= 'z' then (c as int - 32) as char else c }

  function Upper(s: string): string { seq(|s|, i requires 0 <= i < |s| => UpperChar(s[i])) }

  predicate PairLeq(a: Pair, b: Pair) {
    if a.name == b.name then StringLeq(a.value, b.value) else StringLeq(a.name, b.name)
  }

  lemma PairOrder()
    ensures TotalOrder(PairLeq)
  {
    StringOrder();
  }

  function ParamPairs(params: seq<Param>): seq<Pair> {
    if params == [] then []
    else
      (match params[0].value
       case Null => []
       case One(text) => [Pair(params[0].name, text)]
       case Many(texts) => seq(|texts|, i requires 0 <= i < |texts| => Pair(params[0].name, texts[i]))) +
      ParamPairs(params[1..])
  }

  function QueryPairs(r: Request): seq<Pair> { ParseQsl(r.url.query) + ParamPairs(r.params) }

  function DefaultPort(scheme: string): Option<nat> {
    if scheme == "http" then Some(80) else if scheme == "https" then Some(443) else None
  }

  predicate HeaderLeq(a: Header, b: Header) {
    if a.name == b.name then StringLeq(a.value, b.value) else StringLeq(a.name, b.name)
  }

  lemma HeaderOrder()
    ensures TotalOrder(HeaderLeq)
  {
    StringOrder();
  }

  /** `_request_headers_for_identity`: sorted items, lower-cased names, later entries win. */
  function HeaderMap(sorted: seq<Header>): map<string, string> {
    if sorted == [] then map[]
    else
      var h := sorted[|sorted| - 1];
      var before := HeaderMap(sorted[..|sorted| - 1]);
      if Text.Lower(h.name) in INCLUDED_HEADERS then before[Text.Lower(h.name) := h.value] else before
  }

  /** A request up to everything the cache ignores: the query is its sorted pairs. */
  datatype Normal = Normal(verb: string, scheme: string, userinfo: Option<string>, host: string, port: Option<nat>,
    path: string, query: seq<Pair>, json: string, headers: map<string, string>, identity: string)

  function Normalise(r: Request): Normal {
    var scheme := Text.Lower(r.url.scheme);
    Normal(Upper(r.verb), scheme, r.url.userinfo, Text.Lower(r.url.host),
           if r.url.port.Some? && r.url.port == DefaultPort(scheme) then None else r.url.port,
           if r.url.path == "" then "/" else r.url.path,
           Sort(PairLeq, QueryPairs(r)), r.json, HeaderMap(Sort(HeaderLeq, r.headers)), r.identity)
  }

  /** What is hashed: the query has become text. */
  datatype Material = Material(verb: string, scheme: string, userinfo: Option<string>, host: string, port: Option<nat>,
    path: string, query: string, json: string, headers: map<string, string>, identity: string)

  datatype KeyMaterial = KeyMaterial(schema: string, namespace: string, requestIdentity: Digest<Material>)

  type Key = Digest<KeyMaterial>

  /** A place in the cache: a namespace and a normalised request. */
  datatype Slot = Slot(namespace: string, request: Normal)

  predicate SlotOk(slot: Slot) { BytePairs(slot.request.query) }

  function MaterialOf(n: Normal): Material
    requires BytePairs(n.query)
  {
    Material(n.verb, n.scheme, n.userinfo, n.host, n.port, n.path, UrlEncode(n.query), n.json, n.headers, n.identity)
  }

  function KeyOf(slot: Slot): Key
    requires SlotOk(slot)
  {
    Sha256(KeyMaterial(CACHE_SCHEMA_VERSION, slot.namespace, Sha256(MaterialOf(slot.request))))
  }

  predicate RequestOk(r: Request) { BytePairs(QueryPairs(r)) }

  function SlotOf(namespace: string, r: Request): Slot { Slot(namespace, Normalise(r)) }

  lemma SortedBytePairs(r: Request)
    requires RequestOk(r)
    ensures BytePairs(Sort(PairLeq, QueryPairs(r)))
  {
    PairOrder();
    SortSorts(PairLeq, QueryPairs(r));
    var sorted := Sort(PairLeq, QueryPairs(r));
    forall i | 0 <= i < |sorted| ensures ByteString(sorted[i].name) && ByteString(sorted[i].value) {
      assert sorted[i] in multiset(sorted);
      assert sorted[i] in QueryPairs(r);
    }
  }

  /** `cache_key`. */
  function CacheKey(namespace: string, r: Request): Key
    requires RequestOk(r)
  {
    SortedBytePairs(r);
    KeyOf(SlotOf(namespace, r))
  }

  /** The slot a key was made from. */
  function SlotOfKey(k: Key): Slot {
    var m := k.preimage.requestIdentity.preimage;
    Slot(k.preimage.namespace,
         Normal(m.verb, m.scheme, m.userinfo, m.host, m.port, m.path, ParseQsl(m.query), m.json, m.headers, m.identity))
  }

  /** Different slots never share a key. */
  lemma KeyDeterminesSlot(slot: Slot)
    requires SlotOk(slot)
    ensures SlotOfKey(KeyOf(slot)) == slot
  {
    ParseUndoesEncode(slot.request.query);
  }

  /** The key sees only the bag of query pairs and the bag of headers. */
  lemma KeySeesBags(namespace: string, a: Request, b: Request)
    requires RequestOk(a) && RequestOk(b)
    requires multiset(QueryPairs(a)) == multiset(QueryPairs(b)) && multiset(a.headers) == multiset(b.headers)
    requires b == a.(url := a.url.(query := b.url.query), params := b.params, headers := b.headers)
    ensures CacheKey(namespace, a) == CacheKey(namespace, b)
  {
    PairOrder();
    HeaderOrder();
    SortIsCanonical(PairLeq, QueryPairs(a), QueryPairs(b));
    SortIsCanonical(HeaderLeq, a.headers, b.headers);
  }

  /** Neither the order of the pairs, nor whether one was written in the URL or passed in `params`,
      nor the order of the headers shows in the key. */
  lemma KeyIgnoresPlacement(namespace: string, a: Request, b: Request, qa: seq<Pair>, qb: seq<Pair>)
    requires BytePairs(qa) && BytePairs(qb) && RequestOk(a) && RequestOk(b)
    requires a.url.query == UrlEncode(qa) && b.url.query == UrlEncode(qb)
    requires multiset(qa + ParamPairs(a.params)) == multiset(qb + ParamPairs(b.params))
    requires multiset(a.headers) == multiset(b.headers)
    requires b == a.(url := a.url.(query := b.url.query), params := b.params, headers := b.headers)
    ensures CacheKey(namespace, a) == CacheKey(namespace, b)
  {
    ParseUndoesEncode(qa);
    ParseUndoesEncode(qb);
    KeySeesBags(namespace, a, b);
  }

  /** Two requests share a key exactly when they agree on everything the cache keeps of them. */
  lemma KeysAgreeIffSlotsDo(na: string, a: Request, nb: string, b: Request)
    requires RequestOk(a) && RequestOk(b)
    ensures CacheKey(na, a) == CacheKey(nb, b) <==> na == nb && Normalise(a) == Normalise(b)
  {
    SortedBytePairs(a);
    SortedBytePairs(b);
    KeyDeterminesSlot(SlotOf(na, a));
    KeyDeterminesSlot(SlotOf(nb, b));
  }
}
