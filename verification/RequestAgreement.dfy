/** Which requests share a cache key, read off the requests themselves (src/openopps/cache.py,
    `cache_key`, `_normalize_url`, `_normalize_netloc`, `_request_headers_for_identity`). */
module RequestAgreement {
  import opened Orders
  import opened RequestKey
  import opened Wrappers
  import Text

  lemma CasesAgree(a: string, b: string)
    ensures Text.Lower(a) == Text.Lower(b) <==> Text.SameLetters(a, b)
    ensures Upper(a) == Upper(b) <==> Text.SameLetters(a, b)
  {
    Text.LowerMeans(a, b);
    if Upper(a) == Upper(b) {
      forall i | 0 <= i < |a| ensures Text.SameLetter(a[i], b[i]) { assert Upper(a)[i] == Upper(b)[i]; }
    }
  }

  // ---- The query ----

  /** How often `params` gives a pair: list values give one for each item, absent values none. */
  function Given(params: seq<Param>, p: Pair): nat {
    if params == [] then 0
    else
      var last := params[|params| - 1];
      Given(params[..|params| - 1], p) +
      match last.value
      case Null => 0
      case One(text) => if last.name == p.name && text == p.value then 1 else 0
      case Many(texts) => if last.name == p.name then multiset(texts)[p.value] else 0
  }

  lemma ParamPairsUnfold(params: seq<Param>)
    ensures params == [] ==> ParamPairs(params) == []
    ensures params != [] ==> ParamPairs(params) == ParamPairs([params[0]]) + ParamPairs(params[1..])
  {
    if params != [] {
      assert [params[0]][1..] == [] && ParamPairs([]) == [];
    }
  }

  lemma {:induction false} ParamPairsSplit(a: seq<Param>, b: seq<Param>)
    ensures ParamPairs(a + b) == ParamPairs(a) + ParamPairs(b)
  {
    hide ParamPairs;
    ParamPairsUnfold(a);
    if a == [] {
      assert a + b == b;
    } else {
      ParamPairsUnfold(a + b);
      ParamPairsSplit(a[1..], b);
      assert (a + b)[1..] == a[1..] + b;
    }
  }

  lemma {:induction false} PairsOfMany(name: string, texts: seq<string>, p: Pair)
    ensures multiset(seq(|texts|, i requires 0 <= i < |texts| => Pair(name, texts[i])))[p]
      == if name == p.name then multiset(texts)[p.value] else 0
  {
    if texts != [] {
      var last := |texts| - 1;
      PairsOfMany(name, texts[..last], p);
      assert texts == texts[..last] + [texts[last]];
      var before := seq(last, i requires 0 <= i < last => Pair(name, texts[..last][i]));
      var all := seq(|texts|, i requires 0 <= i < |texts| => Pair(name, texts[i]));
      assert all == before + [Pair(name, texts[last])];
    }
  }

  lemma OneParam(param: Param, p: Pair)
    ensures multiset(ParamPairs([param]))[p] == Given([param], p)
  {
    assert [param][1..] == [] && [param][..0] == [];
    assert ParamPairs([param][1..]) == [];
    if param.value.Many? { PairsOfMany(param.name, param.value.texts, p); }
  }

  lemma GivenLast(params: seq<Param>, p: Pair)
    ensures params == [] ==> Given(params, p) == 0
    ensures params != [] ==>
      Given(params, p) == Given(params[..|params| - 1], p) + Given([params[|params| - 1]], p)
  {
    if params != [] {
      assert [params[|params| - 1]][..0] == [];
      assert Given([], p) == 0;
    }
  }

  lemma {:induction false} ParamPairsGiven(params: seq<Param>, p: Pair)
    ensures multiset(ParamPairs(params))[p] == Given(params, p)
  {
    hide ParamPairs, Given;
    GivenLast(params, p);
    if params == [] {
      ParamPairsUnfold(params);
    } else {
      var last := |params| - 1;
      ParamPairsGiven(params[..last], p);
      OneParam(params[last], p);
      ParamPairsSplit(params[..last], [params[last]]);
      assert params == params[..last] + [params[last]];
    }
  }

  /** How often a request asks with a pair, in its URL or in `params`. */
  function Asked(r: Request, p: Pair): nat { multiset(ParseQsl(r.url.query))[p] + Given(r.params, p) }

  lemma QueriesAgree(a: Request, b: Request)
    ensures Sort(PairLeq, QueryPairs(a)) == Sort(PairLeq, QueryPairs(b)) <==> forall p :: Asked(a, p) == Asked(b, p)
  {
    hide ParseQsl, ParamPairs, Given, PairLeq;
    var qa, qb := QueryPairs(a), QueryPairs(b);
    PairOrder();
    SortSorts(PairLeq, qa);
    SortSorts(PairLeq, qb);
    forall p ensures multiset(qa)[p] == Asked(a, p) && multiset(qb)[p] == Asked(b, p) {
      ParamPairsGiven(a.params, p);
      ParamPairsGiven(b.params, p);
    }
    if forall p :: Asked(a, p) == Asked(b, p) {
      forall p ensures multiset(qa)[p] == multiset(qb)[p] { assert Asked(a, p) == Asked(b, p); }
      assert multiset(qa) == multiset(qb);
      SortIsCanonical(PairLeq, qa, qb);
    }
    if Sort(PairLeq, qa) == Sort(PairLeq, qb) {
      forall p ensures Asked(a, p) == Asked(b, p) { assert multiset(qa)[p] == multiset(qb)[p]; }
    }
  }

  // ---- Headers ----

  /** `h` comes after `g` in the sorted items. */
  ghost predicate After(h: Header, g: Header) {
    Before(g.name, h.name) || (g.name == h.name && (g.value == h.value || Before(g.value, h.value)))
  }

  /** The value sent under a name in any case: of several spellings the last one counts. */
  ghost predicate Sends(headers: seq<Header>, name: string, value: Option<string>) {
    match value
    case None => forall h | h in headers :: !Text.SameLetters(h.name, name)
    case Some(v) =>
      exists h :: h in headers && Text.SameLetters(h.name, name) && h.value == v
        && forall g | g in headers && Text.SameLetters(g.name, name) :: After(h, g)
  }

  lemma AfterIsLeq(h: Header, g: Header)
    ensures After(h, g) <==> HeaderLeq(g, h)
  {
    hide Before, StringLeq;
    StringLeqMeans(g.name, h.name);
    StringLeqMeans(g.value, h.value);
    if g.name == h.name { NotBeforeItself(g.name); }
  }

  lemma IncludedAreLower(name: string)
    requires name in INCLUDED_HEADERS
    ensures Text.Lower(name) == name
  {
    assert forall i | 0 <= i < |name| :: !('A' <= name[i] <= 'Z');
  }

  ghost predicate Named(h: Header, name: string) { Text.Lower(h.name) == name }

  /** The last of the sorted items with a name is the one that the map keeps. */
  lemma {:induction false} LastOneCounts(sorted: seq<Header>, name: string)
    requires Ascending(HeaderLeq, sorted) && name in INCLUDED_HEADERS
    ensures name in HeaderMap(sorted) <==> exists h :: h in sorted && Named(h, name)
    ensures name in HeaderMap(sorted) ==>
      exists h :: h in sorted && Named(h, name) && h.value == HeaderMap(sorted)[name]
        && forall g | g in sorted && Named(g, name) :: HeaderLeq(g, h)
  {
    hide HeaderLeq, INCLUDED_HEADERS, Text.Lower;
    if sorted != [] {
      var last, before := sorted[|sorted| - 1], sorted[..|sorted| - 1];
      LastOneCounts(before, name);
      assert sorted == before + [last];
      if Named(last, name) {
        HeaderOrder();
        forall g | g in sorted && Named(g, name) ensures HeaderLeq(g, last) {
          var i :| 0 <= i < |sorted| && sorted[i] == g;
          if i == |sorted| - 1 { HeaderReflexive(g); }
        }
      } else if name in HeaderMap(sorted) {
        var h :| h in before && Named(h, name) && h.value == HeaderMap(before)[name]
          && forall g | g in before && Named(g, name) :: HeaderLeq(g, h);
        assert h in sorted;
      }
    }
  }

  lemma HeaderReflexive(h: Header)
    ensures HeaderLeq(h, h)
  {
    HeaderOrder();
  }

  lemma {:induction false} OnlyIncluded(sorted: seq<Header>)
    ensures HeaderMap(sorted).Keys <= INCLUDED_HEADERS
  {
    hide INCLUDED_HEADERS, Text.Lower;
    if sorted != [] { OnlyIncluded(sorted[..|sorted| - 1]); }
  }

  function Sent(r: Request): map<string, string> { HeaderMap(Sort(HeaderLeq, r.headers)) }

  lemma SentMeans(r: Request, name: string, value: Option<string>)
    requires name in INCLUDED_HEADERS
    ensures Sends(r.headers, name, value) <==> value == if name in Sent(r) then Some(Sent(r)[name]) else None
  {
    hide HeaderLeq, INCLUDED_HEADERS, Text.Lower, HeaderMap, Sort, After, Text.SameLetters;
    var sorted := Sort(HeaderLeq, r.headers);
    HeaderOrder();
    SortSorts(HeaderLeq, r.headers);
    assert forall h :: h in sorted <==> h in multiset(sorted);
    assert forall h :: h in r.headers <==> h in multiset(r.headers);
    LastOneCounts(sorted, name);
    IncludedAreLower(name);
    forall h: Header ensures Named(h, name) <==> Text.SameLetters(h.name, name) { CasesAgree(h.name, name); }
    forall h: Header, g: Header ensures After(h, g) <==> HeaderLeq(g, h) { AfterIsLeq(h, g); }
    SentOnce(r.headers, name, value, if name in Sent(r) then Some(Sent(r)[name]) else None);
  }

  lemma SentOnce(headers: seq<Header>, name: string, v: Option<string>, w: Option<string>)
    requires Sends(headers, name, w)
    ensures Sends(headers, name, v) <==> v == w
  {
    hide Text.SameLetters, After;
    if Sends(headers, name, v) && v.Some? && w.Some? {
      var h :| h in headers && Text.SameLetters(h.name, name) && h.value == v.value
        && forall g | g in headers && Text.SameLetters(g.name, name) :: After(h, g);
      var k :| k in headers && Text.SameLetters(k.name, name) && k.value == w.value
        && forall g | g in headers && Text.SameLetters(g.name, name) :: After(k, g);
      AfterIsLeq(h, k);
      AfterIsLeq(k, h);
      HeaderOrder();
      assert h == k;
    }
  }

  /** The same value, or no value, under each of the nine names that count. */
  ghost predicate SameHeaders(a: seq<Header>, b: seq<Header>) {
    forall name, value |
      name in {"accept", "content-type", "origin", "referer", "authorization", "cookie", "proxy-authorization",
        "x-api-key", "x-auth-token"} :: Sends(a, name, value) <==> Sends(b, name, value)
  }

  lemma HeadersAgree(a: Request, b: Request)
    ensures Sent(a) == Sent(b) <==> SameHeaders(a.headers, b.headers)
  {
    hide Sends, Sent;
    forall name, value | name in INCLUDED_HEADERS
      ensures Sends(a.headers, name, value) <==> value == if name in Sent(a) then Some(Sent(a)[name]) else None
      ensures Sends(b.headers, name, value) <==> value == if name in Sent(b) then Some(Sent(b)[name]) else None
    {
      SentMeans(a, name, value);
      SentMeans(b, name, value);
    }
    if SameHeaders(a.headers, b.headers) {
      SentIncluded(a);
      SentIncluded(b);
      forall name | name in INCLUDED_HEADERS
        ensures name in Sent(a) <==> name in Sent(b)
        ensures name in Sent(a) ==> Sent(a)[name] == Sent(b)[name]
      {
        var value := if name in Sent(a) then Some(Sent(a)[name]) else None;
        assert Sends(a.headers, name, value) <==> Sends(b.headers, name, value);
      }
    }
  }

  lemma SentIncluded(r: Request)
    ensures Sent(r).Keys <= INCLUDED_HEADERS
  {
    OnlyIncluded(Sort(HeaderLeq, r.headers));
  }

  // ---- URLs ----

  /** No port, or the one that goes without saying. */
  predicate DefaultPorted(url: Url) {
    url.port.None? || (Text.SameLetters(url.scheme, "http") && url.port == Some(80))
      || (Text.SameLetters(url.scheme, "https") && url.port == Some(443))
  }

  ghost predicate SamePlace(a: Url, b: Url) {
    && Text.SameLetters(a.scheme, b.scheme) && a.userinfo == b.userinfo && Text.SameLetters(a.host, b.host)
    && (a.port == b.port || (DefaultPorted(a) && DefaultPorted(b)))
    && (a.path == b.path || (a.path in {"", "/"} && b.path in {"", "/"}))
  }

  function PortKept(url: Url): Option<nat> {
    if url.port.Some? && url.port == DefaultPort(Text.Lower(url.scheme)) then None else url.port
  }

  lemma PortDropped(url: Url)
    ensures PortKept(url).None? <==> DefaultPorted(url)
    ensures PortKept(url).Some? ==> PortKept(url) == url.port
  {
    hide Text.Lower, Text.SameLetters;
    CasesAgree(url.scheme, "http");
    CasesAgree(url.scheme, "https");
    SchemesAreLower();
  }

  lemma SchemesAreLower()
    ensures Text.Lower("http") == "http" && Text.Lower("https") == "https" && "http" != "https"
  {
  }

  lemma PlacesAgree(a: Request, b: Request)
    ensures var na, nb := Normalise(a), Normalise(b);
      SamePlace(a.url, b.url) <==>
      && na.scheme == nb.scheme && na.userinfo == nb.userinfo && na.host == nb.host
      && na.port == nb.port && na.path == nb.path
  {
    hide Text.Lower, Text.SameLetters, DefaultPorted, DefaultPort;
    CasesAgree(a.url.scheme, b.url.scheme);
    CasesAgree(a.url.host, b.url.host);
    PortDropped(a.url);
    PortDropped(b.url);
    assert Normalise(a).port == PortKept(a.url) && Normalise(b).port == PortKept(b.url);
  }

  /** Two requests share a key exactly when they agree on the namespace, on the verb, scheme and host in
      any case, on user, port, path, body and identity, on how often they ask with each pair, and on the
      headers that count.  A missing port is the default one, a missing path is "/". */
  lemma KeysAgree(na: string, a: Request, nb: string, b: Request)
    requires RequestOk(a) && RequestOk(b)
    ensures CacheKey(na, a) == CacheKey(nb, b) <==>
      && na == nb && Text.SameLetters(a.verb, b.verb) && SamePlace(a.url, b.url)
      && (forall p :: Asked(a, p) == Asked(b, p))
      && a.json == b.json && SameHeaders(a.headers, b.headers) && a.identity == b.identity
  {
    hide Text.SameLetters, SamePlace, SameHeaders, Asked, CacheKey;
    KeysAgreeIffSlotsDo(na, a, nb, b);
    CasesAgree(a.verb, b.verb);
    PlacesAgree(a, b);
    QueriesAgree(a, b);
    HeadersAgree(a, b);
  }

  // ---- Query text ----

  lemma PlainStep(c: char, rest: string)
    requires c != '+' && c != '%'
    ensures Unquote([c] + rest) == [c] + Unquote(rest)
  {
    assert ([c] + rest)[1..] == rest;
  }

  lemma PlusStep(rest: string)
    ensures Unquote("+" + rest) == " " + Unquote(rest)
  {
    assert ("+" + rest)[1..] == rest;
  }

  lemma PercentStep(high: char, low: char, rest: string)
    requires HexValue(high).Some? && HexValue(low).Some?
    ensures Unquote(['%', high, low] + rest)
      == [(16 * HexValue(high).value + HexValue(low).value) as char] + Unquote(rest)
  {
    assert (['%', high, low] + rest)[3..] == rest;
  }

  lemma NothingUnquoted()
    ensures Unquote("") == "" && Text.Join('=', []) == ""
  {
  }

  const VALUE: string := "%41+%e2=x"

  /** Escapes in either case, "+" for a blank. */
  lemma ValueUnquoted()
    ensures Unquote(VALUE) == "A \U{E2}=x"
  {
    hide Unquote, HexValue;
    NothingUnquoted();
    DigitsRead();
    PlainStep('x', "");
    PlainStep('=', "x");
    PercentStep('e', '2', "=x");
    PlusStep("%e2=x");
    PercentStep('4', '1', "+%e2=x");
    assert ['x'] + "" == "x" && ['='] + "x" == "=x";
    assert ['%', 'e', '2'] + "=x" == "%e2=x" && "+" + "%e2=x" == "+%e2=x";
    assert ['%', '4', '1'] + "+%e2=x" == VALUE;
  }

  lemma DigitsRead()
    ensures HexValue('e') == Some(14) && HexValue('2') == Some(2)
    ensures HexValue('4') == Some(4) && HexValue('1') == Some(1)
  {
  }

  /** The first "=" divides a piece. */
  lemma PieceDivides(name: string, value: string)
    requires '=' !in name
    ensures PairOf(name + ['='] + value) == Pair(Unquote(name), Unquote(value))
  {
    hide Unquote;
    Text.SplitAtSeparator('=', name, value);
    Text.JoinUndoesSplit('=', value);
    assert ([name] + Text.Split('=', value))[1..] == Text.Split('=', value);
  }

  /** A piece without one is a name with the empty value. */
  lemma BarePiece(name: string)
    requires '=' !in name
    ensures PairOf(name) == Pair(Unquote(name), "")
  {
    hide Unquote;
    Text.SplitWithoutSeparator('=', name);
    NothingUnquoted();
  }

  /** Pieces stand between ampersands, and empty ones are skipped. */
  lemma QueryDivides(piece: string, rest: string)
    requires '&' !in piece
    ensures ParseQsl(piece + ['&'] + rest) == (if piece == "" then [] else [PairOf(piece)]) + ParseQsl(rest)
    ensures ParseQsl(piece) == if piece == "" then [] else [PairOf(piece)]
  {
    hide PairOf, Text.Split;
    Text.SplitAtSeparator('&', piece, rest);
    Text.SplitWithoutSeparator('&', piece);
    PairsOfCons(piece, Text.Split('&', rest));
    PairsOfCons(piece, []);
    assert [piece] + [] == [piece];
  }

  lemma QueryRead()
    ensures ParseQsl("b" + ['&'] + ("" + ['&'] + ("c" + ['='] + VALUE))) == [Pair("b", ""), Pair("c", "A \U{E2}=x")]
  {
    hide PairOf, ParseQsl, Unquote;
    ValueUnquoted();
    NothingUnquoted();
    PlainStep('b', "");
    PlainStep('c', "");
    BarePiece("b");
    PieceDivides("c", VALUE);
    assert ['b'] + "" == "b" && ['c'] + "" == "c";
    assert '&' !in "c" + ['='] + VALUE;
    QueryDivides("b", "" + ['&'] + ("c" + ['='] + VALUE));
    QueryDivides("", "c" + ['='] + VALUE);
    QueryDivides("c" + ['='] + VALUE, "");
  }
}
