/** The strict reading of JSON text in scripts/smoke_wheel_catalog.py (`_decode_json_bytes`): the
    scanner of Python's `json.loads` with hooks that refuse floats, constants, "-0" and duplicate
    keys.  It follows RFC 8259, sections 2 to 7. */
module JsonParser {
  import opened JsonLimits
  import opened JsonPrinter
  import opened Numerals
  import opened Wrappers

  predicate White(c: char) { c == ' ' || c == '\t' || c == '\n' || c == '\r' }

  function Skip(s: string): (rest: string)
    ensures |rest| <= |s|
  {
    if s != [] && White(s[0]) then Skip(s[1..]) else s
  }

  datatype Parsed<+T> = Fail | Done(value: T, rest: string)

  // ---- Strings ----

  /** Four hexadecimal digits. */
  function Hex4(s: string): Option<nat> {
    if |s| >= 4 && AllDigits(Hexadecimal, s[..4]) then Some(ValueOf(Hexadecimal, s[..4])) else None
  }

  predicate High(p: nat) { 0xD800 <= p < 0xDC00 }
  predicate Low(p: nat) { 0xDC00 <= p < 0xE000 }

  function UnescapeLetter(c: char): Option<Point> {
    if c == '"' then Some(0x22)
    else if c == '\\' then Some(0x5C)
    else if c == '/' then Some(0x2F)
    else if c == 'b' then Some(0x08)
    else if c == 'f' then Some(0x0C)
    else if c == 'n' then Some(0x0A)
    else if c == 'r' then Some(0x0D)
    else if c == 't' then Some(0x09)
    else None
  }

  lemma Hex4Bound(s: string)
    ensures Hex4(s).Some? ==> Hex4(s).value < 0x10000
  {
    if |s| >= 4 && AllDigits(Hexadecimal, s[..4]) {
      var h := s[..4];
      assert h[..3][..2] == h[..2] && h[..3][2] == h[2];
      assert h[..2][..1] == h[..1] && h[..2][1] == h[1];
      assert h[..1][..0] == [] && h[..1][0] == h[0];
      assert ValueOf(Hexadecimal, h[..1]) == DigitValue(h[0]);
      assert ValueOf(Hexadecimal, h[..2]) == 16 * DigitValue(h[0]) + DigitValue(h[1]);
      assert ValueOf(Hexadecimal, h[..3]) == 256 * DigitValue(h[0]) + 16 * DigitValue(h[1]) + DigitValue(h[2]);
    }
  }

  /** What follows a backslash; two escapes may name the halves of one code point. */
  function ParseEscape(s: string): (r: Parsed<Point>)
    ensures r.Done? ==> |r.rest| < |s|
  {
    if s == [] then Fail
    else if s[0] != 'u' then
      match UnescapeLetter(s[0])
      case None => Fail
      case Some(p) => Done(p, s[1..])
    else
      Hex4Bound(s[1..]);
      match Hex4(s[1..])
      case None => Fail
      case Some(p) =>
        var rest := s[5..];
        if High(p) && |rest| >= 2 && rest[0] == '\\' && rest[1] == 'u' then
          match Hex4(rest[2..])
          case None => Fail
          case Some(q) =>
            if Low(q) then Done(0x10000 + (p - 0xD800) * 0x400 + (q - 0xDC00), rest[6..]) else Done(p, rest)
        else Done(p, rest)
  }

  /** The rest of a string after its opening quote. */
  function ParseText(s: string): (r: Parsed<Text>)
    ensures r.Done? ==> |r.rest| < |s|
    decreases |s|
  {
    if s == [] then Fail
    else if s[0] == '"' then Done([], s[1..])
    else if s[0] == '\\' then
      match ParseEscape(s[1..])
      case Fail => Fail
      case Done(p, rest) =>
        match ParseText(rest)
        case Fail => Fail
        case Done(t, end) => Done([p] + t, end)
    else if s[0] < ' ' then Fail
    else
      match ParseText(s[1..])
      case Fail => Fail
      case Done(t, end) => Done([s[0] as int] + t, end)
  }

  // ---- Numbers ----

  predicate Digit(c: char) { '0' <= c <= '9' }

  /** The leading decimal digits. */
  function DigitRun(s: string): (n: nat)
    ensures n <= |s|
  {
    if s != [] && Digit(s[0]) then 1 + DigitRun(s[1..]) else 0
  }

  /** A fraction or an exponent, which makes the number a float. */
  predicate FloatFollows(s: string) {
    || (|s| >= 2 && s[0] == '.' && Digit(s[1]))
    || (|s| >= 2 && (s[0] == 'e' || s[0] == 'E') && Digit(s[1]))
    || (|s| >= 3 && (s[0] == 'e' || s[0] == 'E') && (s[1] == '+' || s[1] == '-') && Digit(s[2]))
  }

  function ParseMagnitude(s: string, negative: bool): (r: Parsed<int>)
    ensures r.Done? ==> |r.rest| < |s|
  {
    if s == [] || !Digit(s[0]) then Fail
    else
      var n := if s[0] == '0' then 1 else DigitRun(s);
      var digits, rest := s[..n], s[n..];
      if FloatFollows(rest) || (negative && s[0] == '0') || n > MAX_INT_DIGITS then Fail
      else
        var m: int := ValueOf(Decimal, digits);
        Done(if negative then -m else m, rest)
  }

  // ---- Values ----

  function ParseInt(s: string): (r: Parsed<Value>)
    requires s != []
    ensures r.Done? ==> |r.rest| < |s|
  {
    var n := if s[0] == '-' then ParseMagnitude(s[1..], true) else ParseMagnitude(s, false);
    match n
    case Fail => Fail
    case Done(n, rest) => Done(Int(n), rest)
  }

  function ParseWord(s: string, word: string, v: Value): (r: Parsed<Value>)
    requires word != []
    ensures r.Done? ==> |r.rest| < |s|
  {
    if word <= s then Done(v, s[|word|..]) else Fail
  }

  function ParseValue(s: string): (r: Parsed<Value>)
    ensures r.Done? ==> |r.rest| < |s|
    decreases |s|, 0
  {
    if s == [] then Fail
    else if s[0] == '"' then
      match ParseText(s[1..])
      case Fail => Fail
      case Done(t, rest) => Done(String(t), rest)
    else if s[0] == '[' then
      var inside := Skip(s[1..]);
      if inside != [] && inside[0] == ']' then Done(List([]), inside[1..]) else ParseItems(inside, [])
    else if s[0] == '{' then
      var inside := Skip(s[1..]);
      if inside != [] && inside[0] == '}' then Done(Object([]), inside[1..]) else ParseMembers(inside, [])
    else if s[0] == 'n' then ParseWord(s, "null", Null)
    else if s[0] == 't' then ParseWord(s, "true", Bool(true))
    else if s[0] == 'f' then ParseWord(s, "false", Bool(false))
    else ParseInt(s)
  }

  /** The rest of an array, from the start of a value. */
  function ParseItems(s: string, items: seq<Value>): (r: Parsed<Value>)
    ensures r.Done? ==> |r.rest| < |s|
    decreases |s|, 1
  {
    match ParseValue(s)
    case Fail => Fail
    case Done(v, rest) =>
      var next := Skip(rest);
      if next != [] && next[0] == ']' then Done(List(items + [v]), next[1..])
      else if next != [] && next[0] == ',' then ParseItems(Skip(next[1..]), items + [v])
      else Fail
  }

  /** The rest of an object, from the start of a key; duplicate keys are found at its end. */
  function ParseMembers(s: string, members: seq<Member>): (r: Parsed<Value>)
    ensures r.Done? ==> |r.rest| < |s|
    decreases |s|, 1
  {
    match ParseMember(s)
    case Fail => Fail
    case Done(m, rest) =>
      var next := Skip(rest);
      if next != [] && next[0] == '}' then
        if DistinctKeys(members + [m]) then Done(Object(members + [m]), next[1..]) else Fail
      else if next != [] && next[0] == ',' then ParseMembers(Skip(next[1..]), members + [m])
      else Fail
  }

  function ParseMember(s: string): (r: Parsed<Member>)
    ensures r.Done? ==> |r.rest| < |s|
    decreases |s|, 0
  {
    if s == [] || s[0] != '"' then Fail
    else
      match ParseText(s[1..])
      case Fail => Fail
      case Done(key, rest) =>
        var colon := Skip(rest);
        if colon == [] || colon[0] != ':' then Fail
        else
          match ParseValue(Skip(colon[1..]))
          case Fail => Fail
          case Done(v, end) => Done(Member(Name(key), v), end)
  }

  /** `_object_from_pairs`: a dictionary filled pair by pair. */
  method ObjectFromPairs(pairs: seq<Member>) returns (members: Option<seq<Member>>)
    ensures members == if DistinctKeys(pairs) then Some(pairs) else None
  {
    var seen: set<Key> := {};
    for i := 0 to |pairs|
      invariant DistinctKeys(pairs[..i])
      invariant forall key :: key in seen <==> exists j :: 0 <= j < i && pairs[j].key == key
    {
      if pairs[i].key in seen { return None; }
      seen := seen + {pairs[i].key};
    }
    assert pairs[..|pairs|] == pairs;
    members := Some(pairs);
  }

  /** `json.loads`: one value with blanks around it. */
  function ParseDocument(s: string): Option<Value> {
    match ParseValue(Skip(s))
    case Fail => None
    case Done(v, rest) => if Skip(rest) == [] then Some(v) else None
  }
}
