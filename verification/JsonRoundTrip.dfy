/** Reading undoes printing (scripts/smoke_wheel_catalog.py). */
module JsonRoundTrip {
  import opened JsonLimits
  import opened JsonPrinter
  import opened JsonParser
  import opened JsonNormal
  import opened JsonSorted
  import opened Numerals
  import opened Wrappers

  // ---- Strings ----

  lemma ShortEscapeRead(p: Point, rest: string)
    requires EscapeLetter(p) != '-'
    ensures ParseEscape([EscapeLetter(p)] + rest) == Done(p, rest)
  {
    var s := [EscapeLetter(p)] + rest;
    assert s[1..] == rest;
    assert UnescapeLetter(EscapeLetter(p)) == Some(p);
  }

  lemma ControlEscapeRead(p: Point, rest: string)
    requires p < 0x20
    ensures ParseEscape(['u', '0', '0', DigitChar(p / 16), DigitChar(p % 16)] + rest) == Done(p, rest)
  {
    var s := ['u', '0', '0', DigitChar(p / 16), DigitChar(p % 16)] + rest;
    var h := ['0', '0', DigitChar(p / 16), DigitChar(p % 16)];
    assert s[1..] == h + rest;
    assert (h + rest)[..4] == h && s[5..] == rest;
    assert h[..3] == ['0', '0', DigitChar(p / 16)];
    assert h[..3][..2] == ['0', '0'] && h[..3][..2][..1] == ['0'] && ['0'][..0] == [];
    assert ValueOf(Hexadecimal, ['0']) == 0;
    assert ValueOf(Hexadecimal, ['0', '0']) == 0;
    assert ValueOf(Hexadecimal, h[..3]) == p / 16;
    assert ValueOf(Hexadecimal, h) == p;
    assert AllDigits(Hexadecimal, h);
  }

  lemma PointRead(p: Point, after: string, t: Text, rest: string)
    requires !Surrogate(p) && ParseText(after) == Done(t, rest)
    ensures ParseText(PrintPoint(p) + after) == Done([p] + t, rest)
  {
    hide ParseEscape, EscapeLetter;
    var s := PrintPoint(p) + after;
    EscapeLetters(p);
    if EscapeLetter(p) != '-' {
      ShortEscapeRead(p, after);
      assert s[1..] == [EscapeLetter(p)] + after;
    } else if p < 0x20 {
      ControlEscapeRead(p, after);
      assert s[1..] == ['u', '0', '0', DigitChar(p / 16), DigitChar(p % 16)] + after;
    } else {
      assert s[0] == p as char && s[1..] == after;
    }
  }

  lemma EndRead(rest: string)
    ensures ParseText(['"'] + rest) == Done([], rest)
  {
    assert (['"'] + rest)[1..] == rest;
  }

  lemma {:induction false} TextRead(t: Text, rest: string)
    requires Encodable(t)
    ensures ParseText(PrintPoints(t) + (['"'] + rest)) == Done(t, rest)
  {
    hide PrintPoint, ParseText;
    if t == [] {
      EndRead(rest);
      assert PrintPoints(t) + (['"'] + rest) == ['"'] + rest;
    } else {
      TextRead(t[1..], rest);
      PointRead(t[0], PrintPoints(t[1..]) + (['"'] + rest), t[1..], rest);
      assert PrintPoints(t) + (['"'] + rest) == PrintPoint(t[0]) + (PrintPoints(t[1..]) + (['"'] + rest));
      assert t == [t[0]] + t[1..];
    }
  }

  lemma EscapeLetters(p: Point)
    ensures p == '"' as int || p == '\\' as int ==> EscapeLetter(p) != '-'
  {
  }

  // ---- Numbers ----

  /** A character that ends a number. */
  predicate Stops(rest: string) {
    rest == [] || (!Digit(rest[0]) && rest[0] != '.' && rest[0] != 'e' && rest[0] != 'E')
  }

  lemma {:induction false} DigitRunOf(digits: string, rest: string)
    requires AllDigits(Decimal, digits) && Stops(rest)
    ensures DigitRun(digits + rest) == |digits|
  {
    if digits == [] {
      assert digits + rest == rest;
    } else {
      assert DigitValue(digits[0]) < 10;
      DigitRunOf(digits[1..], rest);
      assert (digits + rest)[1..] == digits[1..] + rest;
    }
  }

  lemma {:induction false} NumeralLeads(n: nat)
    ensures Digit(Numeral(Decimal, n)[0])
    ensures Numeral(Decimal, n)[0] == '0' <==> n == 0
    ensures n == 0 ==> |Numeral(Decimal, n)| == 1
  {
    if n >= 10 { NumeralLeads(n / 10); }
  }

  function Signed(n: nat, negative: bool): int { if negative then 0 - n else n }

  lemma MagnitudeRead(n: nat, negative: bool, rest: string)
    requires |Numeral(Decimal, n)| <= MAX_INT_DIGITS && Stops(rest)
    requires negative ==> n > 0
    ensures ParseMagnitude(Numeral(Decimal, n) + rest, negative) == Done(Signed(n, negative), rest)
  {
    hide Numeral, ValueOf, DigitRun;
    var digits := Numeral(Decimal, n);
    var s := digits + rest;
    NumeralLeads(n);
    DigitRunOf(digits, rest);
    ValueOfNumeral(Decimal, n);
    assert s[..|digits|] == digits && s[|digits|..] == rest;
    assert s[0] == digits[0];
  }

  lemma IntRead(n: int, rest: string)
    requires |Numeral(Decimal, Magnitude(n))| <= MAX_INT_DIGITS && Stops(rest)
    ensures ParseValue(PrintInt(n) + rest) == Done(Int(n), rest)
  {
    hide Numeral, ParseMagnitude;
    NumeralLeads(Magnitude(n));
    MagnitudeRead(Magnitude(n), n < 0, rest);
    var s := PrintInt(n) + rest;
    if n < 0 {
      assert s[1..] == Numeral(Decimal, -n) + rest;
    } else {
      assert s[0] == Numeral(Decimal, n)[0];
    }
  }

  // ---- Values ----

  /** A character with which a printed value starts. */
  predicate Starts(c: char) { ' ' < c < ']' || 'a' <= c <= '{' }

  lemma PrintStarts(v: Value)
    requires Printable(v)
    ensures Print(v) != [] && Starts(Print(v)[0])
  {
    if v.Int? { NumeralLeads(Magnitude(v.number)); }
  }

  lemma ItemsStart(items: seq<Value>)
    requires PrintableItems(items) && items != []
    ensures PrintItems(items) != [] && Starts(PrintItems(items)[0])
  {
    hide Printable, Print;
    PrintStarts(items[0]);
  }

  lemma MembersStart(members: seq<Member>)
    requires PrintableMembers(members) && members != []
    ensures PrintMembers(members) != [] && PrintMembers(members)[0] == '"'
  {
    hide Printable, Print;
    assert PrintMember(members[0])[0] == '"';
  }

  lemma SkipNothing(s: string)
    requires s == [] || !White(s[0])
    ensures Skip(s) == s
  {
  }

  lemma SkipStarted(s: string)
    requires s != [] && Starts(s[0])
    ensures Skip(s) == s
  {
  }

  lemma WordRead(word: string, v: Value, rest: string)
    requires word != []
    ensures ParseWord(word + rest, word, v) == Done(v, rest)
  {
    assert (word + rest)[|word|..] == rest;
  }

  lemma {:induction false} ValueRead(v: Value, rest: string)
    requires Printable(v) && Stops(rest)
    ensures ParseValue(Print(v) + rest) == Done(v, rest)
    decreases v
  {
    hide PrintInt, PrintPoints, PrintItems, PrintMembers, ParseText, ParseItems, ParseMembers, Skip, Stops;
    match v
    case Null => WordRead("null", v, rest);
    case Bool(flag) => WordRead(if flag then "true" else "false", v, rest);
    case Int(n) => IntRead(n, rest);
    case String(t) =>
      TextRead(t, rest);
      assert (Print(v) + rest)[1..] == PrintPoints(t) + (['"'] + rest);
    case List(items) => ListRead(items, rest);
    case Object(members) => ObjectRead(members, rest);
  }

  lemma {:induction false} ListRead(items: seq<Value>, rest: string)
    requires PrintableItems(items)
    ensures ParseValue(['['] + PrintItems(items) + [']'] + rest) == Done(List(items), rest)
    decreases items, 1
  {
    hide PrintItems, ParseItems, PrintableItems;
    var inside := PrintItems(items) + ([']'] + rest);
    var s := ['['] + PrintItems(items) + [']'] + rest;
    assert s[1..] == inside;
    if items == [] {
      EmptyItems();
      assert inside == [']'] + rest;
      SkipNothing(inside);
    } else {
      ItemsStart(items);
      assert inside[0] == PrintItems(items)[0];
      SkipStarted(inside);
      ItemsRead(items, [], rest);
      assert [] + items == items;
    }
  }

  lemma EmptyItems()
    ensures PrintItems([]) == [] && PrintMembers([]) == []
  {
  }

  lemma {:induction false} ItemsRead(items: seq<Value>, before: seq<Value>, rest: string)
    requires PrintableItems(items) && items != []
    ensures ParseItems(PrintItems(items) + ([']'] + rest), before) == Done(List(before + items), rest)
    decreases items, 0
  {
    hide Print, Printable, ParseValue;
    var s := PrintItems(items) + ([']'] + rest);
    if |items| == 1 {
      ValueRead(items[0], [']'] + rest);
      SkipNothing([']'] + rest);
      assert items == [items[0]];
    } else {
      var tail := PrintItems(items[1..]) + ([']'] + rest);
      ValueRead(items[0], [','] + tail);
      assert s == Print(items[0]) + ([','] + tail);
      SkipNothing([','] + tail);
      assert ([','] + tail)[1..] == tail;
      ItemsStart(items[1..]);
      assert tail[0] == PrintItems(items[1..])[0];
      SkipStarted(tail);
      ItemsRead(items[1..], before + [items[0]], rest);
      assert before + [items[0]] + items[1..] == before + items;
    }
  }

  lemma {:induction false} ObjectRead(members: seq<Member>, rest: string)
    requires DistinctKeys(members) && PrintableMembers(members)
    ensures ParseValue(['{'] + PrintMembers(members) + ['}'] + rest) == Done(Object(members), rest)
    decreases members, 1
  {
    hide PrintMembers, ParseMembers, PrintableMembers, DistinctKeys;
    var inside := PrintMembers(members) + (['}'] + rest);
    var s := ['{'] + PrintMembers(members) + ['}'] + rest;
    assert s[1..] == inside;
    if members == [] {
      EmptyItems();
      assert inside == ['}'] + rest;
      SkipNothing(inside);
    } else {
      MembersStart(members);
      assert inside[0] == PrintMembers(members)[0] == '"';
      SkipNothing(inside);
      assert [] + members == members;
      MembersRead(members, [], rest);
    }
  }

  lemma {:induction false} MemberRead(m: Member, rest: string)
    requires PrintableMember(m) && Stops(rest)
    ensures ParseMember(PrintMember(m) + rest) == Done(m, rest)
    decreases m
  {
    hide PrintPoints, Print, Printable, ParseValue, ParseText, Stops;
    var s := PrintMember(m) + rest;
    var after := Print(m.value) + rest;
    TextRead(m.key.text, [':'] + after);
    assert s[1..] == PrintPoints(m.key.text) + (['"'] + ([':'] + after));
    SkipNothing([':'] + after);
    assert ([':'] + after)[1..] == after;
    PrintStarts(m.value);
    assert after[0] == Print(m.value)[0];
    SkipStarted(after);
    ValueRead(m.value, rest);
  }

  lemma {:induction false} MembersRead(members: seq<Member>, before: seq<Member>, rest: string)
    requires PrintableMembers(members) && members != [] && DistinctKeys(before + members)
    ensures ParseMembers(PrintMembers(members) + (['}'] + rest), before) == Done(Object(before + members), rest)
    decreases members, 0
  {
    hide PrintMember, PrintableMember, ParseMember, DistinctKeys;
    var s := PrintMembers(members) + (['}'] + rest);
    if |members| == 1 {
      MemberRead(members[0], ['}'] + rest);
      SkipNothing(['}'] + rest);
      assert members == [members[0]];
    } else {
      var tail := PrintMembers(members[1..]) + (['}'] + rest);
      MemberRead(members[0], [','] + tail);
      assert s == PrintMember(members[0]) + ([','] + tail);
      SkipNothing([','] + tail);
      assert ([','] + tail)[1..] == tail;
      MembersStart(members[1..]);
      SkipNothing(tail);
      assert before + [members[0]] + members[1..] == before + members;
      MembersRead(members[1..], before + [members[0]], rest);
    }
  }

  // ---- Documents ----

  const MAX_RESOURCE_BYTES: nat := 16 * 1024 * 1024

  function Utf8Size(s: string): nat {
    if s == [] then 0
    else
      var c := s[0] as int;
      (if c < 0x80 then 1 else if c < 0x800 then 2 else if c < 0x10000 then 3 else 4) + Utf8Size(s[1..])
  }

  /** Bytes that are UTF-8, given as the text they encode, or that are not. */
  datatype Raw = Utf8(text: string) | Malformed(length: nat)

  const BYTE_ORDER_MARK: char := 0xFEFF as char

  /** `_canonical_json_bytes`; nothing stands for text that UTF-8 cannot carry, or a number too long. */
  function Canonical(v: Value): Option<string> {
    if !Printable(v) then None
    else
      NormalizeIsStable(v);
      Some(Print(Normalize(v)) + ['\n'])
  }

  function Decode(raw: Raw, requireCanonical: bool): Option<Value> {
    if raw.Malformed? || Utf8Size(raw.text) > MAX_RESOURCE_BYTES then None
    else if raw.text != [] && raw.text[0] == BYTE_ORDER_MARK then None
    else
      match ParseDocument(raw.text)
      case None => None
      case Some(v) => if WithinLimits(v) && (requireCanonical ==> Canonical(v) == Some(raw.text)) then Some(v) else None
  }

  /** `_decode_json_bytes`. */
  method DecodeJsonBytes(raw: Raw, requireCanonical: bool) returns (payload: Option<Value>)
    ensures payload == Decode(raw, requireCanonical)
    ensures payload.Some? <==>
      && raw.Utf8? && Utf8Size(raw.text) <= 16_777_216 && !("\U{FEFF}" <= raw.text)
      && ParseDocument(raw.text).Some? && WithinLimits(ParseDocument(raw.text).value)
      && (requireCanonical ==> Canonical(ParseDocument(raw.text).value) == Some(raw.text))
    ensures payload.Some? ==> payload == ParseDocument(raw.text)
  {
    hide WithinLimits, ParseDocument, Canonical, Utf8Size;
    if raw.Malformed? || Utf8Size(raw.text) > MAX_RESOURCE_BYTES { return None; }
    if raw.text != [] && raw.text[0] == BYTE_ORDER_MARK { return None; }
    var parsed := ParseDocument(raw.text);
    if parsed.None? { return None; }
    var ok := ValidateJsonLimits(parsed.value);
    if !ok { return None; }
    if requireCanonical && Canonical(parsed.value) != Some(raw.text) { return None; }
    payload := parsed;
  }

  lemma DocumentRead(v: Value)
    requires Printable(v)
    ensures ParseDocument(Print(v) + ['\n']) == Some(v)
  {
    hide Print, Printable, ParseValue;
    var s := Print(v) + ['\n'];
    PrintStarts(v);
    SkipNothing(s);
    ValueRead(v, ['\n']);
    assert ['\n'][1..] == [];
  }

  /** Reading what was printed gives the value back, its keys sorted. */
  lemma DecodeUndoesCanonical(v: Value, requireCanonical: bool)
    requires Printable(v) && WithinLimits(v) && Utf8Size(Canonical(v).value) <= MAX_RESOURCE_BYTES
    ensures Decode(Utf8(Canonical(v).value), requireCanonical) == Some(Normalize(v)) && KeysAscend(Normalize(v))
  {
    hide Print, Printable, ParseDocument, WithinLimits, Normalize, Utf8Size;
    NormalizeIsStable(v);
    NormalizeKeepsLimits(v);
    NormalizeAscends(v);
    DocumentRead(Normalize(v));
    PrintStarts(Normalize(v));
  }

  /** Accepted canonical documents and values within the limits whose keys ascend stand in bijection. */
  lemma CanonicalBijection(text: string, v: Value)
    ensures Decode(Utf8(text), true) == Some(v)
      <==>
        Printable(v) && KeysAscend(v) && WithinLimits(v) && Canonical(v) == Some(text)
        && Utf8Size(text) <= MAX_RESOURCE_BYTES
  {
    hide Print, Printable, ParseDocument, WithinLimits, Normalize, Utf8Size;
    if Printable(v) {
      NormalizeIsStable(v);
      FixedMeansAscending(v);
      DocumentRead(Normalize(v));
      PrintStarts(Normalize(v));
    }
  }

  /** Of the documents without blanks, canonical decoding accepts exactly those whose keys ascend. */
  lemma CanonicalIffAscending(v: Value)
    requires Printable(v) && WithinLimits(v) && Utf8Size(Print(v) + ['\n']) <= MAX_RESOURCE_BYTES
    ensures Decode(Utf8(Print(v) + ['\n']), false) == Some(v)
    ensures Decode(Utf8(Print(v) + ['\n']), true) == if KeysAscend(v) then Some(v) else None
  {
    hide Print, Printable, ParseDocument, WithinLimits, Normalize, Utf8Size;
    NormalizeIsStable(v);
    FixedMeansAscending(v);
    DocumentRead(v);
    DocumentRead(Normalize(v));
    PrintStarts(v);
  }
}
