/** What the strict reader lets through (scripts/smoke_wheel_catalog.py, the hooks of
    `_decode_json_bytes`): no floats, no second spelling of a number, no key twice. */
module JsonStrict {
  import opened JsonLimits
  import opened JsonPrinter
  import opened JsonParser
  import opened Numerals

  // ---- Numbers ----

  predicate Decimals(s: string) { forall i | 0 <= i < |s| :: '0' <= s[i] <= '9' }

  lemma {:induction false} DigitRunIs(s: string)
    ensures Decimals(s[..DigitRun(s)])
    ensures DigitRun(s) < |s| ==> !Digit(s[DigitRun(s)])
  {
    if s != [] && Digit(s[0]) {
      DigitRunIs(s[1..]);
      assert s[..DigitRun(s)] == [s[0]] + s[1..][..DigitRun(s[1..])];
    }
  }

  lemma {:induction false} LeadingDigitCounts(digits: string)
    requires digits != [] && Decimals(digits) && digits[0] != '0'
    ensures ValueOf(Decimal, digits) > 0
  {
    if |digits| > 1 { LeadingDigitCounts(digits[..|digits| - 1]); }
  }

  /** Digits without a leading zero are the numeral of their value. */
  lemma {:induction false} NumeralOfValue(digits: string)
    requires digits != [] && Decimals(digits) && (|digits| > 1 ==> digits[0] != '0')
    ensures Numeral(Decimal, ValueOf(Decimal, digits)) == digits
  {
    var last := |digits| - 1;
    assert digits == digits[..last] + [digits[last]];
    if last == 0 {
      assert digits[..0] == [] && ValueOf(Decimal, digits) == DigitValue(digits[0]);
    } else {
      NumeralOfValue(digits[..last]);
      LeadingDigitCounts(digits[..last]);
      var n := ValueOf(Decimal, digits);
      assert n == 10 * ValueOf(Decimal, digits[..last]) + DigitValue(digits[last]);
      assert n / 10 == ValueOf(Decimal, digits[..last]) && n % 10 == DigitValue(digits[last]);
    }
  }

  lemma MagnitudeIsNumeral(s: string, negative: bool)
    requires ParseMagnitude(s, negative).Done?
    ensures var r := ParseMagnitude(s, negative);
      && s == Numeral(Decimal, Magnitude(r.value)) + r.rest && |s| - |r.rest| <= 4300
      && (if negative then r.value < 0 else r.value >= 0)
      && !FloatFollows(r.rest)
  {
    hide Numeral, ValueOf, FloatFollows;
    DigitRunIs(s);
    var n := if s[0] == '0' then 1 else DigitRun(s);
    assert Decimals(s[..n]);
    NumeralOfValue(s[..n]);
    if s[0] != '0' { LeadingDigitCounts(s[..n]); }
    assert s == s[..n] + s[n..];
  }

  /** A number that is read is spelled as it would be printed, in 4300 digits at most, and neither a
      fraction nor an exponent follows it. */
  lemma NumbersAreWhole(s: string)
    requires s != [] && ParseInt(s).Done?
    ensures var r := ParseInt(s);
      && r.value.Int? && s == PrintInt(r.value.number) + r.rest
      && |Numeral(Decimal, Magnitude(r.value.number))| <= 4300
      && forall d: char | '0' <= d <= '9' ::
        && !(['.', d] <= r.rest) && !(['e', d] <= r.rest) && !(['E', d] <= r.rest)
        && !(['e', '+', d] <= r.rest) && !(['e', '-', d] <= r.rest)
        && !(['E', '+', d] <= r.rest) && !(['E', '-', d] <= r.rest)
  {
    hide Numeral, ParseMagnitude;
    if s[0] == '-' {
      MagnitudeIsNumeral(s[1..], true);
      assert s == ['-'] + s[1..];
    } else {
      MagnitudeIsNumeral(s, false);
    }
  }

  // ---- Values ----

  /** Nothing but JSON without floats, and every object a dictionary. */
  predicate Strict(v: Value)
    decreases v
  {
    match v
    case Foreign => false
    case List(items) => forall i | 0 <= i < |items| :: Strict(items[i])
    case Object(members) =>
      && (forall i, j | 0 <= i < j < |members| :: members[i].key != members[j].key)
      && (forall i | 0 <= i < |members| :: members[i].key.Name? && Strict(members[i].value))
    case _ => true
  }

  ghost predicate AllStrict(items: seq<Value>) { forall i | 0 <= i < |items| :: Strict(items[i]) }

  ghost predicate MembersStrict(members: seq<Member>) {
    forall i | 0 <= i < |members| :: members[i].key.Name? && Strict(members[i].value)
  }

  /** Whatever is read is strict. */
  lemma {:induction false} ReadIsStrict(s: string)
    requires ParseValue(s).Done?
    ensures Strict(ParseValue(s).value)
    decreases |s|, 0
  {
    hide ParseText, ParseMembers, ParseItems, ParseWord, ParseInt, ParseMember;
    if s[0] == '[' {
      var inside := Skip(s[1..]);
      if inside == [] || inside[0] != ']' { ItemsAreStrict(inside, []); }
    } else if s[0] == '{' {
      var inside := Skip(s[1..]);
      if inside == [] || inside[0] != '}' { MembersAreStrict(inside, []); }
    } else {
      WordsAreStrict(s);
    }
  }

  lemma WordsAreStrict(s: string)
    requires s != [] && s[0] != '[' && s[0] != '{' && ParseValue(s).Done?
    ensures Strict(ParseValue(s).value)
  {
    hide ParseText, ParseMagnitude;
  }

  lemma {:induction false} ItemsAreStrict(s: string, items: seq<Value>)
    requires ParseItems(s, items).Done? && AllStrict(items)
    ensures Strict(ParseItems(s, items).value)
    decreases |s|, 1
  {
    hide ParseValue, Strict;
    ReadIsStrict(s);
    var v, rest := ParseValue(s).value, ParseValue(s).rest;
    var next := Skip(rest);
    if next[0] == ']' {
      ListIsStrict(items + [v]);
    } else {
      ItemsAreStrict(Skip(next[1..]), items + [v]);
    }
  }

  lemma ListIsStrict(items: seq<Value>)
    requires AllStrict(items)
    ensures Strict(List(items))
  {
  }

  lemma ObjectIsStrict(members: seq<Member>)
    requires MembersStrict(members) && DistinctKeys(members)
    ensures Strict(Object(members))
  {
  }

  lemma {:induction false} MembersAreStrict(s: string, members: seq<Member>)
    requires ParseMembers(s, members).Done? && MembersStrict(members)
    ensures Strict(ParseMembers(s, members).value)
    decreases |s|, 2
  {
    hide ParseMember, Strict, DistinctKeys;
    MemberIsStrict(s);
    var m, rest := ParseMember(s).value, ParseMember(s).rest;
    var next := Skip(rest);
    if next[0] == '}' {
      ObjectIsStrict(members + [m]);
    } else {
      MembersAreStrict(Skip(next[1..]), members + [m]);
    }
  }

  lemma {:induction false} MemberIsStrict(s: string)
    requires ParseMember(s).Done?
    ensures ParseMember(s).value.key.Name? && Strict(ParseMember(s).value.value)
    decreases |s|, 1
  {
    hide ParseValue, ParseText, Strict;
    var rest := ParseText(s[1..]).rest;
    var colon := Skip(rest);
    ReadIsStrict(Skip(colon[1..]));
  }
}
