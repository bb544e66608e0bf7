/** The canonical printer of scripts/smoke_wheel_catalog.py (`_canonical_json_bytes`): sorted keys,
    no spaces, and every character that JSON allows bare left bare.

    Text is compared as code points; its UTF-8 encoding is a bijection. */
module JsonPrinter {
  import opened JsonLimits
  import opened Numerals
  import opened Orders

  predicate Surrogate(p: Point) { 0xD800 <= p < 0xE000 }

  /** The letter of a two-character escape, or '-'. */
  function EscapeLetter(p: Point): char {
    if p == '"' as int then '"'
    else if p == '\\' as int then '\\'
    else if p == 0x08 then 'b'
    else if p == 0x0C then 'f'
    else if p == 0x0A then 'n'
    else if p == 0x0D then 'r'
    else if p == 0x09 then 't'
    else '-'
  }

  function PrintPoint(p: Point): (s: string)
    requires !Surrogate(p)
    ensures |s| >= 1
  {
    if EscapeLetter(p) != '-' then ['\\', EscapeLetter(p)]
    else if p < 0x20 then ['\\', 'u', '0', '0', DigitChar(p / 16), DigitChar(p % 16)]
    else [p as char]
  }

  /** Text that UTF-8 can carry. */
  predicate Encodable(t: Text) { forall i | 0 <= i < |t| :: !Surrogate(t[i]) }

  function PrintPoints(t: Text): string
    requires Encodable(t)
  {
    if t == [] then [] else PrintPoint(t[0]) + PrintPoints(t[1..])
  }

  function PrintText(t: Text): string
    requires Encodable(t)
  {
    ['"'] + PrintPoints(t) + ['"']
  }

  /** `sys.get_int_max_str_digits()`: longer numbers are neither read nor written. */
  const MAX_INT_DIGITS: nat := 4300

  function Magnitude(n: int): nat { if n < 0 then -n else n }

  function PrintInt(n: int): string {
    if n < 0 then ['-'] + Numeral(Decimal, -n) else Numeral(Decimal, n)
  }

  predicate DistinctKeys(members: seq<Member>) {
    forall i, j | 0 <= i < j < |members| :: members[i].key != members[j].key
  }

  /** What can be printed: JSON without floats, with keys and text that UTF-8 can carry, and
      objects that are dictionaries. */
  predicate Printable(v: Value)
    decreases v
  {
    match v
    case Int(n) => |Numeral(Decimal, Magnitude(n))| <= MAX_INT_DIGITS
    case String(t) => Encodable(t)
    case Foreign => false
    case List(items) => PrintableItems(items)
    case Object(members) => DistinctKeys(members) && PrintableMembers(members)
    case _ => true
  }

  predicate PrintableItems(items: seq<Value>)
    decreases items
  {
    items == [] || (Printable(items[0]) && PrintableItems(items[1..]))
  }

  predicate PrintableMember(m: Member)
    decreases m
  {
    m.key.Name? && Encodable(m.key.text) && Printable(m.value)
  }

  predicate PrintableMembers(members: seq<Member>)
    decreases members
  {
    members == [] || (PrintableMember(members[0]) && PrintableMembers(members[1..]))
  }

  function Print(v: Value): string
    requires Printable(v)
    decreases v
  {
    match v
    case Null => "null"
    case Bool(flag) => if flag then "true" else "false"
    case Int(n) => PrintInt(n)
    case String(t) => PrintText(t)
    case List(items) => ['['] + PrintItems(items) + [']']
    case Object(members) => ['{'] + PrintMembers(members) + ['}']
  }

  function PrintItems(items: seq<Value>): string
    requires PrintableItems(items)
    decreases items
  {
    if items == [] then []
    else if |items| == 1 then Print(items[0])
    else Print(items[0]) + [','] + PrintItems(items[1..])
  }

  function PrintMember(m: Member): string
    requires PrintableMember(m)
    decreases m
  {
    PrintText(m.key.text) + [':'] + Print(m.value)
  }

  function PrintMembers(members: seq<Member>): string
    requires PrintableMembers(members)
    decreases members
  {
    if members == [] then []
    else if |members| == 1 then PrintMember(members[0])
    else PrintMember(members[0]) + [','] + PrintMembers(members[1..])
  }

  // ---- Sorted keys ----

  predicate PointLeq(a: Point, b: Point) { a <= b }

  predicate TextLeq(a: Text, b: Text) { LexLeq(PointLeq, a, b) }

  function KeyText(m: Member): Text { if m.key.Name? then m.key.text else [] }

  predicate KeyLeq(a: Member, b: Member) { TextLeq(KeyText(a), KeyText(b)) }

  /** The same value with every object sorted by key: what `sort_keys` prints. */
  function Normalize(v: Value): Value
    decreases v
  {
    match v
    case List(items) => List(NormalizeItems(items))
    case Object(members) => Object(Sort(KeyLeq, NormalizeMembers(members)))
    case _ => v
  }

  function NormalizeItems(items: seq<Value>): seq<Value>
    decreases items
  {
    if items == [] then [] else [Normalize(items[0])] + NormalizeItems(items[1..])
  }

  function NormalizeMember(m: Member): Member
    decreases m
  {
    Member(m.key, Normalize(m.value))
  }

  function NormalizeMembers(members: seq<Member>): seq<Member>
    decreases members
  {
    if members == [] then [] else [NormalizeMember(members[0])] + NormalizeMembers(members[1..])
  }
}
