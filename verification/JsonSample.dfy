/** One document through the canonical printer (scripts/smoke_wheel_catalog.py,
    `_canonical_json_bytes`): what every kind of value looks like. */
module JsonSample {
  import opened JsonLimits
  import opened JsonPrinter
  import opened JsonSorted
  import opened JsonRoundTrip
  import opened Numerals
  import opened Orders
  import opened Wrappers

  function A(): Text { ['a' as int] }

  function B(): Text { ['b' as int] }

  /** A quote, a backslash, a line break, a control character, a slash and a letter. */
  function Awkward(): Text { [0x22, 0x5C, 0x0A, 0x1F, 0x2F, 'z' as int] }

  function Numbers(): Value { List([Null, Bool(true), Int(-12)]) }

  function Document(): Value {
    Object([Member(Name(B()), String(Awkward())), Member(Name(A()), Numbers())])
  }

  function SortedDocument(): Value {
    Object([Member(Name(A()), Numbers()), Member(Name(B()), String(Awkward()))])
  }

  const FIRST_MEMBER: string := "\"a\":[null,true,-12]"
  const SECOND_MEMBER: string := "\"b\":\"\\\"\\\\\\n\\u001f/z\""
  const DOCUMENT: string := "{" + FIRST_MEMBER + "," + SECOND_MEMBER + "}\n"

  lemma OnePoint(p: Point, rest: Text)
    requires !Surrogate(p) && Encodable(rest)
    ensures Encodable([p] + rest) && PrintPoints([p] + rest) == PrintPoint(p) + PrintPoints(rest)
  {
    assert ([p] + rest)[1..] == rest;
  }

  lemma PlainPointsPrinted()
    ensures Encodable([0x2F, 'z' as int]) && PrintPoints([0x2F, 'z' as int]) == "/z"
  {
    OnePoint('z' as int, []);
    OnePoint(0x2F, ['z' as int]);
  }

  lemma ControlsPrinted()
    ensures PrintPoint(0x22) == "\\\"" && PrintPoint(0x5C) == "\\\\" && PrintPoint(0x0A) == "\\n"
    ensures PrintPoint(0x1F) == "\\u001f"
  {
  }

  lemma AwkwardPrinted()
    ensures Encodable(Awkward()) && PrintText(Awkward()) == "\"\\\"\\\\\\n\\u001f/z\""
  {
    hide PrintPoints, PrintPoint, Encodable;
    ControlsPrinted();
    PlainPointsPrinted();
    var plain: Text := [0x2F, 'z' as int];
    OnePoint(0x1F, plain);
    OnePoint(0x0A, [0x1F] + plain);
    OnePoint(0x5C, [0x0A] + ([0x1F] + plain));
    OnePoint(0x22, [0x5C] + ([0x0A] + ([0x1F] + plain)));
    assert Awkward() == [0x22] + ([0x5C] + ([0x0A] + ([0x1F] + plain)));
  }

  lemma OneItem(v: Value, rest: seq<Value>)
    requires Printable(v) && PrintableItems(rest)
    ensures PrintableItems([v] + rest)
    ensures PrintItems([v] + rest) == if rest == [] then Print(v) else Print(v) + [','] + PrintItems(rest)
  {
    hide Print, Printable;
    assert ([v] + rest)[1..] == rest;
  }

  lemma TwelvePrinted()
    ensures Printable(Int(-12)) && Print(Int(-12)) == "-12"
  {
    assert Numeral(Decimal, 12) == "12";
  }

  lemma NumbersPrinted()
    ensures Printable(Numbers()) && Print(Numbers()) == "[null,true,-12]"
  {
    TwelvePrinted();
    OneItem(Int(-12), []);
    OneItem(Bool(true), [Int(-12)]);
    OneItem(Null, [Bool(true)] + [Int(-12)]);
    assert [Null] + ([Bool(true)] + [Int(-12)]) == [Null, Bool(true), Int(-12)];
    assert Print(Numbers()) == ['['] + PrintItems([Null, Bool(true), Int(-12)]) + [']'];
  }

  lemma KeysPrinted()
    ensures Encodable(A()) && Encodable(B()) && PrintText(A()) == "\"a\"" && PrintText(B()) == "\"b\""
  {
    assert A()[1..] == [] && B()[1..] == [];
  }

  lemma NumbersAscend()
    ensures KeysAscend(Numbers())
  {
  }

  lemma FirstPrinted()
    ensures PrintableMember(Member(Name(A()), Numbers()))
    ensures PrintMember(Member(Name(A()), Numbers())) == FIRST_MEMBER
  {
    hide PrintText, Print, Encodable, Numbers;
    NumbersPrinted();
    KeysPrinted();
  }

  lemma SecondPrinted()
    ensures PrintableMember(Member(Name(B()), String(Awkward())))
    ensures PrintMember(Member(Name(B()), String(Awkward()))) == SECOND_MEMBER
  {
    hide PrintText, Encodable, Awkward;
    AwkwardPrinted();
    KeysPrinted();
  }

  lemma TwoPrinted(a: Member, b: Member)
    requires PrintableMember(a) && PrintableMember(b) && DistinctKeys([a, b])
    ensures Printable(Object([a, b])) && Print(Object([a, b])) == "{" + PrintMember(a) + "," + PrintMember(b) + "}"
  {
    hide PrintMember, PrintableMember, DistinctKeys;
    assert [a, b][1..] == [b] && [b][1..] == [];
    assert PrintableMembers([b]) && PrintableMembers([a, b]);
    assert PrintMembers([b]) == PrintMember(b);
  }

  lemma DocumentIsPrintable()
    ensures Printable(Document()) && Printable(SortedDocument())
  {
    hide PrintText, Encodable, Numbers, Awkward, Printable, PrintMember, PrintableMember;
    FirstPrinted();
    SecondPrinted();
    assert A()[0] != B()[0];
    TwoPrinted(Member(Name(A()), Numbers()), Member(Name(B()), String(Awkward())));
    TwoPrinted(Member(Name(B()), String(Awkward())), Member(Name(A()), Numbers()));
  }

  lemma DocumentSorts()
    ensures Printable(Document()) && Normalize(Document()) == SortedDocument()
  {
    hide PrintableItems, Encodable, Printable;
    DocumentIsPrintable();
    NumbersPrinted();
    NumbersAscend();
    FixedMeansAscending(Numbers());
    var a, b := Member(Name(A()), Numbers()), Member(Name(B()), String(Awkward()));
    assert [b, a][1..] == [a] && [a][1..] == [];
    assert NormalizeMembers([a]) == [a];
    assert NormalizeMembers([b, a]) == [b, a];
    assert Sort(KeyLeq, [a]) == [a];
    assert !KeyLeq(b, a);
  }

  lemma SortedDocumentPrinted()
    ensures Printable(SortedDocument()) && Print(SortedDocument()) + ['\n'] == DOCUMENT
  {
    hide PrintMember, PrintableMember, Print, Numbers, Awkward, FIRST_MEMBER, SECOND_MEMBER;
    FirstPrinted();
    SecondPrinted();
    assert A()[0] != B()[0];
    TwoPrinted(Member(Name(A()), Numbers()), Member(Name(B()), String(Awkward())));
  }

  /** A document with its keys out of order, as canonical bytes. */
  lemma DocumentIsCanonical()
    ensures Canonical(Document()) == Some(DOCUMENT)
  {
    hide Print, Printable, Normalize;
    DocumentSorts();
    SortedDocumentPrinted();
  }
}
