/** Canonical bytes are equal exactly for values that differ only in the order of object members
    (scripts/smoke_wheel_catalog.py, `_canonical_json_bytes`). */
module JsonCanonical {
  import opened JsonLimits
  import opened JsonPrinter
  import opened JsonParser
  import opened JsonNormal
  import opened JsonRoundTrip
  import opened Orders

  /** Equal up to the order of members, at any depth. */
  ghost predicate Same(v: Value, w: Value)
    decreases v
  {
    match v
    case List(items) => w.List? && SameItems(items, w.items)
    case Object(members) =>
      && w.Object? && |members| == |w.members|
      && forall i | 0 <= i < |members| :: HasMember(members[i], w.members)
    case _ => v == w
  }

  ghost predicate SameItems(items: seq<Value>, others: seq<Value>)
    decreases items
  {
    |items| == |others| && (items == [] || (Same(items[0], others[0]) && SameItems(items[1..], others[1..])))
  }

  ghost predicate HasMember(m: Member, others: seq<Member>)
    decreases m
  {
    exists j :: 0 <= j < |others| && others[j].key == m.key && Same(m.value, others[j].value)
  }

  lemma {:induction false} SameIsNormalEquality(v: Value, w: Value)
    requires Printable(v) && Printable(w)
    ensures Same(v, w) <==> Normalize(v) == Normalize(w)
    decreases v
  {
    match v
    case List(items) =>
      if w.List? { SameItemsIsNormalEquality(items, w.items); }
    case Object(members) =>
      if w.Object? {
        PrintableByMember(members);
        forall i | 0 <= i < |members|
          ensures HasMember(members[i], w.members) <==> Occurs(members[i], w.members)
        {
          assert PrintableMember(members[i]);
          HasMemberIsNormalMember(members[i], w.members);
        }
        ObjectsAgree(members, w.members);
      }
    case _ =>
  }

  lemma {:induction false} SameItemsIsNormalEquality(items: seq<Value>, others: seq<Value>)
    requires PrintableItems(items) && PrintableItems(others)
    ensures SameItems(items, others) <==> NormalizeItems(items) == NormalizeItems(others)
    decreases items
  {
    hide Same, Normalize, Printable;
    NormalizeItemsLength(items);
    NormalizeItemsLength(others);
    if items != [] && others != [] {
      SameIsNormalEquality(items[0], others[0]);
      SameItemsIsNormalEquality(items[1..], others[1..]);
      assert NormalizeItems(items)[0] == Normalize(items[0])
        && NormalizeItems(items)[1..] == NormalizeItems(items[1..]);
      assert NormalizeItems(others)[0] == Normalize(others[0])
        && NormalizeItems(others)[1..] == NormalizeItems(others[1..]);
    }
  }

  lemma {:induction false} NormalizeItemsLength(items: seq<Value>)
    ensures |NormalizeItems(items)| == |items|
  {
    if items != [] { NormalizeItemsLength(items[1..]); }
  }

  predicate NormalAt(m: Member, others: seq<Member>, j: int) {
    0 <= j < |others| && NormalizeMember(m) == NormalizeMember(others[j])
  }

  ghost predicate Occurs(m: Member, others: seq<Member>) { exists j :: NormalAt(m, others, j) }

  ghost predicate AllOccur(members: seq<Member>, others: seq<Member>) {
    |members| == |others| && forall i | 0 <= i < |members| :: Occurs(members[i], others)
  }

  lemma {:induction false} HasMemberIsNormalMember(m: Member, others: seq<Member>)
    requires PrintableMember(m) && PrintableMembers(others)
    ensures HasMember(m, others) <==> Occurs(m, others)
    decreases m
  {
    hide Same, Normalize, Printable;
    PrintableByMember(others);
    forall j | 0 <= j < |others|
      ensures Same(m.value, others[j].value) <==> Normalize(m.value) == Normalize(others[j].value)
    {
      assert PrintableMember(others[j]);
      SameIsNormalEquality(m.value, others[j].value);
    }
    if j :| NormalAt(m, others, j) {
      assert others[j].key == m.key && Same(m.value, others[j].value);
    }
    if HasMember(m, others) {
      var j :| 0 <= j < |others| && others[j].key == m.key && Same(m.value, others[j].value);
      assert NormalAt(m, others, j);
    }
  }

  /** Dictionaries of equal size where each member of one occurs in the other sort the same. */
  lemma ObjectsAgree(a: seq<Member>, b: seq<Member>)
    requires DistinctKeys(a) && DistinctKeys(b) && PrintableMembers(a) && PrintableMembers(b)
    ensures Sort(KeyLeq, NormalizeMembers(a)) == Sort(KeyLeq, NormalizeMembers(b)) <==> AllOccur(a, b)
  {
    hide KeyLeq, NormalizeMember, NormalizeMembers, PrintableMember, PrintableMembers, DistinctKeys, Sort;
    var x, y := NormalizeMembers(a), NormalizeMembers(b);
    NormalizeMembersKeys(a);
    NormalizeMembersKeys(b);
    NormalNames(a);
    NormalNames(b);
    KeyOrder();
    SortSorts(KeyLeq, x);
    SortSorts(KeyLeq, y);
    if Sort(KeyLeq, x) == Sort(KeyLeq, y) {
      SameLength(x, y);
      forall i | 0 <= i < |a| ensures Occurs(a[i], b) {
        assert x[i] in multiset(y);
        var j :| 0 <= j < |y| && y[j] == x[i];
        assert NormalAt(a[i], b, j);
      }
    }
    if AllOccur(a, b) {
      forall i | 0 <= i < |x| ensures x[i] in y {
        assert Occurs(a[i], b);
        var j :| NormalAt(a[i], b, j);
        assert y[j] == x[i];
      }
      DistinctMembersMatch(x, y);
      SortedAlike(x, y);
    }
  }

  lemma NormalNames(members: seq<Member>)
    requires PrintableMembers(members)
    ensures Named(NormalizeMembers(members))
  {
    PrintableByMember(members);
    NormalizeMembersKeys(members);
    forall i | 0 <= i < |members| ensures NormalizeMembers(members)[i].key.Name? {
      assert PrintableMember(members[i]);
    }
  }

  lemma SortedAlike(x: seq<Member>, y: seq<Member>)
    requires multiset(x) == multiset(y) && Named(x) && DistinctKeys(x)
    ensures Sort(KeyLeq, x) == Sort(KeyLeq, y)
  {
    hide KeyLeq, DistinctKeys, NoTies, Sort;
    KeyOrder();
    SortSorts(KeyLeq, x);
    SortSorts(KeyLeq, y);
    var sorted := Sort(KeyLeq, x);
    DistinctRearranged(x, sorted);
    forall i | 0 <= i < |sorted| ensures sorted[i].key.Name? {
      assert sorted[i] in multiset(x);
      assert sorted[i] in x;
    }
    DistinctHaveNoTies(sorted);
    AscendingIsUnique(KeyLeq, sorted, Sort(KeyLeq, y));
  }

  lemma {:induction false} DistinctMembersMatch(x: seq<Member>, y: seq<Member>)
    requires DistinctKeys(x) && DistinctKeys(y) && |x| == |y|
    requires forall i | 0 <= i < |x| :: x[i] in y
    ensures multiset(x) == multiset(y)
    decreases |x|
  {
    hide DistinctKeys;
    if x != [] {
      var last := |x| - 1;
      PrefixDistinct(x);
      var m := x[last];
      var k :| 0 <= k < |y| && y[k] == m;
      var l, r := y[..k], y[k + 1..];
      assert y == l + ([m] + r);
      DistinctRemoved(l, m, r);
      StillThere(x, last, l, m, r);
      DistinctMembersMatch(x[..last], l + r);
      BagWith(x, l, m, r);
    }
  }

  lemma StillThere(x: seq<Member>, last: nat, l: seq<Member>, m: Member, r: seq<Member>)
    requires last < |x| && forall i | 0 <= i < |x| :: x[i] in l + ([m] + r)
    requires forall i | 0 <= i < last :: x[i] != m
    ensures forall i | 0 <= i < last :: x[..last][i] in l + r
  {
    forall i | 0 <= i < last ensures x[..last][i] in l + r {
      assert x[i] in l + ([m] + r);
    }
  }

  lemma PrefixDistinct(x: seq<Member>)
    requires DistinctKeys(x) && x != []
    ensures DistinctKeys(x[..|x| - 1]) && forall i | 0 <= i < |x| - 1 :: x[i] != x[|x| - 1]
  {
  }

  lemma DistinctRemoved(l: seq<Member>, m: Member, r: seq<Member>)
    requires DistinctKeys(l + ([m] + r))
    ensures DistinctKeys(l + r)
  {
    var y := l + ([m] + r);
    forall i, j | 0 <= i < j < |l + r| ensures (l + r)[i].key != (l + r)[j].key {
      var s, t := if i < |l| then i else i + 1, if j < |l| then j else j + 1;
      assert (l + r)[i] == y[s] && (l + r)[j] == y[t];
    }
  }

  lemma BagWith(x: seq<Member>, l: seq<Member>, m: Member, r: seq<Member>)
    requires x != [] && x[|x| - 1] == m && multiset(x[..|x| - 1]) == multiset(l + r)
    ensures multiset(x) == multiset(l + ([m] + r))
  {
    assert x == x[..|x| - 1] + [m];
    assert multiset(l + r) == multiset(l) + multiset(r);
    assert multiset(l + ([m] + r)) == multiset(l) + (multiset{m} + multiset(r));
  }

  /** Canonical bytes see a value up to the order of its members, and nothing less. */
  lemma CanonicalSeesValues(v: Value, w: Value)
    requires Printable(v) && Printable(w)
    ensures Canonical(v) == Canonical(w) <==> Same(v, w)
  {
    hide Printable, Normalize, Same, Print, ParseDocument;
    SameIsNormalEquality(v, w);
    NormalizeIsStable(v);
    NormalizeIsStable(w);
    DocumentRead(Normalize(v));
    DocumentRead(Normalize(w));
  }
}
