/** Sorting the keys of a JSON value: what it keeps, and that it is canonical. */
module JsonNormal {
  import opened JsonLimits
  import opened JsonPrinter
  import opened Orders

  lemma TextOrder()
    ensures TotalOrder(TextLeq)
  {
    hide TextLeq;
    PointOrder();
    forall x ensures TextLeq(x, x) { TextAsLex(x, x); LexReflexive(PointLeq, x); }
    forall x, y | TextLeq(x, y) && TextLeq(y, x) ensures x == y {
      TextAsLex(x, y);
      TextAsLex(y, x);
      LexAntisymmetric(PointLeq, x, y);
    }
    forall x, y, z | TextLeq(x, y) && TextLeq(y, z) ensures TextLeq(x, z) {
      TextAsLex(x, y);
      TextAsLex(y, z);
      TextAsLex(x, z);
      LexTransitive(PointLeq, x, y, z);
    }
    forall x, y ensures TextLeq(x, y) || TextLeq(y, x) {
      TextAsLex(x, y);
      TextAsLex(y, x);
      LexConnected(PointLeq, x, y);
    }
  }

  lemma TextAsLex(x: Text, y: Text)
    ensures TextLeq(x, y) == LexLeq(PointLeq, x, y)
  {
  }

  lemma PointOrder()
    ensures TotalOrder(PointLeq)
  {
  }

  lemma KeyOrder()
    ensures TotalPreorder(KeyLeq)
  {
    hide TextLeq;
    TextOrder();
  }

  predicate Named(members: seq<Member>) { forall i | 0 <= i < |members| :: members[i].key.Name? }

  lemma DistinctHaveNoTies(members: seq<Member>)
    requires Named(members) && DistinctKeys(members)
    ensures NoTies(KeyLeq, members)
  {
    hide TextLeq;
    TextOrder();
    forall i, j | 0 <= i < |members| && 0 <= j < |members| && KeyLeq(members[i], members[j])
      && KeyLeq(members[j], members[i])
      ensures members[i] == members[j]
    {
      assert members[i].key == members[j].key;
      assert i == j;
    }
  }

  // ---- Members with one key each ----

  lemma {:induction false} DistinctRearranged(a: seq<Member>, b: seq<Member>)
    requires multiset(a) == multiset(b) && DistinctKeys(a)
    ensures DistinctKeys(b)
    decreases |a|
  {
    SameLength(a, b);
    if a != [] {
      var l: seq<Member>, r: seq<Member> := Without(a, b);
      var last := |a| - 1;
      DistinctRearranged(a[..last], l + r);
      forall i | 0 <= i < |l + r| ensures (l + r)[i].key != a[last].key {
        assert (l + r)[i] in multiset(a[..last]);
      }
      DistinctInserted(l, a[last], r);
    }
  }

  lemma DistinctInserted(l: seq<Member>, m: Member, r: seq<Member>)
    requires DistinctKeys(l + r)
    requires forall i | 0 <= i < |l + r| :: (l + r)[i].key != m.key
    ensures DistinctKeys(l + ([m] + r))
  {
    var b := l + ([m] + r);
    forall i, j | 0 <= i < j < |b| ensures b[i].key != b[j].key {
      var at := (k: int) => if k < |l| then k else k - 1;
      if i != |l| { assert b[i] == (l + r)[at(i)]; }
      if j != |l| { assert b[j] == (l + r)[at(j)]; }
    }
  }

  lemma {:induction false} PrintableByMember(members: seq<Member>)
    ensures PrintableMembers(members) <==> forall i | 0 <= i < |members| :: PrintableMember(members[i])
  {
    hide PrintableMember;
    if members != [] { PrintableByMember(members[1..]); }
  }

  lemma PrintableRearranged(a: seq<Member>, b: seq<Member>)
    requires multiset(a) == multiset(b)
    ensures PrintableMembers(a) ==> PrintableMembers(b)
  {
    hide PrintableMember, PrintableMembers;
    PrintableByMember(a);
    PrintableByMember(b);
    assert forall m :: m in a <==> m in multiset(a);
    if PrintableMembers(a) {
      forall i | 0 <= i < |b| ensures PrintableMember(b[i]) { assert b[i] in multiset(b); }
    }
  }

  lemma {:induction false} NormalizeMembersKeys(members: seq<Member>)
    ensures |NormalizeMembers(members)| == |members|
    ensures forall i | 0 <= i < |members| :: NormalizeMembers(members)[i] == NormalizeMember(members[i])
    ensures DistinctKeys(members) ==> DistinctKeys(NormalizeMembers(members))
  {
    if members != [] { NormalizeMembersKeys(members[1..]); }
  }

  // ---- Printable values stay printable, and a second pass changes nothing ----

  lemma {:induction false} NormalizeIsStable(v: Value)
    requires Printable(v)
    ensures Printable(Normalize(v)) && Normalize(Normalize(v)) == Normalize(v)
    decreases v
  {
    match v
    case List(items) => NormalizeItemsIsStable(items);
    case Object(members) =>
      NormalizeMembersIsStable(members);
      ObjectIsStable(members, NormalizeMembers(members));
    case _ =>
  }

  lemma {:induction false} NormalizeItemsIsStable(items: seq<Value>)
    requires PrintableItems(items)
    ensures PrintableItems(NormalizeItems(items)) && NormalizeItems(NormalizeItems(items)) == NormalizeItems(items)
    decreases items
  {
    hide Printable, Normalize;
    if items != [] {
      NormalizeIsStable(items[0]);
      NormalizeItemsIsStable(items[1..]);
      assert NormalizeItems(items)[1..] == NormalizeItems(items[1..]);
    }
  }

  lemma {:induction false} NormalizeMemberIsStable(m: Member)
    requires PrintableMember(m)
    ensures PrintableMember(NormalizeMember(m)) && NormalizeMember(NormalizeMember(m)) == NormalizeMember(m)
    decreases m
  {
    hide Printable, Normalize;
    NormalizeIsStable(m.value);
  }

  lemma {:induction false} NormalizeMembersIsStable(members: seq<Member>)
    requires PrintableMembers(members)
    ensures PrintableMembers(NormalizeMembers(members))
    ensures NormalizeMembers(NormalizeMembers(members)) == NormalizeMembers(members)
    decreases members
  {
    hide PrintableMember, NormalizeMember;
    if members != [] {
      NormalizeMemberIsStable(members[0]);
      NormalizeMembersIsStable(members[1..]);
      assert NormalizeMembers(members)[1..] == NormalizeMembers(members[1..]);
    }
  }

  /** Members that a pass leaves alone are left alone in any arrangement. */
  lemma {:induction false} FixedByMember(members: seq<Member>)
    ensures NormalizeMembers(members) == members
      <==> forall i | 0 <= i < |members| :: NormalizeMember(members[i]) == members[i]
  {
    hide NormalizeMember;
    if members != [] {
      FixedByMember(members[1..]);
      assert members == [members[0]] + members[1..];
    }
  }

  lemma FixedRearranged(a: seq<Member>, b: seq<Member>)
    requires multiset(a) == multiset(b) && NormalizeMembers(a) == a
    ensures NormalizeMembers(b) == b
  {
    hide NormalizeMember, NormalizeMembers;
    FixedByMember(a);
    FixedByMember(b);
    forall i | 0 <= i < |b| ensures NormalizeMember(b[i]) == b[i] {
      assert b[i] in multiset(a);
      assert b[i] in a;
    }
  }

  lemma ObjectIsStable(members: seq<Member>, normal: seq<Member>)
    requires DistinctKeys(members) && normal == NormalizeMembers(members)
    requires PrintableMembers(normal) && NormalizeMembers(normal) == normal
    ensures Printable(Object(Sort(KeyLeq, normal)))
    ensures Normalize(Object(Sort(KeyLeq, normal))) == Object(Sort(KeyLeq, normal))
  {
    hide PrintableMember, PrintableMembers, NormalizeMember, NormalizeMembers, KeyLeq, DistinctKeys, TotalPreorder,
      Ascending, Insert, Sort;
    var sorted := Sort(KeyLeq, normal);
    KeyOrder();
    SortSorts(KeyLeq, normal);
    NormalizeMembersKeys(members);
    DistinctRearranged(normal, sorted);
    PrintableRearranged(normal, sorted);
    FixedRearranged(normal, sorted);
    SortFixesAscending(KeyLeq, sorted);
  }

  // ---- Sizes, depths and types stay the same ----

  function NodesOfItems(items: seq<Value>): nat {
    if items == [] then 0 else Nodes(items[0]) + NodesOfItems(items[1..])
  }

  lemma {:induction false} NodesFromItems(v: Value, i: nat)
    requires i <= |Children(v)|
    ensures NodesFrom(v, i) == NodesOfItems(Children(v)[i..])
    decreases |Children(v)| - i
  {
    hide Children, Nodes;
    if i < |Children(v)| {
      NodesFromItems(v, i + 1);
      assert Children(v)[i..][1..] == Children(v)[i + 1..];
    }
  }

  lemma {:induction false} NodesOfBag(a: seq<Value>, b: seq<Value>)
    requires multiset(a) == multiset(b)
    ensures NodesOfItems(a) == NodesOfItems(b)
    decreases |a|
  {
    hide Nodes;
    SameLength(a, b);
    if a != [] {
      var l, r := Without(a, b);
      var last := |a| - 1;
      NodesOfBag(a[..last], l + r);
      NodesSplit(a[..last], [a[last]]);
      assert a == a[..last] + [a[last]];
      NodesSplit(l, [a[last]] + r);
      NodesSplit([a[last]], r);
      NodesSplit(l, r);
    }
  }

  lemma {:induction false} NodesSplit(a: seq<Value>, b: seq<Value>)
    ensures NodesOfItems(a + b) == NodesOfItems(a) + NodesOfItems(b)
  {
    hide Nodes;
    if a == [] {
      assert a + b == b;
    } else {
      NodesSplit(a[1..], b);
      assert (a + b)[1..] == a[1..] + b;
    }
  }

  function Values(members: seq<Member>): seq<Value> { Children(Object(members)) }

  lemma {:induction false} ValuesOfBag(a: seq<Member>, b: seq<Member>)
    requires multiset(a) == multiset(b)
    ensures multiset(Values(a)) == multiset(Values(b))
    decreases |a|
  {
    hide Values;
    SameLength(a, b);
    if a == [] {
    } else {
      var l, r := Without(a, b);
      var last := |a| - 1;
      ValuesOfBag(a[..last], l + r);
      assert a == a[..last] + [a[last]];
      ValuesSplit(a[..last], [a[last]]);
      ValuesSplit(l, [a[last]] + r);
      ValuesSplit([a[last]], r);
      ValuesSplit(l, r);
    }
  }

  lemma ValuesSplit(a: seq<Member>, b: seq<Member>)
    ensures Values(a + b) == Values(a) + Values(b)
  {
  }

  /** Two values with the same node type and the same bag of children, up to normalizing each. */
  lemma {:induction false} NormalizeKeepsNodes(v: Value)
    ensures Nodes(Normalize(v)) == Nodes(v)
    decreases v
  {
    match v
    case List(items) =>
      NormalizeItemsKeeps(items);
      NodesFromItems(v, 0);
      NodesFromItems(Normalize(v), 0);
      assert Children(v)[0..] == items && Children(Normalize(v))[0..] == NormalizeItems(items);
    case Object(members) =>
      NormalizeMembersKeeps(members);
      var normal := NormalizeMembers(members);
      KeyOrder();
      SortSorts(KeyLeq, normal);
      ValuesOfBag(Sort(KeyLeq, normal), normal);
      NodesOfBag(Values(Sort(KeyLeq, normal)), Values(normal));
      NodesFromItems(v, 0);
      NodesFromItems(Normalize(v), 0);
      assert Children(v)[0..] == Values(members) && Children(Normalize(v))[0..] == Values(Sort(KeyLeq, normal));
    case _ =>
  }

  lemma {:induction false} NormalizeItemsKeeps(items: seq<Value>)
    ensures NodesOfItems(NormalizeItems(items)) == NodesOfItems(items)
    decreases items
  {
    hide Nodes, Normalize;
    if items != [] {
      NormalizeKeepsNodes(items[0]);
      NormalizeItemsKeeps(items[1..]);
      assert NormalizeItems(items)[1..] == NormalizeItems(items[1..]);
    }
  }

  lemma {:induction false} NormalizeMemberKeeps(m: Member)
    ensures Nodes(NormalizeMember(m).value) == Nodes(m.value)
    decreases m
  {
    NormalizeKeepsNodes(m.value);
  }

  lemma {:induction false} NormalizeMembersKeeps(members: seq<Member>)
    ensures NodesOfItems(Values(NormalizeMembers(members))) == NodesOfItems(Values(members))
    decreases members
  {
    hide Nodes, NormalizeMember;
    if members != [] {
      NormalizeMemberKeeps(members[0]);
      NormalizeMembersKeeps(members[1..]);
      assert NormalizeMembers(members)[1..] == NormalizeMembers(members[1..]);
      assert Values(members)[1..] == Values(members[1..]);
      assert Values(NormalizeMembers(members))[1..] == Values(NormalizeMembers(members[1..]));
    } else {
      assert Values(members) == [] && Values(NormalizeMembers(members)) == [];
    }
  }

  ghost predicate AllWithin(values: seq<Value>, depth: int) { forall i | 0 <= i < |values| :: Within(values[i], depth) }

  lemma WithinOpens(v: Value, depth: int)
    ensures Within(v, depth) <==> depth >= 0 && AllWithin(Children(v), depth - 1)
  {
    hide Children;
  }

  lemma AllWithinRearranged(a: seq<Value>, b: seq<Value>, depth: int)
    requires multiset(a) == multiset(b) && AllWithin(a, depth)
    ensures AllWithin(b, depth)
  {
    hide Within;
    forall i | 0 <= i < |b| ensures Within(b[i], depth) {
      assert b[i] in multiset(a);
      assert b[i] in a;
    }
  }

  lemma {:induction false} NormalizeKeepsDepth(v: Value, depth: int)
    ensures Within(Normalize(v), depth) == Within(v, depth)
    decreases v
  {
    hide Within, AllWithin, KeyLeq, Sort, Insert;
    WithinOpens(v, depth);
    WithinOpens(Normalize(v), depth);
    match v
    case List(items) => NormalizeItemsKeepDepth(items, depth - 1);
    case Object(members) =>
      NormalizeMembersKeepDepth(members, depth - 1);
      SortedKeepDepth(NormalizeMembers(members), depth - 1);
    case _ =>
  }

  lemma SortedKeepDepth(members: seq<Member>, depth: int)
    ensures AllWithin(Values(Sort(KeyLeq, members)), depth) == AllWithin(Values(members), depth)
  {
    hide AllWithin, Values, KeyLeq;
    KeyOrder();
    SortSorts(KeyLeq, members);
    ValuesOfBag(Sort(KeyLeq, members), members);
    if AllWithin(Values(members), depth) {
      AllWithinRearranged(Values(members), Values(Sort(KeyLeq, members)), depth);
    }
    if AllWithin(Values(Sort(KeyLeq, members)), depth) {
      AllWithinRearranged(Values(Sort(KeyLeq, members)), Values(members), depth);
    }
  }

  lemma {:induction false} NormalizeItemsKeepDepth(items: seq<Value>, depth: int)
    ensures AllWithin(NormalizeItems(items), depth) == AllWithin(items, depth)
    decreases items
  {
    hide Within, Normalize;
    if items != [] {
      NormalizeKeepsDepth(items[0], depth);
      NormalizeItemsKeepDepth(items[1..], depth);
      AllWithinSplits(items, depth);
      AllWithinSplits(NormalizeItems(items), depth);
      assert NormalizeItems(items)[1..] == NormalizeItems(items[1..]);
    }
  }

  lemma AllWithinSplits(values: seq<Value>, depth: int)
    requires values != []
    ensures AllWithin(values, depth) <==> Within(values[0], depth) && AllWithin(values[1..], depth)
  {
    hide Within;
    if Within(values[0], depth) && AllWithin(values[1..], depth) {
      forall i | 0 <= i < |values| ensures Within(values[i], depth) {
        if i > 0 { assert Within(values[1..][i - 1], depth); }
      }
    }
    if AllWithin(values, depth) {
      forall i | 0 <= i < |values[1..]| ensures Within(values[1..][i], depth) { assert Within(values[i + 1], depth); }
    }
  }

  lemma {:induction false} NormalizeMemberKeepsDepth(m: Member, depth: int)
    ensures Within(NormalizeMember(m).value, depth) == Within(m.value, depth)
    decreases m
  {
    NormalizeKeepsDepth(m.value, depth);
  }

  lemma {:induction false} NormalizeMembersKeepDepth(members: seq<Member>, depth: int)
    ensures AllWithin(Values(NormalizeMembers(members)), depth) == AllWithin(Values(members), depth)
    decreases members
  {
    hide Within, NormalizeMember, AllWithin;
    if members != [] {
      NormalizeMemberKeepsDepth(members[0], depth);
      NormalizeMembersKeepDepth(members[1..], depth);
      AllWithinSplits(Values(members), depth);
      AllWithinSplits(Values(NormalizeMembers(members)), depth);
      assert NormalizeMembers(members)[1..] == NormalizeMembers(members[1..]);
      assert Values(members)[1..] == Values(members[1..]);
      assert Values(NormalizeMembers(members))[1..] == Values(NormalizeMembers(members[1..]));
    } else {
      assert Values(members) == Values(NormalizeMembers(members));
    }
  }

  lemma {:induction false} PrintableIsClean(v: Value)
    requires Printable(v)
    ensures Clean(v)
    decreases v
  {
    match v
    case List(items) =>
      forall i | 0 <= i < |items| ensures Clean(items[i]) {
        PrintableItem(items, i);
        PrintableIsClean(items[i]);
      }
    case Object(members) =>
      PrintableByMember(members);
      forall i | 0 <= i < |members| ensures Clean(members[i].value) {
        assert PrintableMember(members[i]);
        PrintableIsClean(members[i].value);
      }
    case _ =>
  }

  lemma {:induction false} PrintableItem(items: seq<Value>, i: nat)
    requires PrintableItems(items) && i < |items|
    ensures Printable(items[i])
  {
    if i > 0 { PrintableItem(items[1..], i - 1); }
  }

  /** Sorting keys keeps a value inside or outside the limits. */
  lemma NormalizeKeepsLimits(v: Value)
    requires Printable(v)
    ensures WithinLimits(Normalize(v)) == WithinLimits(v)
  {
    hide Nodes, Within, Printable, Normalize, Clean;
    NormalizeIsStable(v);
    NormalizeKeepsNodes(v);
    NormalizeKeepsDepth(v, MAX_JSON_DEPTH);
    PrintableIsClean(v);
    PrintableIsClean(Normalize(v));
  }
}
