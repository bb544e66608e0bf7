/** What `sort_keys` means, without sorting: at every depth each key comes before the next one, code
    point by code point (scripts/smoke_wheel_catalog.py, `_canonical_json_bytes`). */
module JsonSorted {
  import opened JsonLimits
  import opened JsonPrinter
  import opened JsonNormal
  import opened Orders

  /** `a` is a proper prefix of `b`, or has the smaller code point where they first differ. */
  ghost predicate TextBefore(a: Text, b: Text) {
    exists k: nat :: k <= |a| && k < |b| && a[..k] == b[..k] && (k == |a| || a[k] < b[k])
  }

  ghost predicate MembersAscend(members: seq<Member>) {
    && (forall i | 0 <= i < |members| :: members[i].key.Name?)
    && forall i, j | 0 <= i < j < |members| :: TextBefore(members[i].key.text, members[j].key.text)
  }

  /** Every object in the value, at any depth, has its keys ascending. */
  ghost predicate KeysAscend(v: Value)
    decreases v
  {
    match v
    case List(items) => forall item | item in items :: KeysAscend(item)
    case Object(members) => MembersAscend(members) && forall m | m in members :: KeysAscend(m.value)
    case _ => true
  }

  lemma TextTails(a: Text, b: Text)
    requires a != [] && b != [] && a[0] == b[0]
    ensures TextBefore(a, b) <==> TextBefore(a[1..], b[1..])
  {
    if k: nat :| k <= |a| && k < |b| && a[..k] == b[..k] && (k == |a| || a[k] < b[k]) {
      assert a[..k][1..] == b[..k][1..];
      assert a[1..][..k - 1] == a[..k][1..] && b[1..][..k - 1] == b[..k][1..];
    }
    var p, q := a[1..], b[1..];
    if j: nat :| j <= |p| && j < |q| && p[..j] == q[..j] && (j == |p| || p[j] < q[j]) {
      assert a[..j + 1] == [a[0]] + p[..j] && b[..j + 1] == [b[0]] + q[..j];
    }
  }

  lemma TextHeads(a: Text, b: Text)
    requires a == [] || b == [] || a[0] != b[0]
    ensures TextBefore(a, b) <==> b != [] && (a == [] || a[0] < b[0])
  {
    if b != [] && (a == [] || a[0] < b[0]) { assert a[..0] == b[..0]; }
    if a != [] && b != [] {
      assert forall k: nat | 0 < k <= |a| && k < |b| :: a[..k][0] == a[0] && b[..k][0] == b[0];
    }
  }

  lemma {:induction false} TextLeqMeans(a: Text, b: Text)
    ensures TextLeq(a, b) <==> a == b || TextBefore(a, b)
  {
    hide TextBefore;
    if a == [] || b == [] || a[0] != b[0] {
      TextHeads(a, b);
    } else {
      TextLeqMeans(a[1..], b[1..]);
      TextTails(a, b);
      assert a == [a[0]] + a[1..] && b == [b[0]] + b[1..];
    }
  }

  lemma BeforeDiffers(a: Text)
    ensures !TextBefore(a, a)
  {
  }

  /** Members in the order of their keys, with no key twice. */
  lemma AscendingMeans(members: seq<Member>)
    requires Named(members)
    ensures MembersAscend(members) <==> Ascending(KeyLeq, members) && DistinctKeys(members)
  {
    hide TextBefore, TextLeq;
    forall i, j | 0 <= i < j < |members|
      ensures TextBefore(members[i].key.text, members[j].key.text)
        <==> KeyLeq(members[i], members[j]) && members[i].key != members[j].key
    {
      TextLeqMeans(members[i].key.text, members[j].key.text);
      if members[i].key == members[j].key { BeforeDiffers(members[i].key.text); }
    }
  }

  lemma {:induction false} FixedByItem(items: seq<Value>)
    ensures NormalizeItems(items) == items <==> forall item | item in items :: Normalize(item) == item
  {
    hide Normalize;
    if items != [] {
      FixedByItem(items[1..]);
      assert items == [items[0]] + items[1..];
    }
  }

  lemma {:induction false} NamedWhenPrintable(members: seq<Member>)
    requires PrintableMembers(members)
    ensures Named(members) && forall m | m in members :: Printable(m.value)
  {
    PrintableByMember(members);
  }

  lemma {:induction false} PrintableInList(items: seq<Value>)
    requires PrintableItems(items)
    ensures forall item | item in items :: Printable(item)
  {
    hide Printable;
    if items != [] { PrintableInList(items[1..]); }
  }

  /** An object that sorting leaves alone has members that it leaves alone, in the order of their keys. */
  lemma ObjectFixed(members: seq<Member>)
    requires Printable(Object(members))
    ensures Normalize(Object(members)) == Object(members)
      <==> Ascending(KeyLeq, members) && NormalizeMembers(members) == members
  {
    hide KeyLeq, PrintableMembers, DistinctKeys, NormalizeMembers, TotalPreorder, Sort;
    var normal := NormalizeMembers(members);
    KeyOrder();
    SortSorts(KeyLeq, normal);
    NormalizeMembersIsStable(members);
    FixedRearranged(normal, Sort(KeyLeq, normal));
    if Ascending(KeyLeq, members) && normal == members { SortFixesAscending(KeyLeq, members); }
  }

  /** Sorting the keys leaves a value alone exactly when its keys ascend already. */
  lemma {:induction false} FixedMeansAscending(v: Value)
    requires Printable(v)
    ensures Normalize(v) == v <==> KeysAscend(v)
    decreases v
  {
    match v
    case List(items) =>
      PrintableInList(items);
      forall item | item in items ensures Normalize(item) == item <==> KeysAscend(item) { FixedMeansAscending(item); }
      FixedByItem(items);
    case Object(members) =>
      NamedWhenPrintable(members);
      ObjectFixed(members);
      AscendingMeans(members);
      FixedByMember(members);
      forall m | m in members ensures Normalize(m.value) == m.value <==> KeysAscend(m.value) {
        FixedMeansAscending(m.value);
      }
      MembersFixed(members);
    case _ =>
  }

  lemma MembersFixed(members: seq<Member>)
    ensures (forall i | 0 <= i < |members| :: NormalizeMember(members[i]) == members[i])
      <==> forall m | m in members :: Normalize(m.value) == m.value
  {
    hide Normalize;
    if forall m | m in members :: Normalize(m.value) == m.value {
      forall i | 0 <= i < |members| ensures NormalizeMember(members[i]) == members[i] { assert members[i] in members; }
    }
    if forall i | 0 <= i < |members| :: NormalizeMember(members[i]) == members[i] {
      forall m | m in members ensures Normalize(m.value) == m.value {
        var i :| 0 <= i < |members| && members[i] == m;
        assert NormalizeMember(members[i]) == members[i];
      }
    }
  }

  /** Sorted keys ascend, at every depth. */
  lemma NormalizeAscends(v: Value)
    requires Printable(v)
    ensures KeysAscend(Normalize(v))
  {
    hide Printable, Normalize;
    NormalizeIsStable(v);
    FixedMeansAscending(Normalize(v));
  }
}
