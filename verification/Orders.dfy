/** Total orders and the sorting that `sorted()` performs.

    Python's `sorted` returns the one ascending arrangement of its argument whenever the
    order is total; `SortIsCanonical` states that, and is why every artifact built from
    a sorted list depends only on the bag of items and not on directory-walk order. */
module Orders {

  ghost predicate TotalOrder<T(!new)>(leq: (T, T) -> bool) {
    && (forall x :: leq(x, x))
    && (forall x, y :: leq(x, y) && leq(y, x) ==> x == y)
    && (forall x, y, z :: leq(x, y) && leq(y, z) ==> leq(x, z))
    && (forall x, y :: leq(x, y) || leq(y, x))
  }

  /** An order that may leave ties, such as a comparison by key. */
  ghost predicate TotalPreorder<T(!new)>(leq: (T, T) -> bool) {
    && (forall x, y, z :: leq(x, y) && leq(y, z) ==> leq(x, z))
    && (forall x, y :: leq(x, y) || leq(y, x))
  }

  ghost predicate Ascending<T(!new)>(leq: (T, T) -> bool, xs: seq<T>) {
    forall i, j | 0 <= i < j < |xs| :: leq(xs[i], xs[j])
  }

  function Insert<T>(leq: (T, T) -> bool, x: T, xs: seq<T>): seq<T> {
    if xs == [] then [x]
    else if leq(x, xs[0]) then [x] + xs
    else [xs[0]] + Insert(leq, x, xs[1..])
  }

  function Sort<T>(leq: (T, T) -> bool, xs: seq<T>): seq<T> {
    if xs == [] then [] else Insert(leq, xs[0], Sort(leq, xs[1..]))
  }

  lemma AscendingCons<T(!new)>(leq: (T, T) -> bool, x: T, xs: seq<T>)
    requires Ascending(leq, xs) && forall j | 0 <= j < |xs| :: leq(x, xs[j])
    ensures Ascending(leq, [x] + xs)
  {
  }

  lemma {:induction false} InsertKeeps<T(!new)>(leq: (T, T) -> bool, x: T, xs: seq<T>)
    requires TotalPreorder(leq) && Ascending(leq, xs)
    ensures multiset(Insert(leq, x, xs)) == multiset{x} + multiset(xs)
    ensures Ascending(leq, Insert(leq, x, xs))
  {
    if xs == [] || leq(x, xs[0]) {
    } else {
      InsertKeeps(leq, x, xs[1..]);
      assert xs == [xs[0]] + xs[1..];
      var rest := Insert(leq, x, xs[1..]);
      forall j | 0 <= j < |rest| ensures leq(xs[0], rest[j]) {
        assert rest[j] in multiset(rest);
        assert rest[j] == x || rest[j] in xs[1..];
      }
      AscendingCons(leq, xs[0], rest);
    }
  }

  lemma NothingAscends<T(!new)>(leq: (T, T) -> bool)
    ensures Ascending(leq, [])
  {
  }

  lemma {:induction false} SortSorts<T(!new)>(leq: (T, T) -> bool, xs: seq<T>)
    requires TotalPreorder(leq)
    ensures Ascending(leq, Sort(leq, xs))
    ensures multiset(Sort(leq, xs)) == multiset(xs)
    ensures |Sort(leq, xs)| == |xs|
  {
    hide Insert, TotalPreorder, Ascending;
    if xs == [] {
      NothingAscends(leq);
    } else {
      SortSorts(leq, xs[1..]);
      InsertKeeps(leq, xs[0], Sort(leq, xs[1..]));
      assert xs == [xs[0]] + xs[1..];
    }
    assert |multiset(Sort(leq, xs))| == |multiset(xs)|;
  }

  ghost predicate NoTies<T(!new)>(leq: (T, T) -> bool, xs: seq<T>) {
    forall i, j | 0 <= i < |xs| && 0 <= j < |xs| :: leq(xs[i], xs[j]) && leq(xs[j], xs[i]) ==> xs[i] == xs[j]
  }

  lemma Tail<T(!new)>(leq: (T, T) -> bool, xs: seq<T>)
    requires xs != []
    ensures Ascending(leq, xs) ==> Ascending(leq, xs[1..])
    ensures NoTies(leq, xs) ==> NoTies(leq, xs[1..])
  {
  }

  lemma SameLength<T>(xs: seq<T>, ys: seq<T>)
    requires multiset(xs) == multiset(ys)
    ensures |xs| == |ys|
  {
    assert |multiset(xs)| == |xs| && |multiset(ys)| == |ys|;
  }

  lemma TailBags<T>(xs: seq<T>, ys: seq<T>)
    requires xs != [] && ys != [] && xs[0] == ys[0] && multiset(xs) == multiset(ys)
    ensures multiset(xs[1..]) == multiset(ys[1..])
  {
    assert multiset(xs[1..]) == multiset(xs) - multiset{xs[0]} by { assert xs == [xs[0]] + xs[1..]; }
    assert multiset(ys[1..]) == multiset(ys) - multiset{ys[0]} by { assert ys == [ys[0]] + ys[1..]; }
  }

  lemma {:induction false} AscendingIsUnique<T(!new)>(leq: (T, T) -> bool, xs: seq<T>, ys: seq<T>)
    requires TotalPreorder(leq) && Ascending(leq, xs) && Ascending(leq, ys)
    requires multiset(xs) == multiset(ys)
    requires NoTies(leq, xs)
    ensures xs == ys
  {
    hide Ascending, NoTies, TotalPreorder;
    SameLength(xs, ys);
    if xs != [] {
      FirstIsLeast(leq, xs, ys);
      Tail(leq, xs);
      Tail(leq, ys);
      TailBags(xs, ys);
      AscendingIsUnique(leq, xs[1..], ys[1..]);
      assert xs == [xs[0]] + xs[1..] && ys == [ys[0]] + ys[1..];
    }
  }

  lemma FirstIsLeast<T(!new)>(leq: (T, T) -> bool, xs: seq<T>, ys: seq<T>)
    requires TotalPreorder(leq) && Ascending(leq, xs) && Ascending(leq, ys)
    requires multiset(xs) == multiset(ys) && xs != [] && ys != []
    requires NoTies(leq, xs)
    ensures xs[0] == ys[0]
  {
    assert xs[0] in multiset(ys) && ys[0] in multiset(xs);
    var i :| 0 <= i < |ys| && ys[i] == xs[0];
    var j :| 0 <= j < |xs| && xs[j] == ys[0];
    assert leq(xs[0], xs[0]) && leq(ys[0], ys[0]);
    assert leq(xs[0], xs[j]) && leq(ys[0], ys[i]);
  }

  /** Sorting depends only on the bag of items. */
  lemma SortIsCanonical<T(!new)>(leq: (T, T) -> bool, xs: seq<T>, ys: seq<T>)
    requires TotalOrder(leq) && multiset(xs) == multiset(ys)
    ensures Sort(leq, xs) == Sort(leq, ys)
  {
    SortSorts(leq, xs);
    SortSorts(leq, ys);
    AscendingIsUnique(leq, Sort(leq, xs), Sort(leq, ys));
  }

  /** Sorting is stable enough to leave a sorted list alone, ties or not. */
  lemma {:induction false} SortFixesAscending<T(!new)>(leq: (T, T) -> bool, xs: seq<T>)
    requires Ascending(leq, xs)
    ensures Sort(leq, xs) == xs
  {
    if xs != [] {
      SortFixesAscending(leq, xs[1..]);
      assert xs == [xs[0]] + xs[1..];
    }
  }

  ghost predicate NoRepeats<T>(xs: seq<T>) {
    forall i, j | 0 <= i < j < |xs| :: xs[i] != xs[j]
  }

  lemma {:induction false} SingleCopies<T>(xs: seq<T>)
    ensures NoRepeats(xs) <==> forall x | x in xs :: multiset(xs)[x] == 1
  {
    if xs != [] {
      SingleCopies(xs[1..]);
      assert xs == [xs[0]] + xs[1..];
      assert multiset(xs) == multiset{xs[0]} + multiset(xs[1..]);
      if NoRepeats(xs) {
        forall x | x in xs ensures multiset(xs)[x] == 1 {
          if x == xs[0] { assert x !in xs[1..]; }
        }
      }
      if forall x | x in xs :: multiset(xs)[x] == 1 {
        assert multiset(xs)[xs[0]] == 1;
        assert xs[0] !in multiset(xs[1..]);
        forall x | x in xs[1..] ensures multiset(xs[1..])[x] == 1 { assert x in xs; }
      }
    }
  }

  /** Sorting keeps the members, and keeps them apart. */
  lemma SortKeepsNoRepeats<T(!new)>(leq: (T, T) -> bool, xs: seq<T>)
    requires TotalPreorder(leq) && NoRepeats(xs)
    ensures NoRepeats(Sort(leq, xs))
    ensures forall x :: x in Sort(leq, xs) <==> x in xs
  {
    hide Sort, NoRepeats;
    SortSorts(leq, xs);
    SingleCopies(xs);
    SingleCopies(Sort(leq, xs));
    assert forall x :: x in Sort(leq, xs) <==> x in multiset(xs);
    assert forall x :: x in xs <==> x in multiset(xs);
  }

  lemma CancelOne<T>(xs: multiset<T>, l: multiset<T>, x: T, r: multiset<T>)
    requires xs + multiset{x} == l + (multiset{x} + r)
    ensures xs == l + r
  {
    forall y ensures xs[y] == (l + r)[y] {
      assert (xs + multiset{x})[y] == (l + (multiset{x} + r))[y];
    }
  }

  /** Removing the last item of one arrangement from another arrangement of the same bag. */
  lemma Without<T>(a: seq<T>, b: seq<T>) returns (l: seq<T>, r: seq<T>)
    requires multiset(a) == multiset(b) && a != []
    ensures b == l + ([a[|a| - 1]] + r)
    ensures multiset(a[..|a| - 1]) == multiset(l + r)
  {
    var x, rest := a[|a| - 1], a[..|a| - 1];
    assert x in multiset(b);
    var k :| 0 <= k < |b| && b[k] == x;
    l, r := b[..k], b[k + 1..];
    assert b == l + ([x] + r);
    assert a == rest + [x];
    assert multiset(l + r) == multiset(l) + multiset(r);
    CancelOne(multiset(rest), multiset(l), x, multiset(r));
  }

  /** Lexicographic comparison, as Python compares strings, lists and paths. */
  predicate LexLeq<T(==)>(leq: (T, T) -> bool, a: seq<T>, b: seq<T>) {
    |a| == 0 ||
    (|b| != 0 &&
     if a[0] == b[0] then LexLeq(leq, a[1..], b[1..]) else leq(a[0], b[0]))
  }

  lemma LexReflexive<T(!new)>(leq: (T, T) -> bool, a: seq<T>)
    requires TotalOrder(leq)
    ensures LexLeq(leq, a, a)
  {
  }

  lemma {:induction false} LexAntisymmetric<T(!new)>(leq: (T, T) -> bool, a: seq<T>, b: seq<T>)
    requires TotalOrder(leq) && LexLeq(leq, a, b) && LexLeq(leq, b, a)
    ensures a == b
  {
    if |a| != 0 {
      LexAntisymmetric(leq, a[1..], b[1..]);
      assert a == [a[0]] + a[1..] && b == [b[0]] + b[1..];
    }
  }

  lemma {:induction false} LexTransitive<T(!new)>(leq: (T, T) -> bool, a: seq<T>, b: seq<T>, c: seq<T>)
    requires TotalOrder(leq) && LexLeq(leq, a, b) && LexLeq(leq, b, c)
    ensures LexLeq(leq, a, c)
  {
    if |a| != 0 && a[0] == b[0] == c[0] {
      LexTransitive(leq, a[1..], b[1..], c[1..]);
    }
  }

  lemma {:induction false} LexConnected<T(!new)>(leq: (T, T) -> bool, a: seq<T>, b: seq<T>)
    requires TotalOrder(leq)
    ensures LexLeq(leq, a, b) || LexLeq(leq, b, a)
  {
    if |a| != 0 && |b| != 0 && a[0] == b[0] {
      LexConnected(leq, a[1..], b[1..]);
    }
  }

  predicate CharLeq(c: char, d: char) { c <= d }

  /** Python `str` comparison: code point by code point. */
  predicate StringLeq(a: string, b: string) { LexLeq(CharLeq, a, b) }

  /** `pathlib` comparison: component by component. */
  predicate PathLeq(a: seq<string>, b: seq<string>) { LexLeq(StringLeq, a, b) }

  /** `a` is a proper prefix of `b`, or has the smaller character where they first differ. */
  ghost predicate Before(a: string, b: string) {
    exists k: nat :: k <= |a| && k < |b| && a[..k] == b[..k] && (k == |a| || a[k] < b[k])
  }

  lemma BeforeTails(a: string, b: string)
    requires a != [] && b != [] && a[0] == b[0]
    ensures Before(a, b) <==> Before(a[1..], b[1..])
  {
    if k: nat :| k <= |a| && k < |b| && a[..k] == b[..k] && (k == |a| || a[k] < b[k]) {
      assert a[..k][1..] == b[..k][1..];
      assert a[1..][..k - 1] == a[..k][1..] && b[1..][..k - 1] == b[..k][1..];
    }
    var p, q := a[1..], b[1..];
    if j: nat :| j <= |p| && j < |q| && p[..j] == q[..j] && (j == |p| || p[j] < q[j]) {
      assert a[..j + 1] == [a[0]] + p[..j] && b[..j + 1] == [b[0]] + q[..j];
    }
  }

  lemma BeforeHeads(a: string, b: string)
    requires a == [] || b == [] || a[0] != b[0]
    ensures Before(a, b) <==> b != [] && (a == [] || a[0] < b[0])
  {
    if b != [] && (a == [] || a[0] < b[0]) { assert a[..0] == b[..0]; }
    if a != [] && b != [] {
      assert forall k: nat | 0 < k <= |a| && k < |b| :: a[..k][0] == a[0] && b[..k][0] == b[0];
    }
  }

  /** The order of `str` is decided where two strings first differ. */
  lemma {:induction false} StringLeqMeans(a: string, b: string)
    ensures StringLeq(a, b) <==> a == b || Before(a, b)
  {
    hide Before;
    if a == [] || b == [] || a[0] != b[0] {
      BeforeHeads(a, b);
    } else {
      StringLeqMeans(a[1..], b[1..]);
      BeforeTails(a, b);
      assert a == [a[0]] + a[1..] && b == [b[0]] + b[1..];
    }
  }

  lemma NotBeforeItself(a: string)
    ensures !Before(a, a)
  {
  }

  /** `a` is a proper prefix of `b`, or has the earlier component where they first differ. */
  ghost predicate Precedes(a: seq<string>, b: seq<string>) {
    exists k: nat :: k <= |a| && k < |b| && a[..k] == b[..k] && (k == |a| || Before(a[k], b[k]))
  }

  lemma PrecedesTails(a: seq<string>, b: seq<string>)
    requires a != [] && b != [] && a[0] == b[0]
    ensures Precedes(a, b) <==> Precedes(a[1..], b[1..])
  {
    hide Before;
    NotBeforeItself(a[0]);
    if k: nat :| k <= |a| && k < |b| && a[..k] == b[..k] && (k == |a| || Before(a[k], b[k])) {
      assert a[..k][1..] == b[..k][1..];
      assert a[1..][..k - 1] == a[..k][1..] && b[1..][..k - 1] == b[..k][1..];
    }
    var p, q := a[1..], b[1..];
    if j: nat :| j <= |p| && j < |q| && p[..j] == q[..j] && (j == |p| || Before(p[j], q[j])) {
      assert a[..j + 1] == [a[0]] + p[..j] && b[..j + 1] == [b[0]] + q[..j];
    }
  }

  lemma PrecedesHeads(a: seq<string>, b: seq<string>)
    requires a == [] || b == [] || a[0] != b[0]
    ensures Precedes(a, b) <==> b != [] && (a == [] || Before(a[0], b[0]))
  {
    hide Before;
    if b != [] && (a == [] || Before(a[0], b[0])) { assert a[..0] == b[..0]; }
    if a != [] && b != [] {
      assert forall k: nat | 0 < k <= |a| && k < |b| :: a[..k][0] == a[0] && b[..k][0] == b[0];
    }
  }

  /** The order of `pathlib` is decided by the first component in which two paths differ. */
  lemma {:induction false} PathLeqMeans(a: seq<string>, b: seq<string>)
    ensures PathLeq(a, b) <==> a == b || Precedes(a, b)
  {
    hide Precedes, Before, StringLeq;
    if a == [] || b == [] || a[0] != b[0] {
      PrecedesHeads(a, b);
      if a != [] && b != [] { StringLeqMeans(a[0], b[0]); }
    } else {
      PathLeqMeans(a[1..], b[1..]);
      PrecedesTails(a, b);
      assert a == [a[0]] + a[1..] && b == [b[0]] + b[1..];
    }
  }

  lemma CharOrder()
    ensures TotalOrder(CharLeq)
  {
  }

  lemma StringOrder()
    ensures TotalOrder(StringLeq)
  {
    CharOrder();
    forall x ensures StringLeq(x, x) { LexReflexive(CharLeq, x); }
    forall x, y | StringLeq(x, y) && StringLeq(y, x) ensures x == y { LexAntisymmetric(CharLeq, x, y); }
    forall x, y, z | StringLeq(x, y) && StringLeq(y, z) ensures StringLeq(x, z) { LexTransitive(CharLeq, x, y, z); }
    forall x, y ensures StringLeq(x, y) || StringLeq(y, x) { LexConnected(CharLeq, x, y); }
  }

  lemma PathOrder()
    ensures TotalOrder(PathLeq)
  {
    StringOrder();
    forall x ensures PathLeq(x, x) { LexReflexive(StringLeq, x); }
    forall x, y | PathLeq(x, y) && PathLeq(y, x) ensures x == y { LexAntisymmetric(StringLeq, x, y); }
    forall x, y, z | PathLeq(x, y) && PathLeq(y, z) ensures PathLeq(x, z) { LexTransitive(StringLeq, x, y, z); }
    forall x, y ensures PathLeq(x, y) || PathLeq(y, x) { LexConnected(StringLeq, x, y); }
  }
}
