/** When `sorted(paths)` and `sorted(names)` disagree.

    `pathlib` compares paths component by component; archive names are compared as strings.
    The two differ on exactly one pattern: sibling components of which one extends the other
    with a character below '/', such as `jobs/...` beside `jobs-details/...`. */
module PathOrders {
  import opened Orders
  import Text

  type Path = seq<string>

  ghost predicate WellFormed(p: Path) {
    p != [] && Text.Free('/', p) && forall i | 0 <= i < |p| :: p[i] != ""
  }

  function Name(p: Path): string { Text.Join('/', p) }

  /** `p` precedes `q` as a path but follows it as a string, decided at component `i`. */
  predicate InvertedAt(p: Path, q: Path, i: nat) {
    && i + 1 < |p| && i < |q| && p[..i] == q[..i]
    && |p[i]| < |q[i]| && p[i] == q[i][..|p[i]|] && q[i][|p[i]|] < '/'
  }

  ghost predicate Inverted(p: Path, q: Path) {
    exists i: nat :: InvertedAt(p, q, i)
  }

  lemma {:induction false} CommonPrefix(c: string, a: string, b: string)
    ensures StringLeq(c + a, c + b) <==> StringLeq(a, b)
  {
    if c == [] {
      assert c + a == a && c + b == b;
    } else {
      assert (c + a)[1..] == c[1..] + a && (c + b)[1..] == c[1..] + b;
      CommonPrefix(c[1..], a, b);
    }
  }

  /** The first position where neither string is exhausted and they differ decides. */
  lemma {:induction false} DecidedAt(a: string, b: string, k: nat)
    requires k < |a| && k < |b| && a[..k] == b[..k] && a[k] != b[k]
    ensures StringLeq(a, b) <==> a[k] < b[k]
  {
    if k != 0 {
      assert a[0] == a[..k][0] == b[..k][0] == b[0];
      assert a[1..][..k - 1] == a[..k][1..] && b[1..][..k - 1] == b[..k][1..];
      DecidedAt(a[1..], b[1..], k - 1);
    }
  }

  lemma {:induction false} PrefixLeq(a: string, b: string)
    requires a <= b
    ensures StringLeq(a, b)
  {
    if a != [] {
      assert a[1..] <= b[1..];
      PrefixLeq(a[1..], b[1..]);
    }
  }

  lemma {:induction false} FirstDifference(a: string, b: string) returns (k: nat)
    ensures k <= |a| && k <= |b| && a[..k] == b[..k]
    ensures k < |a| && k < |b| ==> a[k] != b[k]
  {
    if a == [] || b == [] || a[0] != b[0] {
      k := 0;
    } else {
      var j := FirstDifference(a[1..], b[1..]);
      k := j + 1;
      assert a[..k] == [a[0]] + a[1..][..j] && b[..k] == [b[0]] + b[1..][..j];
    }
  }

  /** The name of a path starts with its first component, then ends or continues with '/'. */
  lemma NameHead(p: Path)
    requires WellFormed(p)
    ensures p[0] <= Name(p)
    ensures |p| == 1 ==> Name(p) == p[0]
    ensures |p| > 1 ==> Name(p) == p[0] + "/" + Name(p[1..]) && Name(p)[|p[0]|] == '/'
  {
  }

  /** Paths whose first components differ. */
  lemma HeadsDiffer(p: Path, q: Path)
    requires WellFormed(p) && WellFormed(q) && p[0] != q[0]
    ensures PathLeq(p, q) && !StringLeq(Name(p), Name(q)) <==> InvertedAt(p, q, 0)
  {
    var a, b := Name(p), Name(q);
    NameHead(p);
    NameHead(q);
    var k := FirstDifference(p[0], q[0]);
    assert a[..|p[0]|] == p[0] && b[..|q[0]|] == q[0];
    if k < |p[0]| && k < |q[0]| {
      DecidedAt(p[0], q[0], k);
      assert a[k] == p[0][k] && b[k] == q[0][k];
      assert a[..k] == p[0][..k] && b[..k] == q[0][..k];
      DecidedAt(a, b, k);
    } else if k == |p[0]| {
      assert p[0] == q[0][..k] && k < |q[0]|;
      PrefixLeq(p[0], q[0]);
      assert b[k] == q[0][k] && q[0][k] in q[0];
      if |p| > 1 {
        assert a[..k] == b[..k];
        DecidedAt(a, b, k);
      } else {
        assert a <= b;
        PrefixLeq(a, b);
      }
    } else {
      assert q[0] == p[0][..k] && k < |p[0]|;
      PrefixLeq(q[0], p[0]);
      StringOrder();
    }
  }

  lemma InvertedTails(p: Path, q: Path)
    requires p != [] && q != [] && p[0] == q[0]
    ensures Inverted(p, q) <==> Inverted(p[1..], q[1..])
  {
    if i: nat :| InvertedAt(p, q, i) {
      if i == 0 { assert false; }
      assert p[..i][1..] == p[1..][..i - 1] && q[..i][1..] == q[1..][..i - 1];
      assert InvertedAt(p[1..], q[1..], i - 1);
    }
    if i: nat :| InvertedAt(p[1..], q[1..], i) {
      assert p[..i + 1] == [p[0]] + p[1..][..i] && q[..i + 1] == [q[0]] + q[1..][..i];
      assert InvertedAt(p, q, i + 1);
    }
  }

  lemma SameHead(p: Path, q: Path, i: nat)
    requires 0 < i <= |p| && i <= |q| && p[..i] == q[..i]
    ensures p[0] == q[0]
  {
    assert p[0] == p[..i][0];
  }

  lemma OnlyAtZero(p: Path, q: Path, i: nat)
    requires InvertedAt(p, q, i) && p[0] != q[0]
    ensures i == 0
  {
    if i != 0 { SameHead(p, q, i); }
  }

  /** Path order and string order disagree on a pair exactly when the pair is inverted. */
  lemma {:induction false} OrdersDisagree(p: Path, q: Path)
    requires WellFormed(p) && WellFormed(q)
    ensures PathLeq(p, q) && !StringLeq(Name(p), Name(q)) <==> Inverted(p, q)
  {
    NameHead(p);
    NameHead(q);
    if p[0] != q[0] {
      HeadsDiffer(p, q);
      forall i: nat | InvertedAt(p, q, i) ensures i == 0 {
        OnlyAtZero(p, q, i);
      }
    } else {
      InvertedTails(p, q);
      if |p| == 1 {
        assert p[0] <= Name(q);
        PrefixLeq(Name(p), Name(q));
      } else if |q| == 1 {
        assert !LexLeq(StringLeq, p[1..], q[1..]);
      } else {
        OrdersDisagree(p[1..], q[1..]);
        CommonPrefix(p[0] + "/", Name(p[1..]), Name(q[1..]));
      }
    }
  }

  ghost predicate Agree(paths: seq<Path>) {
    forall p, q | p in paths && q in paths :: !Inverted(p, q)
  }

  function Names(paths: seq<Path>): seq<string> {
    seq(|paths|, i requires 0 <= i < |paths| => Name(paths[i]))
  }

  lemma InSorted(paths: seq<Path>)
    ensures Ascending(PathLeq, Sort(PathLeq, paths))
    ensures forall p :: p in Sort(PathLeq, paths) <==> p in paths
  {
    PathOrder();
    SortSorts(PathLeq, paths);
    assert forall p :: p in Sort(PathLeq, paths) <==> p in multiset(Sort(PathLeq, paths));
    assert forall p :: p in paths <==> p in multiset(paths);
  }

  lemma AscendingHasNoInversion(sorted: seq<Path>, p: Path, q: Path)
    requires forall r | r in sorted :: WellFormed(r)
    requires Ascending(PathLeq, sorted) && Ascending(StringLeq, Names(sorted))
    requires p in sorted && q in sorted
    ensures !Inverted(p, q)
  {
    StringOrder();
    OrdersDisagree(p, q);
    var i :| 0 <= i < |sorted| && sorted[i] == p;
    var j :| 0 <= j < |sorted| && sorted[j] == q;
    assert Names(sorted)[i] == Name(p) && Names(sorted)[j] == Name(q);
    if j < i && PathLeq(p, q) {
      PathOrder();
      assert PathLeq(sorted[j], sorted[i]);
      assert p == q;
    }
  }

  /** Sorting by path yields names in string order exactly when no two of the paths are inverted. */
  lemma SortedNamesAscend(paths: seq<Path>)
    requires forall p | p in paths :: WellFormed(p)
    ensures Ascending(StringLeq, Names(Sort(PathLeq, paths))) <==> Agree(paths)
  {
    InSorted(paths);
    var sorted := Sort(PathLeq, paths);
    if Agree(paths) {
      forall i, j | 0 <= i < j < |sorted| ensures StringLeq(Name(sorted[i]), Name(sorted[j])) {
        OrdersDisagree(sorted[i], sorted[j]);
      }
    }
    if Ascending(StringLeq, Names(sorted)) {
      forall p, q | p in paths && q in paths ensures !Inverted(p, q) {
        AscendingHasNoInversion(sorted, p, q);
      }
    }
  }

  /** The first jobs of a release, and the ids of its job details; every release holds both files. */
  const LATEST_JOBS: Path := ["jobs", "latest.json"]
  const DETAIL_IDS: Path := ["jobs-detail-ids.json"]

  /** Those two files of one release are an inverted pair. */
  lemma JobFilesInvert(release: Path)
    ensures Inverted(release + LATEST_JOBS, release + DETAIL_IDS)
  {
    var p, q := release + LATEST_JOBS, release + DETAIL_IDS;
    assert p[..|release|] == release == q[..|release|];
    assert p[|release|] == "jobs" && q[|release|] == "jobs-detail-ids.json";
    assert InvertedAt(p, q, |release|);
  }
}
