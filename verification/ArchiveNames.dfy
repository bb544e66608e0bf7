/** Member-name safety of built wheels and sdists (scripts/verify_release_artifacts.py).

    The verifier makes one pass over the members with three dictionaries.  Here the pass
    is proved to decide an order-free condition on the members, so neither the order of
    an archive nor the order in which collisions are noticed can change the verdict. */
module ArchiveNames {
  import opened Wrappers
  import Text

  /** The host's Unicode tables: the NFC/casefold collision key of one path component, and
      whether a component names a Windows device. */
  datatype Naming = Naming(fold: string -> string, device: string -> bool)

  datatype Member = Member(name: string, isDirectory: bool)

  type Path = seq<string>

  const FORBIDDEN_PARTS: set<string> :=
    {".grok", ".playwright-mcp", "AGENTS.md", "goals", "inspect-shots", "tests", "web"}

  predicate SafePart(n: Naming, part: string) {
    && part !in {"", ".", ".."}
    && part[|part| - 1] !in {' ', '.'}
    && !n.device(part)
  }

  /** The components of a member name, or None when the name is unsafe. */
  function Canonical(n: Naming, m: Member): (r: Option<Path>)
    ensures r.Some? ==> r.value != [] && Text.Free('/', r.value)
  {
    Text.SplitIsFree('/', m.name);
    if m.name == "" || '\\' in m.name || m.name[0] == '/' then None
    else if m.name[|m.name| - 1] == '/' then
      if !m.isDirectory || Text.EndsWith(m.name, "//") then None
      else
        Text.SplitIsFree('/', m.name[..|m.name| - 1]);
        SafeParts(n, Text.Split('/', m.name[..|m.name| - 1]))
    else SafeParts(n, Text.Split('/', m.name))
  }

  function SafeParts(n: Naming, parts: Path): Option<Path> {
    if forall i | 0 <= i < |parts| :: SafePart(n, parts[i]) then Some(parts) else None
  }

  /** Neither a draft nor a local-only path. */
  predicate Publishable(path: Path) {
    && !Text.EndsWith(Text.Join('/', path), ".draft")
    && forall i | 0 <= i < |path| :: path[i] !in FORBIDDEN_PARTS
  }

  function Folded(n: Naming, path: Path): (key: Path)
    ensures |key| == |path|
  {
    seq(|path|, i requires 0 <= i < |path| => n.fold(path[i]))
  }

  lemma FoldedPrefix(n: Naming, path: Path, k: nat)
    requires k <= |path|
    ensures Folded(n, path[..k]) == Folded(n, path)[..k]
  {
  }

  ghost predicate Named(n: Naming, m: Member) { Canonical(n, m).Some? }

  ghost function PathOf(n: Naming, m: Member): Path {
    if Named(n, m) then Canonical(n, m).value else []
  }

  ghost function Key(n: Naming, m: Member): Path { Folded(n, PathOf(n, m)) }

  /** The proper prefixes of `path` shorter than `k` components. */
  ghost function Prefixes(path: Path, k: nat): set<Path>
    requires k <= |path|
  {
    set j | 1 <= j < k :: path[..j]
  }

  /** The directories a member implies: its proper prefixes, and itself if a directory. */
  ghost function DirectoriesOf(n: Naming, m: Member): set<Path> {
    Prefixes(PathOf(n, m), |PathOf(n, m)|) + (if m.isDirectory then {PathOf(n, m)} else {})
  }

  ghost function Directories(n: Naming, ms: seq<Member>): set<Path> {
    set m, p | m in ms && p in DirectoriesOf(n, m) :: p
  }

  ghost function FileKeys(n: Naming, ms: seq<Member>): set<Path> {
    set m | m in ms && !m.isDirectory :: Key(n, m)
  }

  ghost predicate EachNamed(n: Naming, ms: seq<Member>) {
    forall m | m in ms :: Named(n, m) && Publishable(PathOf(n, m))
  }

  ghost predicate DistinctKeys(n: Naming, ms: seq<Member>) {
    forall i, j | 0 <= i < j < |ms| :: Key(n, ms[i]) != Key(n, ms[j])
  }

  ghost predicate NoFileAbove(n: Naming, ms: seq<Member>) {
    forall f, m | f in FileKeys(n, ms) && m in ms :: !(f < Key(n, m))
  }

  ghost predicate OneSpelling(n: Naming, dirs: set<Path>) {
    forall p, q | p in dirs && q in dirs && Folded(n, p) == Folded(n, q) :: p == q
  }

  /** The order-free condition: every name is safe and publishable, folded names are distinct,
      no file is a folded ancestor of a member, and every folded directory has one spelling. */
  ghost predicate Collisionless(n: Naming, ms: seq<Member>) {
    && EachNamed(n, ms)
    && DistinctKeys(n, ms)
    && NoFileAbove(n, ms)
    && OneSpelling(n, Directories(n, ms))
  }

  /** What the three dictionaries hold after the members `ms`. */
  ghost predicate Recorded(n: Naming, ms: seq<Member>, seen: set<Path>, dirs: map<Path, Path>, files: set<Path>) {
    && Collisionless(n, ms)
    && seen == (set m | m in ms :: Key(n, m))
    && files == FileKeys(n, ms)
    && Spells(n, dirs, Directories(n, ms))
  }

  /** `dirs` maps the folded form of exactly the directories `ds` to their spelling. */
  ghost predicate Spells(n: Naming, dirs: map<Path, Path>, ds: set<Path>) {
    && (forall k | k in dirs :: dirs[k] in ds && Folded(n, dirs[k]) == k)
    && (forall p | p in ds :: Folded(n, p) in dirs && dirs[Folded(n, p)] == p)
  }

  lemma SpellsOne(n: Naming, dirs: map<Path, Path>, ds: set<Path>)
    requires Spells(n, dirs, ds)
    ensures OneSpelling(n, ds)
  {
  }

  lemma SubsetCollisionless(n: Naming, ms: seq<Member>, i: nat)
    requires i <= |ms| && Collisionless(n, ms)
    ensures Collisionless(n, ms[..i])
  {
    assert Directories(n, ms[..i]) <= Directories(n, ms);
    assert FileKeys(n, ms[..i]) <= FileKeys(n, ms);
  }

  lemma SeenTwice(n: Naming, ms: seq<Member>, i: nat)
    requires i < |ms| && exists m | m in ms[..i] :: Key(n, m) == Key(n, ms[i])
    ensures !Collisionless(n, ms)
  {
    var j :| 0 <= j < i && Key(n, ms[..i][j]) == Key(n, ms[i]);
    assert ms[j] == ms[..i][j];
  }

  lemma FileAbove(n: Naming, ms: seq<Member>, i: nat, k: nat)
    requires i < |ms| && 0 < k < |PathOf(n, ms[i])|
    requires Key(n, ms[i])[..k] in FileKeys(n, ms[..i])
    ensures !Collisionless(n, ms)
  {
    var f := Key(n, ms[i])[..k];
    assert f in FileKeys(n, ms);
    assert f < Key(n, ms[i]);
  }

  lemma TwoSpellings(n: Naming, ms: seq<Member>, i: nat, p: Path, q: Path)
    requires i < |ms| && p in DirectoriesOf(n, ms[i])
    requires q in Directories(n, ms[..i]) || q in DirectoriesOf(n, ms[i])
    requires Folded(n, p) == Folded(n, q) && p != q
    ensures !Collisionless(n, ms)
  {
    assert p in Directories(n, ms) && q in Directories(n, ms);
  }

  lemma PrefixOf(n: Naming, m: Member, q: Path)
    requires q in DirectoriesOf(n, m) && q != PathOf(n, m)
    ensures Folded(n, q) < Key(n, m)
  {
    hide Canonical;
    FoldedPrefix(n, PathOf(n, m), |q|);
  }

  lemma FileIsDirectory(n: Naming, ms: seq<Member>, i: nat, q: Path)
    requires i < |ms| && !ms[i].isDirectory && q in Directories(n, ms[..i])
    requires Folded(n, q) == Key(n, ms[i])
    ensures !Collisionless(n, ms)
  {
    hide EachNamed, OneSpelling, Canonical, Folded;
    var m :| m in ms[..i] && q in DirectoriesOf(n, m);
    if q == PathOf(n, m) {
      hide DirectoriesOf, Directories, NoFileAbove;
      SeenTwice(n, ms, i);
    } else {
      PrefixOf(n, m, q);
      assert m in ms && ms[i] in ms;
      assert Key(n, ms[i]) in FileKeys(n, ms);
      assert Key(n, ms[i]) < Key(n, m);
    }
  }

  lemma GrownDirectories(n: Naming, ms: seq<Member>, m: Member)
    ensures Directories(n, ms + [m]) == Directories(n, ms) + DirectoriesOf(n, m)
    ensures FileKeys(n, ms + [m]) == FileKeys(n, ms) + (if m.isDirectory then {} else {Key(n, m)})
  {
    hide Key, DirectoriesOf;
  }

  lemma AncestorIsDirectory(n: Naming, ms: seq<Member>, o: Member, key: Path)
    requires o in ms && 0 < |key| && key < Key(n, o)
    ensures exists q | q in Directories(n, ms) :: Folded(n, q) == key
  {
    var q := PathOf(n, o)[..|key|];
    FoldedPrefix(n, PathOf(n, o), |key|);
    assert q in Prefixes(PathOf(n, o), |PathOf(n, o)|);
    assert q in DirectoriesOf(n, o);
    assert q in Directories(n, ms);
  }

  ghost predicate Fits(n: Naming, ms: seq<Member>, m: Member) {
    && Named(n, m) && Publishable(PathOf(n, m))
    && (forall o | o in ms :: Key(n, o) != Key(n, m))
    && (forall k | 1 <= k < |Key(n, m)| :: Key(n, m)[..k] !in FileKeys(n, ms))
    && (m.isDirectory || forall q | q in Directories(n, ms) :: Folded(n, q) != Key(n, m))
    && OneSpelling(n, Directories(n, ms) + DirectoriesOf(n, m))
  }

  lemma PrefixIsSlice(f: Path, key: Path)
    requires f < key
    ensures key[..|f|] == f
  {
  }

  lemma NotBelowOldFile(n: Naming, ms: seq<Member>, m: Member, f: Path)
    requires f in FileKeys(n, ms) && f != []
    requires forall k | 1 <= k < |Key(n, m)| :: Key(n, m)[..k] !in FileKeys(n, ms)
    ensures !(f < Key(n, m))
  {
    if f < Key(n, m) { PrefixIsSlice(f, Key(n, m)); }
  }

  lemma FileKeyNonempty(n: Naming, ms: seq<Member>, f: Path)
    requires EachNamed(n, ms) && f in FileKeys(n, ms)
    ensures f != []
  {
  }

  /** A new member that fits lies below no file, and no old member lies below a new file. */
  lemma FitsBelowNoFile(n: Naming, ms: seq<Member>, m: Member)
    requires EachNamed(n, ms) && NoFileAbove(n, ms) && Fits(n, ms, m)
    ensures NoFileAbove(n, ms + [m])
  {
    GrownDirectories(n, ms, m);
    forall f, o | f in FileKeys(n, ms + [m]) && o in ms + [m] ensures !(f < Key(n, o)) {
      if f in FileKeys(n, ms) && o !in ms {
        FileKeyNonempty(n, ms, f);
        NotBelowOldFile(n, ms, m, f);
      } else if f !in FileKeys(n, ms) && o in ms && f < Key(n, o) {
        AncestorIsDirectory(n, ms, o, f);
        assert false;
      }
    }
  }

  /** One more member keeps the condition when every dictionary check passes. */
  lemma Extend(n: Naming, ms: seq<Member>, m: Member)
    requires Collisionless(n, ms) && Fits(n, ms, m)
    ensures Collisionless(n, ms + [m])
  {
    GrownDirectories(n, ms, m);
    FitsBelowNoFile(n, ms, m);
    forall i, j | 0 <= i < j < |ms + [m]| ensures Key(n, (ms + [m])[i]) != Key(n, (ms + [m])[j]) {
      assert (ms + [m])[i] in ms;
    }
  }

  /** Records every proper prefix of a member; refuses under a file or a second spelling. */
  method RecordPrefixes(n: Naming, path: Path, dirs0: map<Path, Path>, files: set<Path>, ghost ds: set<Path>)
    returns (ok: bool, dirs: map<Path, Path>, ghost at: nat)
    requires path != [] && Spells(n, dirs0, ds)
    ensures ok ==> Spells(n, dirs, ds + Prefixes(path, |path|))
    ensures ok ==> forall k | 1 <= k < |path| :: Folded(n, path)[..k] !in files
    ensures !ok ==> 1 <= at < |path|
    ensures !ok ==> Folded(n, path)[..at] in files || !OneSpelling(n, ds + Prefixes(path, at + 1))
  {
    dirs, at := dirs0, 0;
    var k := 1;
    while k < |path|
      invariant 1 <= k <= |path|
      invariant Spells(n, dirs, ds + Prefixes(path, k))
      invariant forall j | 1 <= j < k :: Folded(n, path)[..j] !in files
    {
      var prefix := path[..k];
      var prefixKey := Folded(n, prefix);
      FoldedPrefix(n, path, k);
      assert Prefixes(path, k + 1) == Prefixes(path, k) + {prefix};
      if prefixKey in files {
        return false, dirs, k;
      }
      if prefixKey in dirs && dirs[prefixKey] != prefix {
        assert dirs[prefixKey] in ds + Prefixes(path, k + 1) && prefix in ds + Prefixes(path, k + 1);
        return false, dirs, k;
      }
      SpellsAdd(n, dirs, ds + Prefixes(path, k), prefix);
      assert ds + Prefixes(path, k + 1) == (ds + Prefixes(path, k)) + {prefix};
      dirs := dirs[prefixKey := prefix];
      k := k + 1;
    }
    ok := true;
  }

  lemma PrefixRefused(n: Naming, ms: seq<Member>, m: Member, k: nat)
    requires Named(n, m) && 1 <= k < |PathOf(n, m)|
    requires Key(n, m)[..k] in FileKeys(n, ms) ||
      !OneSpelling(n, Directories(n, ms) + Prefixes(PathOf(n, m), k + 1))
    ensures !Collisionless(n, ms + [m])
  {
    var path := PathOf(n, m);
    GrownDirectories(n, ms, m);
    assert (ms + [m])[|ms|] == m && (ms + [m])[..|ms|] == ms;
    if Key(n, m)[..k] in FileKeys(n, ms) {
      FileAbove(n, ms + [m], |ms|, k);
    } else {
      assert Prefixes(path, k + 1) <= Prefixes(path, |path|);
      assert Directories(n, ms) + Prefixes(path, k + 1) <= Directories(n, ms + [m]);
    }
  }

  lemma SpellsAdd(n: Naming, dirs: map<Path, Path>, ds: set<Path>, p: Path)
    requires Spells(n, dirs, ds) && (Folded(n, p) in dirs ==> dirs[Folded(n, p)] == p)
    ensures Spells(n, dirs[Folded(n, p) := p], ds + {p})
  {
  }

  /** The one-pass check: three dictionaries, one member at a time, first collision refuses. */
  method VerifyArchiveNames(n: Naming, ms: seq<Member>) returns (accepted: bool)
    ensures accepted <==> Collisionless(n, ms)
  {
    hide Collisionless, Recorded;
    var seen: set<Path>, files: set<Path> := {}, {};
    var dirs: map<Path, Path> := map[];
    NothingRecorded(n);
    var i := 0;
    while i < |ms|
      invariant 0 <= i <= |ms|
      invariant Recorded(n, ms[..i], seen, dirs, files)
    {
      var fits;
      fits, seen, dirs, files := RecordMember(n, ms[..i], ms[i], seen, dirs, files);
      assert ms[..i] + [ms[i]] == ms[..i + 1];
      if !fits {
        if Collisionless(n, ms) { SubsetCollisionless(n, ms, i + 1); }
        return false;
      }
      i := i + 1;
    }
    assert ms[..i] == ms;
    RecordedIsCollisionless(n, ms, seen, dirs, files);
    return true;
  }

  lemma RecordedIsCollisionless(n: Naming, ms: seq<Member>, seen: set<Path>, dirs: map<Path, Path>, files: set<Path>)
    requires Recorded(n, ms, seen, dirs, files)
    ensures Collisionless(n, ms)
  {
  }

  lemma NothingRecorded(n: Naming)
    ensures Recorded(n, [], {}, map[], {})
  {
  }

  /** The member's own key, once its proper prefixes are recorded as directories. */
  method RecordOwnKey(n: Naming, ghost ms: seq<Member>, m: Member, path: Path, dirs0: map<Path, Path>)
    returns (ok: bool, dirs: map<Path, Path>)
    requires Named(n, m) && path == PathOf(n, m)
    requires Spells(n, dirs0, Directories(n, ms) + Prefixes(path, |path|))
    ensures ok ==> Spells(n, dirs, Directories(n, ms) + DirectoriesOf(n, m))
    ensures ok && !m.isDirectory ==> forall q | q in Directories(n, ms) :: Folded(n, q) != Key(n, m)
    ensures !ok ==> !Collisionless(n, ms + [m])
  {
    dirs := dirs0;
    ghost var proper := Directories(n, ms) + Prefixes(path, |path|);
    var key := Folded(n, path);
    assert (ms + [m])[|ms|] == m && (ms + [m])[..|ms|] == ms;
    if m.isDirectory {
      if key in dirs && dirs[key] != path {
        TwoSpellings(n, ms + [m], |ms|, path, dirs[key]);
        return false, dirs;
      }
      SpellsAdd(n, dirs, proper, path);
      assert Directories(n, ms) + DirectoriesOf(n, m) == proper + {path};
      dirs := dirs[key := path];
    } else {
      if key in dirs {
        assert |dirs[key]| == |path|;
        FileIsDirectory(n, ms + [m], |ms|, dirs[key]);
        return false, dirs;
      }
      assert Directories(n, ms) + DirectoriesOf(n, m) == proper;
    }
    ok := true;
  }

  /** One iteration of the pass. */
  method RecordMember(n: Naming, ghost ms: seq<Member>, m: Member,
      seen0: set<Path>, dirs0: map<Path, Path>, files0: set<Path>)
    returns (fits: bool, seen: set<Path>, dirs: map<Path, Path>, files: set<Path>)
    requires Recorded(n, ms, seen0, dirs0, files0)
    ensures fits ==> Recorded(n, ms + [m], seen, dirs, files)
    ensures !fits ==> !Collisionless(n, ms + [m])
  {
    hide Directories, DirectoriesOf, OneSpelling, Publishable, NoFileAbove, DistinctKeys, SafePart;
    seen, dirs, files := seen0, dirs0, files0;
    assert (ms + [m])[|ms|] == m && (ms + [m])[..|ms|] == ms;
    var canonical := Canonical(n, m);
    if canonical.None? {
      assert m in ms + [m];
      return false, seen, dirs, files;
    }
    var path := canonical.value;
    var key := Folded(n, path);
    if key in seen {
      SeenTwice(n, ms + [m], |ms|);
      return false, seen, dirs, files;
    }
    var ok;
    ghost var at;
    ok, dirs, at := RecordPrefixes(n, path, dirs, files, Directories(n, ms));
    if !ok {
      PrefixRefused(n, ms, m, at);
      return false, seen, dirs, files;
    }
    ok, dirs := RecordOwnKey(n, ms, m, path, dirs);
    if !ok {
      return false, seen, dirs, files;
    }
    if !m.isDirectory { files := files + {key}; }
    seen := seen + {key};
    if !Publishable(path) {
      assert m in ms + [m];
      return false, seen, dirs, files;
    }
    SpellsOne(n, dirs, Directories(n, ms) + DirectoriesOf(n, m));
    Extend(n, ms, m);
    GrownDirectories(n, ms, m);
    fits := true;
  }

  // ---- Order-freeness ----

  lemma Occurrences<T>(xs: seq<T>, i: nat, j: nat)
    requires i < j < |xs| && xs[i] == xs[j]
    ensures multiset(xs)[xs[i]] >= 2
  {
    assert xs == xs[..j] + xs[j..];
    assert xs[i] in xs[..j] && xs[j] in xs[j..];
    assert xs[..j][i] in multiset(xs[..j]) && xs[j..][0] in multiset(xs[j..]);
    assert multiset(xs) == multiset(xs[..j]) + multiset(xs[j..]);
  }

  lemma {:induction false} TwoPlaces<T>(xs: seq<T>, x: T) returns (i: nat, j: nat)
    requires multiset(xs)[x] >= 2
    ensures i < j < |xs| && xs[i] == xs[j] == x
  {
    assert xs == [xs[0]] + xs[1..];
    if xs[0] == x {
      assert x in multiset(xs[1..]);
      j :| 0 <= j < |xs[1..]| && xs[1..][j] == x;
      i, j := 0, j + 1;
    } else {
      i, j := TwoPlaces(xs[1..], x);
      i, j := i + 1, j + 1;
    }
  }

  lemma SamePlaces(xs: seq<Member>, ys: seq<Member>, i: nat, j: nat) returns (a: nat, b: nat)
    requires multiset(xs) == multiset(ys) && i < j < |ys|
    ensures a < |xs| && b < |xs| && a != b && xs[a] == ys[i] && xs[b] == ys[j]
  {
    assert ys[i] in multiset(xs) && ys[j] in multiset(xs);
    if ys[i] == ys[j] {
      Occurrences(ys, i, j);
      a, b := TwoPlaces(xs, ys[i]);
    } else {
      a :| 0 <= a < |xs| && xs[a] == ys[i];
      b :| 0 <= b < |xs| && xs[b] == ys[j];
    }
  }

  lemma PermutedKeys(n: Naming, xs: seq<Member>, ys: seq<Member>)
    requires multiset(xs) == multiset(ys) && DistinctKeys(n, xs)
    ensures DistinctKeys(n, ys)
  {
    forall i, j | 0 <= i < j < |ys| ensures Key(n, ys[i]) != Key(n, ys[j]) {
      var a, b := SamePlaces(xs, ys, i, j);
    }
  }

  /** Every permutation of a member list gets the same verdict. */
  lemma VerdictIsOrderFree(n: Naming, xs: seq<Member>, ys: seq<Member>)
    requires multiset(xs) == multiset(ys)
    ensures Collisionless(n, xs) <==> Collisionless(n, ys)
  {
    assert forall m :: m in xs <==> m in multiset(xs);
    assert forall m :: m in ys <==> m in multiset(ys);
    assert Directories(n, xs) == Directories(n, ys);
    assert FileKeys(n, xs) == FileKeys(n, ys);
    if DistinctKeys(n, xs) { PermutedKeys(n, xs, ys); }
    if DistinctKeys(n, ys) { PermutedKeys(n, ys, xs); }
  }
}
