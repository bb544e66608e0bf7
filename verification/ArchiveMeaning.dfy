/** What an acceptable list of archive members is, in plain terms (scripts/verify_release_artifacts.py). */
module ArchiveMeaning {
  import opened ArchiveNames
  import Text

  /** The name without the slash that may end the name of a directory. */
  function Stem(m: Member): string {
    if m.isDirectory && m.name != "" && m.name[|m.name| - 1] == '/' then m.name[..|m.name| - 1] else m.name
  }

  function Parts(m: Member): Path { Text.Split('/', Stem(m)) }

  /** A component no file system trims and Windows takes for no device. */
  predicate Sturdy(n: Naming, part: string) {
    part == "" || (part[|part| - 1] != ' ' && part[|part| - 1] != '.' && !n.device(part))
  }

  ghost predicate AllSturdy(n: Naming, parts: Path) { forall part | part in parts :: Sturdy(n, part) }

  /** A relative path with slashes only, every component of which names something, and no other thing
      elsewhere. */
  ghost predicate Sound(n: Naming, m: Member) {
    Text.Straight(Parts(m)) && '\\' !in m.name && AllSturdy(n, Parts(m))
  }

  /** Neither a draft nor one of the seven local-only names. */
  ghost predicate Public(m: Member) {
    && (forall head: string :: Stem(m) != head + ".draft")
    && forall part | part in Parts(m) ::
      part !in {".grok", ".playwright-mcp", "AGENTS.md", "goals", "inspect-shots", "tests", "web"}
  }

  lemma StartsWithSlash(s: string)
    requires s == "" || s[0] == '/'
    ensures !Text.AllPlain(Text.Split('/', s))
  {
    Text.SplitUnfolds('/', s);
    assert Text.Split('/', s)[0] == "";
  }

  lemma EndsWithSlash(s: string)
    requires s != "" && s[|s| - 1] == '/'
    ensures !Text.AllPlain(Text.Split('/', s))
  {
    hide Text.Split;
    var head := s[..|s| - 1];
    Text.SplitTrailing('/', head);
    assert s == head + ['/'];
    var parts := Text.Split('/', s);
    assert parts[|parts| - 1] == "";
  }

  lemma CanonicalIsParts(n: Naming, m: Member)
    ensures Canonical(n, m).Some? ==> Canonical(n, m).value == Parts(m)
    ensures Canonical(n, m).None? ==>
      || Stem(m) == "" || Stem(m)[0] == '/' || Stem(m)[|Stem(m)| - 1] == '/'
      || '\\' in m.name || SafeParts(n, Parts(m)).None?
    ensures Canonical(n, m).Some? ==> '\\' !in m.name && SafeParts(n, Parts(m)).Some?
  {
    hide Text.Split, SafePart;
    if m.name != "" && m.name[|m.name| - 1] == '/' && m.isDirectory && Text.EndsWith(m.name, "//") {
      assert m.name[|m.name| - 2..][0] == '/';
      assert Stem(m)[|Stem(m)| - 1] == '/';
    }
  }

  lemma SafePartsMean(n: Naming, parts: Path)
    ensures SafeParts(n, parts).Some? <==> Text.AllPlain(parts) && AllSturdy(n, parts)
  {
    if Text.AllPlain(parts) && AllSturdy(n, parts) {
      forall i | 0 <= i < |parts| ensures SafePart(n, parts[i]) { assert Sturdy(n, parts[i]); }
    }
    if SafeParts(n, parts).Some? {
      forall part | part in parts ensures Sturdy(n, part) { var i :| 0 <= i < |parts| && parts[i] == part; }
    }
  }

  /** A member name is safe exactly when it is sound, and then its path is its components. */
  lemma NameMeans(n: Naming, m: Member)
    ensures Named(n, m) <==> Sound(n, m)
    ensures Named(n, m) ==> PathOf(n, m) == Parts(m)
  {
    hide Text.Split, Text.Straight, Text.AllPlain, SafePart, AllSturdy, Canonical, SafeParts;
    CanonicalIsParts(n, m);
    SafePartsMean(n, Parts(m));
    Text.StraightIsPlain(Parts(m));
    if Stem(m) == "" || Stem(m)[0] == '/' { StartsWithSlash(Stem(m)); }
    if Stem(m) != "" && Stem(m)[|Stem(m)| - 1] == '/' { EndsWithSlash(Stem(m)); }
  }

  lemma PublicMeans(m: Member)
    ensures Publishable(Parts(m)) <==> Public(m)
  {
    hide Text.Split;
    Text.JoinUndoesSplit('/', Stem(m));
    var s := Stem(m);
    if Text.EndsWith(s, ".draft") { assert s == s[..|s| - 6] + ".draft"; }
    forall head: string | s == head + ".draft" ensures Text.EndsWith(s, ".draft") {}
    assert (forall part | part in Parts(m) :: part !in FORBIDDEN_PARTS)
      <==> forall i | 0 <= i < |Parts(m)| :: Parts(m)[i] !in FORBIDDEN_PARTS;
  }

  /** The first `k` components fold to the same. */
  ghost predicate Alike(n: Naming, p: Path, q: Path, k: nat) {
    k <= |p| && k <= |q| && forall i | 0 <= i < k :: n.fold(p[i]) == n.fold(q[i])
  }

  lemma AlikeMeans(n: Naming, p: Path, q: Path)
    ensures Folded(n, p) == Folded(n, q) <==> |p| == |q| && Alike(n, p, q, |p|)
    ensures Folded(n, p) < Folded(n, q) <==> |p| < |q| && Alike(n, p, q, |p|)
  {
    var f, g := Folded(n, p), Folded(n, q);
    assert forall i | 0 <= i < |p| :: f[i] == n.fold(p[i]);
    assert forall i | 0 <= i < |q| :: g[i] == n.fold(q[i]);
    if |p| == |q| && Alike(n, p, q, |p|) {
      assert f == g;
    }
    if |p| < |q| && Alike(n, p, q, |p|) {
      assert f == g[..|p|];
    }
  }

  /** The first `k` components of a member name a directory. */
  predicate IsFolder(m: Member, k: nat) { 1 <= k <= |Parts(m)| && (k < |Parts(m)| || m.isDirectory) }

  ghost predicate FolderOf(m: Member, k: nat, p: Path) { IsFolder(m, k) && p == Parts(m)[..k] }

  lemma FoldersAre(n: Naming, m: Member)
    requires Named(n, m)
    ensures forall p :: p in DirectoriesOf(n, m) <==> exists k: nat :: FolderOf(m, k, p)
  {
    hide Text.Split, Named, PathOf, Parts;
    NameMeans(n, m);
    NamedIsNotEmpty(n, m);
    var path := Parts(m);
    forall p | p in DirectoriesOf(n, m) ensures exists k: nat :: FolderOf(m, k, p) {
      if p == path && m.isDirectory {
        assert FolderOf(m, |path|, p);
      } else {
        var k :| 1 <= k < |path| && path[..k] == p;
        assert FolderOf(m, k, p);
      }
    }
    forall k: nat, p | FolderOf(m, k, p) ensures p in DirectoriesOf(n, m) {
      if k == |path| { assert path[..k] == path; }
    }
  }

  lemma NamedIsNotEmpty(n: Naming, m: Member)
    ensures |Parts(m)| >= 1
  {
  }

  /** Every folder is spelled in one way: the same folded components, the same components. */
  ghost predicate SpelledOnce(n: Naming, ms: seq<Member>) {
    forall l, m, k: nat | l in ms && m in ms && IsFolder(l, k) && IsFolder(m, k) && Alike(n, Parts(l), Parts(m), k) ::
      Parts(l)[..k] == Parts(m)[..k]
  }

  ghost predicate AllNamed(n: Naming, ms: seq<Member>) { forall m | m in ms :: Named(n, m) }

  lemma FolderFolds(n: Naming, p: Path, k: nat, q: Path, l: nat)
    requires k <= |p| && l <= |q|
    ensures Folded(n, p[..k]) == Folded(n, q[..l]) <==> k == l && Alike(n, p, q, k)
  {
    hide Folded;
    AlikeMeans(n, p[..k], q[..l]);
  }

  lemma SpelledOnceMeans(n: Naming, ms: seq<Member>)
    requires AllNamed(n, ms)
    ensures OneSpelling(n, Directories(n, ms)) <==> SpelledOnce(n, ms)
  {
    hide Named, DirectoriesOf, Folded, Alike, Parts;
    forall m | m in ms
      ensures forall p :: p in DirectoriesOf(n, m) <==> exists k: nat :: FolderOf(m, k, p)
    {
      FoldersAre(n, m);
    }
    if SpelledOnce(n, ms) {
      forall p, q | p in Directories(n, ms) && q in Directories(n, ms) && Folded(n, p) == Folded(n, q) ensures p == q {
        var l :| l in ms && p in DirectoriesOf(n, l);
        var m :| m in ms && q in DirectoriesOf(n, m);
        var j: nat :| FolderOf(l, j, p);
        var k: nat :| FolderOf(m, k, q);
        FolderFolds(n, Parts(l), j, Parts(m), k);
      }
    }
    if OneSpelling(n, Directories(n, ms)) {
      forall l, m, k: nat |
        l in ms && m in ms && IsFolder(l, k) && IsFolder(m, k) && Alike(n, Parts(l), Parts(m), k)
        ensures Parts(l)[..k] == Parts(m)[..k]
      {
        FolderFolds(n, Parts(l), k, Parts(m), k);
        assert FolderOf(l, k, Parts(l)[..k]) && FolderOf(m, k, Parts(m)[..k]);
        assert Parts(l)[..k] in DirectoriesOf(n, l) && Parts(m)[..k] in DirectoriesOf(n, m);
      }
    }
  }

  /** No two members fold to one name. */
  ghost predicate Apart(n: Naming, ms: seq<Member>) {
    forall i, j | 0 <= i < j < |ms| && |Parts(ms[i])| == |Parts(ms[j])| ::
      !Alike(n, Parts(ms[i]), Parts(ms[j]), |Parts(ms[i])|)
  }

  /** No member lies below a file. */
  ghost predicate Unburied(n: Naming, ms: seq<Member>) {
    forall f, m | f in ms && m in ms && !f.isDirectory && |Parts(f)| < |Parts(m)| ::
      !Alike(n, Parts(f), Parts(m), |Parts(f)|)
  }

  lemma KeysMean(n: Naming, ms: seq<Member>)
    requires AllNamed(n, ms)
    ensures DistinctKeys(n, ms) <==> Apart(n, ms)
    ensures NoFileAbove(n, ms) <==> Unburied(n, ms)
  {
    hide Named, PathOf, Folded, Alike, Parts;
    forall l, m | l in ms && m in ms
      ensures Key(n, l) == Key(n, m) <==> |Parts(l)| == |Parts(m)| && Alike(n, Parts(l), Parts(m), |Parts(l)|)
      ensures Key(n, l) < Key(n, m) <==> |Parts(l)| < |Parts(m)| && Alike(n, Parts(l), Parts(m), |Parts(l)|)
    {
      NameMeans(n, l);
      NameMeans(n, m);
      AlikeMeans(n, Parts(l), Parts(m));
    }
    if NoFileAbove(n, ms) {
      forall f, m | f in ms && m in ms && !f.isDirectory ensures !(Key(n, f) < Key(n, m)) {
        assert Key(n, f) in FileKeys(n, ms);
      }
    }
  }

  /** An archive is accepted exactly when every name is sound and public, no two members fold to one
      name, none lies below a file, and every folder is spelled in one way. */
  lemma CollisionlessMeans(n: Naming, ms: seq<Member>)
    ensures Collisionless(n, ms) <==>
      && (forall m | m in ms :: Sound(n, m) && Public(m))
      && Apart(n, ms) && Unburied(n, ms) && SpelledOnce(n, ms)
  {
    hide Sound, Public, Named, Publishable, OneSpelling, SpelledOnce, Directories, DistinctKeys, NoFileAbove, Apart,
      Unburied;
    forall m | m in ms
      ensures Named(n, m) <==> Sound(n, m)
      ensures Named(n, m) ==> PathOf(n, m) == Parts(m)
      ensures Publishable(Parts(m)) <==> Public(m)
    {
      NameMeans(n, m);
      PublicMeans(m);
    }
    if AllNamed(n, ms) {
      SpelledOnceMeans(n, ms);
      KeysMean(n, ms);
    }
  }
}
