/** Which trees are digested, and what stream is hashed, in plain terms
    (scripts/docs_search_delivery.py and scripts/docs_search_bootstrap.py). */
module DigestMeaning {
  import opened Orders
  import opened TreeDigest
  import opened Wrappers
  import Text

  // ---- What is accepted ----

  ghost predicate FilesAndFolders(walk: seq<Found>) { forall f | f in walk :: f.kind.Regular? || f.kind.Folder? }

  /** Two names that differ in case only are two entries at most. */
  ghost predicate CaseApart(host: Host, walk: seq<Found>) {
    forall f, g | f in walk && g in walk ::
      host.casefold(Text.Join('/', f.path)) == host.casefold(Text.Join('/', g.path)) ==>
      Text.Join('/', f.path) == Text.Join('/', g.path)
  }

  /** Every file fits its frame. */
  ghost predicate Framable(host: Host, walk: seq<Found>, contents: map<Path, Bytes>) {
    forall f | f in walk && f.kind.Regular? && f.path in contents ::
      |host.utf8(Text.Join('/', f.path))| < 4_294_967_296 && |contents[f.path]| < 18_446_744_073_709_551_616
  }

  lemma {:induction false} PathsAre(walk: seq<Found>, kind: Kind)
    ensures forall p :: p in PathsOf(walk, kind) <==> exists f :: f in walk && f.kind == kind && f.path == p
  {
    if walk != [] {
      var before, last := walk[..|walk| - 1], walk[|walk| - 1];
      PathsAre(before, kind);
      assert walk == before + [last];
    }
  }

  lemma CasesMean(host: Host, walk: seq<Found>)
    requires FilesAndFolders(walk)
    ensures CaseColliding(host, Sort(PathLeq, PathsOf(walk, Regular) + PathsOf(walk, Folder)))
      <==> !CaseApart(host, walk)
  {
    hide PathsOf, Sort, PathLeq;
    PathsAre(walk, Regular);
    PathsAre(walk, Folder);
    var paths := Sort(PathLeq, PathsOf(walk, Regular) + PathsOf(walk, Folder));
    SortedMembers(PathsOf(walk, Regular) + PathsOf(walk, Folder));
    assert forall p :: p in paths <==> exists f :: f in walk && f.path == p;
    if CaseColliding(host, paths) {
      var i, j :| 0 <= i < j < |paths| && Clash(host, paths[i], paths[j]);
      assert paths[i] in paths && paths[j] in paths;
    }
    if !CaseApart(host, walk) {
      var f, g :| f in walk && g in walk && Clash(host, f.path, g.path);
      assert f.path in paths && g.path in paths;
      var i :| 0 <= i < |paths| && paths[i] == f.path;
      var j :| 0 <= j < |paths| && paths[j] == g.path;
      assert Clash(host, paths[i], paths[j]) && Clash(host, paths[j], paths[i]);
    }
  }

  lemma FramesMean(host: Host, walk: seq<Found>, contents: map<Path, Bytes>)
    requires Sha256Host(host) && Walk(walk, contents)
    ensures Encodes(host, PathsOf(walk, Regular), contents) <==> Framable(host, walk, contents)
  {
    hide PathsOf;
    PathsAre(walk, Regular);
  }

  /** The delivery script digests exactly the trees of files and folders whose names differ in more than
      case, and whose files fit their frames. */
  lemma DeliveryMeans(host: Host, walk: seq<Found>, contents: map<Path, Bytes>)
    requires Sha256Host(host) && Walk(walk, contents)
    ensures DeliveryAccepts(host, walk) && Encodes(host, PathsOf(walk, Regular), contents)
      <==> FilesAndFolders(walk) && CaseApart(host, walk) && Framable(host, walk, contents)
  {
    hide PathsOf, Sort, Encodes, Framable, CaseApart, CaseColliding, Walk;
    FramesMean(host, walk, contents);
    if FilesAndFolders(walk) { CasesMean(host, walk); }
  }

  /** The bootstrap script minds no names, but wants one link to every file. */
  lemma BootstrapMeans(host: Host, walk: seq<Found>, contents: map<Path, Bytes>)
    requires Sha256Host(host) && Walk(walk, contents)
    ensures BootstrapAccepts(walk) && Encodes(host, PathsOf(walk, Regular), contents) <==>
      && FilesAndFolders(walk) && Framable(host, walk, contents)
      && forall f | f in walk && f.kind.Regular? :: f.links == 1
  {
    hide PathsOf, Encodes, Framable, Walk;
    FramesMean(host, walk, contents);
  }

  // ---- What is hashed ----

  /** Every file of the walk once, in ascending order of paths. */
  ghost predicate ListsFiles(order: seq<Path>, walk: seq<Found>) {
    && (forall p :: p in order <==> exists f :: f in walk && f.kind == Regular && f.path == p)
    && (forall i, j | 0 <= i < j < |order| :: Precedes(order[i], order[j]))
  }

  /** One frame for each file: its path, its length and its digest. */
  ghost predicate Frames(host: Host, records: seq<Record>, order: seq<Path>, contents: map<Path, Bytes>) {
    && |records| == |order|
    && forall i | 0 <= i < |order| ::
      && order[i] in contents && records[i].path == host.utf8(Text.Join('/', order[i]))
      && records[i].size == |contents[order[i]]| && records[i].digest == host.sha(contents[order[i]])
  }

  lemma {:induction false} PathsAreApart(walk: seq<Found>, kind: Kind)
    requires forall i, j | 0 <= i < j < |walk| :: walk[i].path != walk[j].path
    ensures NoRepeats(PathsOf(walk, kind))
  {
    if walk != [] {
      var before, last := walk[..|walk| - 1], walk[|walk| - 1];
      PathsAreApart(before, kind);
      PathsAre(before, kind);
      forall f | f in before ensures f.path != last.path { var i :| 0 <= i < |before| && before[i] == f; }
      assert last.path !in PathsOf(before, kind);
    }
  }

  /** The stream frames the files of the tree, each once, in ascending order of their paths. */
  lemma StreamFramesFiles(host: Host, walk: seq<Found>, contents: map<Path, Bytes>)
    requires Sha256Host(host) && Walk(walk, contents) && Framable(host, walk, contents)
    ensures forall p | p in Sort(PathLeq, PathsOf(walk, Regular)) :: p in contents
    ensures exists order, records ::
      && ListsFiles(order, walk) && Frames(host, records, order, contents)
      && Parse(TreeStream(host, PathsOf(walk, Regular), contents)) == Some(records)
  {
    hide PathsOf, Sort, PathLeq, Precedes, Stream, Parse, Framable;
    var files := PathsOf(walk, Regular);
    FramesMean(host, walk, contents);
    PathsAre(walk, Regular);
    PathsAreApart(walk, Regular);
    OrderOf(files);
    var order := Sort(PathLeq, files);
    ParseUndoesStream(RecordsOf(host, order, contents));
    FramesOf(host, order, contents);
    assert ListsFiles(order, walk);
  }

  lemma FramesOf(host: Host, order: seq<Path>, contents: map<Path, Bytes>)
    requires forall p | p in order :: p in contents
    ensures Frames(host, RecordsOf(host, order, contents), order, contents)
  {
  }

  lemma OrderOf(files: seq<Path>)
    requires NoRepeats(files)
    ensures forall p :: p in Sort(PathLeq, files) <==> p in files
    ensures |Sort(PathLeq, files)| == |files|
    ensures forall i, j | 0 <= i < j < |files| :: Precedes(Sort(PathLeq, files)[i], Sort(PathLeq, files)[j])
  {
    hide PathLeq, Precedes, Sort;
    PathOrder();
    SortSorts(PathLeq, files);
    SortKeepsNoRepeats(PathLeq, files);
    var order := Sort(PathLeq, files);
    forall i, j | 0 <= i < j < |files| ensures Precedes(order[i], order[j]) { PathLeqMeans(order[i], order[j]); }
  }
}
