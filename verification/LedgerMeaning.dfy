/** What a valid ledger entry is, in plain terms (scripts/openopps_kaggle/publication.py,
    `_validate_ledger_entry`). */
module LedgerMeaning {
  import opened Ledger
  import opened Orders
  import opened Text
  import opened Wrappers

  predicate Forbidden(c: char) { c as int > 127 || c == '\\' || c == '\0' || c == '%' || c == ':' }

  /** An ASCII path of at most 1024 characters without escapes, drives or controls that leads straight to
      its file. */
  ghost predicate Tame(path: string) {
    |path| <= 1024 && Straight(Split('/', path)) && forall c | c in path :: !Forbidden(c)
  }

  ghost predicate Clean(part: string) { forall i | 0 <= i < |part| :: !Forbidden(part[i]) }

  ghost predicate AllClean(parts: seq<string>) { forall i | 0 <= i < |parts| :: Clean(parts[i]) }

  lemma {:induction false} SplitKeepsClean(s: string)
    ensures Clean(s) <==> AllClean(Split('/', s))
  {
    if s != [] {
      hide AllClean, Clean;
      var rest := Split('/', s[1..]);
      SplitKeepsClean(s[1..]);
      CleanHead(s[0], s[1..]);
      assert [s[0]] + s[1..] == s;
      CleanHead(s[0], rest[0]);
      AllCleanHead("", rest);
      AllCleanHead([s[0]] + rest[0], rest[1..]);
      AllCleanHead(rest[0], rest[1..]);
      assert [rest[0]] + rest[1..] == rest;
      NothingClean();
    } else {
      NothingClean();
    }
  }

  lemma NothingClean()
    ensures Clean("") && AllClean([""])
  {
  }

  lemma CleanHead(c: char, s: string)
    ensures Clean([c] + s) <==> !Forbidden(c) && Clean(s)
  {
    var t := [c] + s;
    if Clean(t) {
      assert !Forbidden(t[0]);
      forall i | 0 <= i < |s| ensures !Forbidden(s[i]) { assert !Forbidden(t[i + 1]); }
    }
  }

  lemma AllCleanHead(part: string, rest: seq<string>)
    ensures AllClean([part] + rest) <==> Clean(part) && AllClean(rest)
  {
    hide Clean;
    var parts := [part] + rest;
    if AllClean(parts) {
      assert Clean(parts[0]);
      forall i | 0 <= i < |rest| ensures Clean(rest[i]) { assert Clean(parts[i + 1]); }
    }
  }

  lemma PathMeans(path: string)
    ensures PathOk(path) <==> Tame(path)
  {
    hide Split, Straight;
    var parts := Split('/', path);
    SplitKeepsClean(path);
    StraightIsPlain(parts);
    forall i | 0 <= i < |parts| ensures PartOk(parts[i]) <==> Plain(parts[i]) && Clean(parts[i]) {}
    assert Clean(path) <==> forall c | c in path :: !Forbidden(c) by {
      if Clean(path) {
        forall c | c in path ensures !Forbidden(c) { var i :| 0 <= i < |path| && path[i] == c; }
      }
      if forall c | c in path :: !Forbidden(c) {
        forall i | 0 <= i < |path| ensures !Forbidden(path[i]) { assert path[i] in path; }
      }
    }
  }

  /** One to two hundred files at tame paths, each before the next. */
  lemma FilesMean(files: seq<FileItem>)
    ensures FilesOk(files) <==>
      && 1 <= |files| <= 200
      && (forall f | f in files :: Tame(f.path) && f.size >= 0)
      && (forall i, j | 0 <= i < j < |files| :: Before(files[i].path, files[j].path))
  {
    hide PathOk, Tame, Before, StringLeq;
    forall i | 0 <= i < |files| ensures PathOk(files[i].path) <==> Tame(files[i].path) { PathMeans(files[i].path); }
    forall i, j | 0 <= i < j < |files|
      ensures Before(files[i].path, files[j].path)
        <==> StringLeq(files[i].path, files[j].path) && files[i].path != files[j].path
    {
      StringLeqMeans(files[i].path, files[j].path);
      NotBeforeItself(files[i].path);
    }
    assert Ascending(StringLeq, Paths(files)) <==>
      forall i, j | 0 <= i < j < |files| :: StringLeq(files[i].path, files[j].path) by {
      assert forall i | 0 <= i < |files| :: Paths(files)[i] == files[i].path;
    }
    if forall f | f in files :: Tame(f.path) && f.size >= 0 {
      forall i | 0 <= i < |files| ensures PathOk(files[i].path) && files[i].size >= 0 { assert files[i] in files; }
    }
  }

  /** The bytes of the files, from the front. */
  function Volume(files: seq<FileItem>): int { if files == [] then 0 else files[0].size + Volume(files[1..]) }

  lemma {:induction false} VolumeLast(files: seq<FileItem>)
    requires files != []
    ensures Volume(files) == Volume(files[..|files| - 1]) + files[|files| - 1].size
  {
    if |files| > 1 {
      VolumeLast(files[1..]);
      assert files[1..][..|files| - 2] == files[..|files| - 1][1..];
    }
  }

  lemma {:induction false} TotalIsVolume(files: seq<FileItem>)
    ensures TotalSize(files) == Volume(files)
  {
    if files != [] {
      TotalIsVolume(files[..|files| - 1]);
      VolumeLast(files);
    }
  }

  /** A letter, then letters, digits and underscores, at most eighty in all. */
  ghost predicate TypeName(name: string) {
    && name != "" && |name| <= 80 && !('0' <= name[0] <= '9') && name[0] != '_'
    && forall c | c in name :: 'A' <= c <= 'Z' || 'a' <= c <= 'z' || '0' <= c <= '9' || c == '_'
  }

  lemma TypeNameMeans(name: string)
    ensures TypeNameOk(name) <==> TypeName(name)
  {
    if TypeName(name) {
      forall i | 0 <= i < |name| ensures Ledger.Letter(name[i]) || '0' <= name[i] <= '9' || name[i] == '_' {
        assert name[i] in name;
      }
    }
  }

  /** An entry is valid exactly when its files are, its id is the digest of its plan, its plan and commands
      publish these very files as the first version or the next one, a readback is there exactly in
      `readback-verified` and repeats version, digest, number and volume of the files, and an error type
      is there exactly in the two failure phases. */
  lemma EntryMeans(e: Entry)
    ensures EntryOk(e) <==>
      && FilesOk(e.files) && e.planId.plan == e.plan && e.plan.bundle.preimage == e.files
      && (e.plan.action.Create? ==> e.plan.current == None && e.plan.published == 1)
      && (e.plan.action.Version? ==> e.plan.published >= 2 && e.plan.current == Some(e.plan.published - 1))
      && 1 <= e.messageBytes <= 200
      && e.commands == Commands(e.commands.style, e.plan.kind, e.plan.action, e.plan.current, e.plan.published)
      && (match e.readback
          case None => !e.phase.ReadbackVerified?
          case Some(r) =>
            && e.phase.ReadbackVerified? && r.version == e.plan.published && r.bundle.preimage == e.files
            && r.fileCount == |e.files| && r.totalBytes == Volume(e.files))
      && (match e.error
          case None => !e.phase.PreflightFailed? && !e.phase.ReadbackFailed?
          case Some(name) => (e.phase.PreflightFailed? || e.phase.ReadbackFailed?) && TypeName(name))
  {
    hide FilesOk, TypeName, TypeNameOk, TotalSize, Volume;
    TotalIsVolume(e.files);
    if e.error.Some? { TypeNameMeans(e.error.value); }
  }

  /** A ledger that was stored loads exactly when it is at most eight mebibytes long and holds at most a
      hundred valid entries, one for each plan; a missing one is empty. */
  lemma LedgerMeans(entries: seq<Entry>, size: seq<Entry> -> nat)
    ensures Loaded(Missing, size) == Some([]) && Loaded(Unreadable, size) == None
    ensures Loaded(Stored(entries), size).Some? <==>
      && size(entries) <= 8_388_608 && |entries| <= 100
      && (forall e | e in entries :: EntryOk(e))
      && (forall i, j | 0 <= i < j < |entries| :: entries[i].planId != entries[j].planId)
    ensures Loaded(Stored(entries), size).Some? ==> Loaded(Stored(entries), size).value == entries
  {
    hide EntryOk;
    if EntriesOk(entries) {
      forall e | e in entries ensures EntryOk(e) { var i :| 0 <= i < |entries| && entries[i] == e; }
    }
  }
}
