/**
 Checkpoint verification and finalization. A checkpoint is a tree of files with one outer manifest
 over everything and a manifest in each of two evidence directories. Finalization rewrites the
 nested manifests and then the outer one; every accepted tree whose manifests can be rewritten comes
 out verified without any warning.
 */
module Checkpoint {
  import opened Wrappers
  import opened CanonicalJson
  import opened Manifest
  import opened SortedStrings

  const OUTER := "ops/SHA256SUMS"
  const EVIDENCE := "ops/evidence/"
  const LEGACY_NAME := "03_RUNTIME_LOG_MANIFEST_EXCEPTION.txt"

  /** The names of the two evidence directories. */
  datatype Layout = Layout(runtime: string, commit: string)

  const LAYOUT := Layout("runtime", "commit")

  predicate PlainName(name: string) { IsName(name) && forall c | c in name :: IsSafe(c) }

  predicate GoodLayout(l: Layout) { PlainName(l.runtime) && PlainName(l.commit) && l.runtime != l.commit }

  lemma LayoutIsGood()
    ensures GoodLayout(LAYOUT)
  {
    assert LAYOUT.runtime[0] != LAYOUT.commit[0];
  }

  function Dir(name: string): string { EVIDENCE + name + "/" }

  function ManifestOf(name: string): string { Dir(name) + "SHA256SUMS" }

  function ReadmeOf(name: string): string { Dir(name) + "README.txt" }

  /** Where the commit evidence directory is; a regular file there is refused. */
  function CommitPath(l: Layout): string { EVIDENCE + l.commit }

  function Legacy(): string { EVIDENCE + LEGACY_NAME }

  type Files = map<string, string>

  /** The regular files and the directories by relative path, and the paths that may not be opened for writing. */
  datatype Tree = Tree(files: Files, dirs: set<string>, locked: set<string>)

  /** Every directory on the way to `p` is among `dirs`. */
  predicate ParentsIn(p: string, dirs: set<string>) {
    forall i | 0 < i < |p| && p[i] == '/' :: p[..i] in dirs
  }

  /** A tree that a file system can hold: no path is both, and parents are directories. */
  predicate WellFormed(t: Tree) {
    t.files.Keys !! t.dirs && (forall p | p in t.files :: ParentsIn(p, t.dirs)) && forall p | p in t.dirs :: ParentsIn(p, t.dirs)
  }

  predicate HasCommit(l: Layout, t: Tree) { CommitPath(l) in t.dirs }

  /** Opening the path for writing fails: it is a directory, or not permitted. */
  predicate Unwritable(t: Tree, p: string) { p in t.dirs || p in t.locked }

  // ---- Verification ----

  ghost predicate DigestShaped(sha: string -> string) { forall text :: IsDigest(sha(text)) }

  function Paths(es: seq<Entry>): set<string> { set e | e in es :: e.path }

  /** Checks that the outer manifest lists every other file with its digest. */
  function Outer(sha: string -> string, files: Files): Result<seq<Entry>> {
    if OUTER !in files then Err("evidence_file_missing") else
    var es := ParseText(files[OUTER]);
    if es.Err? then es
    else if Paths(es.value) != files.Keys - {OUTER} then Err("manifest_coverage_mismatch")
    else if exists e | e in es.value :: e.path in files && sha(files[e.path]) != e.digest then Err("manifest_digest_mismatch")
    else es
  }

  function Mismatches(sha: string -> string, files: Files, dir: string, es: seq<Entry>): seq<string>
    requires forall e | e in es :: dir + e.path in files
  {
    if es == [] then []
    else Mismatches(sha, files, dir, es[..|es| - 1])
         + (if sha(files[dir + es[|es| - 1].path]) != es[|es| - 1].digest then [dir + es[|es| - 1].path] else [])
  }

  /** The files that differ from what a nested manifest declares; a missing manifest declares nothing. */
  function Nested(sha: string -> string, files: Files, dir: string, manifest: string): Result<seq<string>> {
    if manifest !in files then Ok([]) else
    var es := ParseText(files[manifest]);
    if es.Err? then Err(es.reason)
    else if exists e | e in es.value :: dir + e.path !in files then Err("evidence_file_missing")
    else Ok(Mismatches(sha, files, dir, es.value))
  }

  /**
   The paths warned about, or the first error. `other` stands for the provenance, bundle, archive and
   runtime checks and `legacyOk` for the content check of a legacy exception file.
   */
  function Verify(l: Layout, sha: string -> string, other: Files -> bool, legacyOk: string -> bool, files: Files): Result<seq<string>> {
    var outer := Outer(sha, files);
    if outer.Err? then Err(outer.reason)
    else if ReadmeOf(l.runtime) !in files || !other(files) then Err("evidence_invalid") else
    var runtime := Nested(sha, files, Dir(l.runtime), ManifestOf(l.runtime));
    if runtime.Err? then runtime else
    var commit := Nested(sha, files, Dir(l.commit), ManifestOf(l.commit));
    if commit.Err? then commit
    else if Legacy() in files && !legacyOk(files[Legacy()]) then Err("runtime_manifest_exception_incomplete")
    else Ok(runtime.value + commit.value)
  }

  /** Exactly the listed files whose contents differ from the listing are reported. */
  lemma {:induction false} MismatchesAreExact(sha: string -> string, files: Files, dir: string, es: seq<Entry>, p: string)
    requires forall e | e in es :: dir + e.path in files
    ensures p in Mismatches(sha, files, dir, es) <==> exists e :: e in es && p == dir + e.path && sha(files[p]) != e.digest
  {
    if es != [] {
      var init, last := es[..|es| - 1], es[|es| - 1];
      assert es == init + [last];
      MismatchesAreExact(sha, files, dir, init, p);
    }
  }

  /** The outer manifest is there, can be read, and lists every other file and no more, each with its digest. */
  ghost predicate OuterHolds(sha: string -> string, files: Files) {
    && OUTER in files
    && var es := ParseText(files[OUTER]);
    && es.Ok? && (forall p :: p in files && p != OUTER <==> exists e :: e in es.value && e.path == p)
    && forall e | e in es.value :: e.path in files && sha(files[e.path]) == e.digest
  }

  /** A nested manifest is missing, or can be read and lists existing files. */
  ghost predicate NestedReads(files: Files, name: string) {
    ManifestOf(name) in files ==>
      var es := ParseText(files[ManifestOf(name)]);
      es.Ok? && forall e | e in es.value :: Dir(name) + e.path in files
  }

  /** The path is warned about: a nested manifest lists it with another digest. */
  ghost predicate Warned(sha: string -> string, files: Files, name: string, p: string) {
    && NestedReads(files, name) && ManifestOf(name) in files
    && exists e :: e in ParseText(files[ManifestOf(name)]).value && p == Dir(name) + e.path && p in files && sha(files[p]) != e.digest
  }

  lemma NestedIsExact(sha: string -> string, files: Files, name: string)
    ensures var r := Nested(sha, files, Dir(name), ManifestOf(name));
      (r.Ok? <==> NestedReads(files, name)) && (r.Ok? ==> forall p :: p in r.value <==> Warned(sha, files, name, p))
  {
    var r := Nested(sha, files, Dir(name), ManifestOf(name));
    if r.Ok? && ManifestOf(name) in files {
      forall p ensures p in r.value <==> Warned(sha, files, name, p) {
        MismatchesAreExact(sha, files, Dir(name), ParseText(files[ManifestOf(name)]).value, p);
      }
    }
  }

  lemma OuterIsExact(sha: string -> string, files: Files)
    ensures Outer(sha, files).Ok? <==> OuterHolds(sha, files)
  {
    if OUTER in files && ParseText(files[OUTER]).Ok? {
      var es := ParseText(files[OUTER]).value;
      assert forall p :: p in Paths(es) <==> exists e :: e in es && e.path == p;
      assert forall p :: p in files.Keys - {OUTER} <==> p in files && p != OUTER;
      if OuterHolds(sha, files) {
        assert Paths(es) == files.Keys - {OUTER};
      }
    }
  }

  /**
   Exactly when a tree is accepted, and exactly what is warned about: the outer manifest holds, the README
   and the other checks are there, nested manifests and the legacy exception can be read; the files that a
   nested manifest lists with another digest are reported.
   */
  lemma VerifyIsExact(l: Layout, sha: string -> string, other: Files -> bool, legacyOk: string -> bool, files: Files)
    ensures var r := Verify(l, sha, other, legacyOk, files);
      && (r.Ok? <==>
            && OuterHolds(sha, files) && ReadmeOf(l.runtime) in files && other(files)
            && NestedReads(files, l.runtime) && NestedReads(files, l.commit)
            && (Legacy() in files ==> legacyOk(files[Legacy()])))
      && (r.Ok? ==> forall p :: p in r.value <==> Warned(sha, files, l.runtime, p) || Warned(sha, files, l.commit, p))
  {
    OuterIsExact(sha, files);
    NestedIsExact(sha, files, l.runtime);
    NestedIsExact(sha, files, l.commit);
  }

  /** The two trees hold the same files apart from the three manifests. */
  predicate SamePayload(l: Layout, a: Files, b: Files) {
    var manifests := {OUTER, ManifestOf(l.runtime), ManifestOf(l.commit)};
    a.Keys - manifests == b.Keys - manifests && forall p | p in a.Keys - manifests :: a[p] == b[p]
  }

  ghost predicate IgnoresManifests(l: Layout, other: Files -> bool) {
    forall a, b | SamePayload(l, a, b) :: other(a) == other(b)
  }

  // ---- Writing a manifest ----

  /** The paths below `dir`, relative to it, of every file but the manifest. */
  function Scope(files: Files, dir: string, manifest: string): set<string> {
    set p | p in files && StartsWith(p, dir) && p != manifest :: p[|dir|..]
  }

  function EntriesFor(sha: string -> string, files: Files, dir: string, rels: seq<string>): (es: seq<Entry>)
    requires forall r | r in rels :: dir + r in files
    ensures |es| == |rels| && forall i | 0 <= i < |es| :: es[i] == Entry(sha(files[dir + rels[i]]), rels[i])
  {
    seq(|rels|, i requires 0 <= i < |rels| => Entry(sha(files[dir + rels[i]]), rels[i]))
  }

  lemma InScope(files: Files, dir: string, manifest: string)
    ensures forall r :: r in Scope(files, dir, manifest) <==> dir + r in files && dir + r != manifest
  {
    forall r ensures r in Scope(files, dir, manifest) <==> dir + r in files && dir + r != manifest {
      assert StartsWith(dir + r, dir) && (dir + r)[|dir|..] == r;
      if r in Scope(files, dir, manifest) {
        var p :| p in files && StartsWith(p, dir) && p != manifest && p[|dir|..] == r;
        assert p == dir + r;
      }
    }
  }

  ghost function Listing(sha: string -> string, files: Files, dir: string, manifest: string): seq<Entry> {
    InScope(files, dir, manifest);
    EntriesFor(sha, files, dir, SortedOf(Scope(files, dir, manifest)))
  }

  /** The manifest lists exactly the files of its directory, with their digests. */
  ghost predicate Fresh(sha: string -> string, files: Files, dir: string, manifest: string) {
    manifest in files && ParseText(files[manifest]) == Ok(Listing(sha, files, dir, manifest))
  }

  ghost predicate CleanScope(files: Files, dir: string, manifest: string) {
    Scope(files, dir, manifest) != {} && forall r | r in Scope(files, dir, manifest) :: Clean(r)
  }

  /** Writing the listing of a clean directory makes its manifest fresh. */
  lemma WritingMakesFresh(sha: string -> string, files: Files, dir: string, manifest: string)
    requires DigestShaped(sha) && CleanScope(files, dir, manifest)
    ensures Fresh(sha, files[manifest := ManifestText(Listing(sha, files, dir, manifest))], dir, manifest)
  {
    InScope(files, dir, manifest);
    var es := Listing(sha, files, dir, manifest);
    forall e | e in es ensures CleanEntry(e) {
    }
    PrintThenParse(es);
    var files' := files[manifest := ManifestText(es)];
    assert Scope(files', dir, manifest) == Scope(files, dir, manifest);
    InScope(files', dir, manifest);
    assert Listing(sha, files', dir, manifest) == es;
  }

  /** A manifest stays fresh when a file outside its directory is written. */
  lemma FreshSurvives(sha: string -> string, files: Files, dir: string, manifest: string, p: string, text: string)
    requires Fresh(sha, files, dir, manifest) && !StartsWith(p, dir) && p != manifest
    ensures Fresh(sha, files[p := text], dir, manifest)
  {
    var files' := files[p := text];
    InScope(files, dir, manifest);
    InScope(files', dir, manifest);
    assert Scope(files', dir, manifest) == Scope(files, dir, manifest);
    forall r | r in SortedOf(Scope(files, dir, manifest)) ensures files'[dir + r] == files[dir + r] {
      assert StartsWith(dir + r, dir);
    }
    assert Listing(sha, files', dir, manifest) == Listing(sha, files, dir, manifest);
  }

  lemma {:induction false} NoMismatches(sha: string -> string, files: Files, dir: string, es: seq<Entry>)
    requires forall e | e in es :: dir + e.path in files && sha(files[dir + e.path]) == e.digest
    ensures Mismatches(sha, files, dir, es) == []
  {
    if es != [] {
      NoMismatches(sha, files, dir, es[..|es| - 1]);
    }
  }

  lemma FreshNestedGivesNoWarning(sha: string -> string, files: Files, dir: string, manifest: string)
    requires Fresh(sha, files, dir, manifest)
    ensures Nested(sha, files, dir, manifest) == Ok([])
  {
    InScope(files, dir, manifest);
    NoMismatches(sha, files, dir, Listing(sha, files, dir, manifest));
  }

  lemma OuterListsEverything(sha: string -> string, files: Files)
    ensures Paths(Listing(sha, files, "", OUTER)) == files.Keys - {OUTER}
    ensures forall e | e in Listing(sha, files, "", OUTER) :: e.path in files && sha(files[e.path]) == e.digest
  {
    InScope(files, "", OUTER);
    var es, rels := Listing(sha, files, "", OUTER), SortedOf(Scope(files, "", OUTER));
    forall p ensures p in Paths(es) <==> p in files && p != OUTER {
      assert "" + p == p;
      if p in rels {
        var i :| 0 <= i < |rels| && rels[i] == p;
        assert es[i].path == p && es[i] in es;
      }
    }
    forall e | e in es ensures e.path in files && sha(files[e.path]) == e.digest {
      assert "" + e.path == e.path;
    }
  }

  lemma FreshOuterIsAccepted(sha: string -> string, files: Files)
    requires Fresh(sha, files, "", OUTER)
    ensures Outer(sha, files) == Ok(Listing(sha, files, "", OUTER))
  {
    OuterListsEverything(sha, files);
  }

  /** Writing any covered file after the outer manifest is detected, so the outer one must come last. */
  lemma LaterWriteIsDetected(sha: string -> string, files: Files, p: string, text: string)
    requires Outer(sha, files).Ok? && p in files && p != OUTER && sha(text) != sha(files[p])
    ensures Outer(sha, files[p := text]) == Err("manifest_digest_mismatch")
  {
    var es := ParseText(files[OUTER]).value;
    assert p in Paths(es);
    var e :| e in es && e.path == p;
    assert files[p := text].Keys == files.Keys;
  }

  // ---- Finalization ----

  /** Acceptance alone shows that every path but the outer manifest's is clean. */
  lemma AcceptedPathsAreClean(sha: string -> string, files: Files, p: string)
    requires Outer(sha, files).Ok? && p in files && p != OUTER
    ensures Clean(p)
  {
    ParsedIsClean(files[OUTER]);
    assert p in Paths(ParseText(files[OUTER]).value);
  }

  lemma PlainIsClean(name: string)
    requires PlainName(name)
    ensures Clean(name)
  {
    SplitOfPart(name, "");
  }

  lemma EvidenceParts(name: string)
    requires '/' !in name
    ensures Split(EVIDENCE + name) == ["ops", "evidence", name]
  {
    var parents := ["ops", "evidence"];
    assert parents[1..] == ["evidence"];
    assert Join(parents) == "ops/evidence";
    SplitBelow(parents, name);
    SplitOfPart(name, "");
    assert EVIDENCE + name == Join(parents) + "/" + name;
    assert parents + [name] == ["ops", "evidence", name];
  }

  lemma EvidenceDirIsClean(name: string, rel: string)
    requires PlainName(name)
    ensures Clean(Dir(name) + rel) <==> Clean(rel)
  {
    var base := EVIDENCE + name;
    EvidenceParts(name);
    EvidenceIsSafe(name);
    CleanBelow(base, rel);
    assert Dir(name) + rel == base + "/" + rel;
  }

  lemma EvidenceIsSafe(name: string)
    requires PlainName(name)
    ensures forall c | c in EVIDENCE + name :: IsSafe(c)
  {
    assert forall c | c in EVIDENCE :: IsSafe(c);
  }

  lemma ManifestIsClean(name: string)
    requires PlainName(name)
    ensures Clean(ManifestOf(name))
  {
    assert PlainName("SHA256SUMS");
    PlainIsClean("SHA256SUMS");
    EvidenceDirIsClean(name, "SHA256SUMS");
  }

  ghost predicate AllClean(files: Files) { forall p | p in files && p != OUTER :: Clean(p) }

  ghost function Rewritten(sha: string -> string, files: Files, dir: string, manifest: string): Files {
    files[manifest := ManifestText(Listing(sha, files, dir, manifest))]
  }

  /** The tree after the runtime, commit and outer manifests were rewritten, in that order. */
  ghost function Finalized(l: Layout, sha: string -> string, t: Tree): Files {
    var runtime := Rewritten(sha, t.files, Dir(l.runtime), ManifestOf(l.runtime));
    var commit := if HasCommit(l, t) then Rewritten(sha, runtime, Dir(l.commit), ManifestOf(l.commit)) else runtime;
    Rewritten(sha, commit, "", OUTER)
  }

  lemma OuterIsApart(name: string, rel: string)
    ensures !StartsWith(OUTER, Dir(name)) && Dir(name) + rel != OUTER
  {
    assert Dir(name)[4] == 'e' && OUTER[4] == 'S';
    assert (Dir(name) + rel)[4] == 'e';
  }

  /** A path tells which evidence directory it is in. */
  lemma SameDirectory(a: string, b: string, p: string)
    requires '/' !in a && '/' !in b && StartsWith(p, Dir(a)) && StartsWith(p, Dir(b))
    ensures a == b
  {
    var m, n := |EVIDENCE| + |a|, |EVIDENCE| + |b|;
    assert p[..m + 1] == Dir(a) && p[..n + 1] == Dir(b);
    assert p[m] == Dir(a)[m] == '/' && p[n] == Dir(b)[n] == '/';
    assert p[|EVIDENCE|..m] == Dir(a)[|EVIDENCE|..m] == a;
    assert p[|EVIDENCE|..n] == Dir(b)[|EVIDENCE|..n] == b;
    assert forall i | |EVIDENCE| <= i < m :: p[i] == a[i - |EVIDENCE|];
    assert forall i | |EVIDENCE| <= i < n :: p[i] == b[i - |EVIDENCE|];
  }

  lemma DirectoriesAreApart(a: string, b: string, rel: string)
    requires PlainName(a) && PlainName(b) && a != b
    ensures !StartsWith(Dir(a) + rel, Dir(b)) && Dir(a) + rel != ManifestOf(b)
  {
    assert StartsWith(Dir(a) + rel, Dir(a)) && StartsWith(ManifestOf(b), Dir(b));
    if StartsWith(Dir(a) + rel, Dir(b)) {
      SameDirectory(a, b, Dir(a) + rel);
    }
  }

  lemma LegacyIsApart(name: string)
    ensures Legacy() != ManifestOf(name) && Legacy() != OUTER
  {
    assert ManifestOf(name)[13 + |name|] == '/';
    assert |ManifestOf(name)| == 24 + |name|;
    assert forall i | 13 <= i < |Legacy()| :: Legacy()[i] == LEGACY_NAME[i - 13] != '/';
  }

  /** Rewriting the manifest of one evidence directory keeps all paths clean. */
  lemma RewriteNested(sha: string -> string, files: Files, name: string)
    requires DigestShaped(sha) && AllClean(files) && PlainName(name)
    requires Scope(files, Dir(name), ManifestOf(name)) != {}
    ensures Fresh(sha, Rewritten(sha, files, Dir(name), ManifestOf(name)), Dir(name), ManifestOf(name))
    ensures AllClean(Rewritten(sha, files, Dir(name), ManifestOf(name)))
  {
    InScope(files, Dir(name), ManifestOf(name));
    forall r | r in Scope(files, Dir(name), ManifestOf(name)) ensures Clean(r) {
      OuterIsApart(name, r);
      EvidenceDirIsClean(name, r);
    }
    ManifestIsClean(name);
    WritingMakesFresh(sha, files, Dir(name), ManifestOf(name));
  }

  lemma RewriteOuter(sha: string -> string, files: Files, p: string)
    requires DigestShaped(sha) && AllClean(files) && p in files && p != OUTER
    ensures Fresh(sha, Rewritten(sha, files, "", OUTER), "", OUTER)
  {
    InScope(files, "", OUTER);
    assert "" + p == p;
    forall r | r in Scope(files, "", OUTER) ensures Clean(r) {
      assert "" + r == r;
    }
    WritingMakesFresh(sha, files, "", OUTER);
  }

  lemma RuntimeHasPayload(files: Files, name: string)
    requires ReadmeOf(name) in files
    ensures Scope(files, Dir(name), ManifestOf(name)) != {}
  {
    InScope(files, Dir(name), ManifestOf(name));
    assert ReadmeOf(name)[|Dir(name)|] == 'R' && ManifestOf(name)[|Dir(name)|] == 'S';
    assert "README.txt" in Scope(files, Dir(name), ManifestOf(name));
  }

  /** A file of an evidence directory means that the directory is there. */
  lemma FileNeedsDirectory(t: Tree, name: string, rel: string)
    requires WellFormed(t) && (Dir(name) + rel in t.files || Dir(name) + rel in t.dirs) && rel != ""
    ensures EVIDENCE + name in t.dirs && ParentsIn(EVIDENCE + name, t.dirs)
  {
    var p, i := Dir(name) + rel, |EVIDENCE + name|;
    assert p[i] == '/' && p[..i] == EVIDENCE + name;
    assert ParentsIn(p, t.dirs);
  }

  lemma NoCommitManifest(l: Layout, t: Tree)
    requires WellFormed(t) && !HasCommit(l, t)
    ensures ManifestOf(l.commit) !in t.files && ManifestOf(l.commit) !in t.dirs
  {
    if ManifestOf(l.commit) in t.files || ManifestOf(l.commit) in t.dirs {
      FileNeedsDirectory(t, l.commit, "SHA256SUMS");
    }
  }

  /** Both nested manifests are fresh before the outer one is written. */
  lemma NestedAreFresh(l: Layout, sha: string -> string, t: Tree, runtime: Files, commit: Files)
    requires DigestShaped(sha) && AllClean(t.files) && ReadmeOf(l.runtime) in t.files && WellFormed(t) && GoodLayout(l)
    requires HasCommit(l, t) ==> Scope(t.files, Dir(l.commit), ManifestOf(l.commit)) != {}
    requires runtime == Rewritten(sha, t.files, Dir(l.runtime), ManifestOf(l.runtime))
    requires commit == if HasCommit(l, t) then Rewritten(sha, runtime, Dir(l.commit), ManifestOf(l.commit)) else runtime
    ensures AllClean(commit)
    ensures Fresh(sha, commit, Dir(l.runtime), ManifestOf(l.runtime))
    ensures if HasCommit(l, t) then Fresh(sha, commit, Dir(l.commit), ManifestOf(l.commit)) else ManifestOf(l.commit) !in commit
  {
    RuntimeHasPayload(t.files, l.runtime);
    RewriteNested(sha, t.files, l.runtime);
    DirectoriesAreApart(l.runtime, l.commit, "SHA256SUMS");
    DirectoriesAreApart(l.commit, l.runtime, "SHA256SUMS");
    if HasCommit(l, t) {
      InScope(t.files, Dir(l.commit), ManifestOf(l.commit));
      InScope(runtime, Dir(l.commit), ManifestOf(l.commit));
      var r :| r in Scope(t.files, Dir(l.commit), ManifestOf(l.commit));
      assert r in Scope(runtime, Dir(l.commit), ManifestOf(l.commit));
      RewriteNested(sha, runtime, l.commit);
      FreshSurvives(sha, runtime, Dir(l.runtime), ManifestOf(l.runtime), ManifestOf(l.commit), commit[ManifestOf(l.commit)]);
    } else {
      NoCommitManifest(l, t);
    }
  }

  /** All three manifests are fresh after the finalization steps. */
  lemma FinalizedIsFresh(l: Layout, sha: string -> string, t: Tree)
    requires DigestShaped(sha) && AllClean(t.files) && ReadmeOf(l.runtime) in t.files && WellFormed(t) && GoodLayout(l)
    requires HasCommit(l, t) ==> Scope(t.files, Dir(l.commit), ManifestOf(l.commit)) != {}
    ensures var files := Finalized(l, sha, t);
      && Fresh(sha, files, "", OUTER)
      && Fresh(sha, files, Dir(l.runtime), ManifestOf(l.runtime))
      && (if HasCommit(l, t) then Fresh(sha, files, Dir(l.commit), ManifestOf(l.commit)) else ManifestOf(l.commit) !in files)
  {
    var runtime := Rewritten(sha, t.files, Dir(l.runtime), ManifestOf(l.runtime));
    var commit := if HasCommit(l, t) then Rewritten(sha, runtime, Dir(l.commit), ManifestOf(l.commit)) else runtime;
    NestedAreFresh(l, sha, t, runtime, commit);
    OuterIsApart(l.runtime, "README.txt");
    OuterIsApart(l.runtime, "SHA256SUMS");
    OuterIsApart(l.commit, "SHA256SUMS");
    RewriteOuter(sha, commit, ReadmeOf(l.runtime));
    var text := ManifestText(Listing(sha, commit, "", OUTER));
    FreshSurvives(sha, commit, Dir(l.runtime), ManifestOf(l.runtime), OUTER, text);
    if HasCommit(l, t) {
      FreshSurvives(sha, commit, Dir(l.commit), ManifestOf(l.commit), OUTER, text);
    }
  }

  lemma PayloadKept(l: Layout, sha: string -> string, t: Tree)
    ensures SamePayload(l, t.files, Finalized(l, sha, t))
    ensures Legacy() in Finalized(l, sha, t) <==> Legacy() in t.files
    ensures ReadmeOf(l.runtime) in t.files ==> ReadmeOf(l.runtime) in Finalized(l, sha, t)
  {
    LegacyIsApart(l.runtime);
    LegacyIsApart(l.commit);
  }

  lemma VerifiedParts(l: Layout, sha: string -> string, other: Files -> bool, legacyOk: string -> bool, files: Files)
    requires Verify(l, sha, other, legacyOk, files).Ok?
    ensures Outer(sha, files).Ok? && ReadmeOf(l.runtime) in files && other(files)
  {
  }

  lemma VerifiedQuietly(l: Layout, sha: string -> string, other: Files -> bool, legacyOk: string -> bool, files: Files)
    requires Outer(sha, files).Ok? && ReadmeOf(l.runtime) in files && other(files) && Legacy() !in files
    requires Nested(sha, files, Dir(l.runtime), ManifestOf(l.runtime)) == Ok([])
    requires Nested(sha, files, Dir(l.commit), ManifestOf(l.commit)) == Ok([])
    ensures Verify(l, sha, other, legacyOk, files) == Ok([])
  {
    var none: seq<string> := [];
    assert none + none == none;
  }

  /** Nothing keeps the three manifests from being rewritten. */
  predicate Rewritable(l: Layout, t: Tree) {
    && Legacy() !in t.files && Legacy() !in t.dirs && CommitPath(l) !in t.files
    && !Unwritable(t, ManifestOf(l.runtime)) && !Unwritable(t, OUTER)
    && (HasCommit(l, t) ==> Scope(t.files, Dir(l.commit), ManifestOf(l.commit)) != {} && !Unwritable(t, ManifestOf(l.commit)))
  }

  /**
   Every accepted candidate whose manifests can be rewritten, whatever its warnings, is finalized into
   a well-formed tree that verifies without any warning and differs from the candidate only in them.
   */
  lemma FinalizationRepairsEveryWarning(l: Layout, sha: string -> string, other: Files -> bool, legacyOk: string -> bool, t: Tree)
    requires GoodLayout(l) && DigestShaped(sha) && IgnoresManifests(l, other) && WellFormed(t)
    requires Verify(l, sha, other, legacyOk, t.files).Ok? && Rewritable(l, t)
    ensures Verify(l, sha, other, legacyOk, Finalized(l, sha, t)) == Ok([])
    ensures SamePayload(l, t.files, Finalized(l, sha, t)) && WellFormed(t.(files := Finalized(l, sha, t)))
  {
    VerifiedParts(l, sha, other, legacyOk, t.files);
    forall p | p in t.files && p != OUTER ensures Clean(p) {
      AcceptedPathsAreClean(sha, t.files, p);
    }
    var files := Finalized(l, sha, t);
    FinalizedIsFresh(l, sha, t);
    PayloadKept(l, sha, t);
    FreshOuterIsAccepted(sha, files);
    FreshNestedGivesNoWarning(sha, files, Dir(l.runtime), ManifestOf(l.runtime));
    if HasCommit(l, t) {
      FreshNestedGivesNoWarning(sha, files, Dir(l.commit), ManifestOf(l.commit));
    }
    VerifiedQuietly(l, sha, other, legacyOk, files);
    FinalizedIsWellFormed(l, sha, t);
  }

  lemma ManifestParents(t: Tree, name: string)
    requires PlainName(name) && EVIDENCE + name in t.dirs && ParentsIn(EVIDENCE + name, t.dirs)
    ensures ParentsIn(ManifestOf(name), t.dirs)
  {
    var p, n := ManifestOf(name), |EVIDENCE + name|;
    assert p[..n] == EVIDENCE + name;
    assert forall i | n < i < |p| :: p[i] == "SHA256SUMS"[i - n - 1] != '/';
    forall i | 0 < i < |p| && p[i] == '/' ensures p[..i] in t.dirs {
      if i < n {
        assert (EVIDENCE + name)[i] == '/' && (EVIDENCE + name)[..i] == p[..i];
      }
    }
  }

  lemma WrittenIsWellFormed(t: Tree, p: string, text: string)
    requires WellFormed(t) && p !in t.dirs && ParentsIn(p, t.dirs)
    ensures WellFormed(t.(files := t.files[p := text]))
  {
  }

  lemma FinalizedIsWellFormed(l: Layout, sha: string -> string, t: Tree)
    requires GoodLayout(l) && WellFormed(t) && Rewritable(l, t) && ReadmeOf(l.runtime) in t.files && OUTER in t.files
    ensures WellFormed(t.(files := Finalized(l, sha, t)))
  {
    var runtime := Rewritten(sha, t.files, Dir(l.runtime), ManifestOf(l.runtime));
    var commit := if HasCommit(l, t) then Rewritten(sha, runtime, Dir(l.commit), ManifestOf(l.commit)) else runtime;
    FileNeedsDirectory(t, l.runtime, "README.txt");
    ManifestParents(t, l.runtime);
    WrittenIsWellFormed(t, ManifestOf(l.runtime), runtime[ManifestOf(l.runtime)]);
    if HasCommit(l, t) {
      ManifestParents(t, l.commit);
      WrittenIsWellFormed(t.(files := runtime), ManifestOf(l.commit), commit[ManifestOf(l.commit)]);
    }
    WrittenIsWellFormed(t.(files := commit), OUTER, Finalized(l, sha, t)[OUTER]);
  }

  // ---- Accepted and yet refused ----

  /** A path below that of a nested manifest. */
  function Below(name: string, x: string): string { ManifestOf(name) + "/" + x }

  function AddBelow(files: Files, name: string, x: string, text: string): Files { files[Below(name, x) := text] }

  /** The checks do not look below the path of the nested manifest. */
  ghost predicate Blind(other: Files -> bool, name: string) {
    forall files, x, text :: other(AddBelow(files, name, x, text)) == other(files)
  }

  /** The directories on the way to a path. */
  function Parents(p: string): set<string> { set i | 0 < i < |p| && p[i] == '/' :: p[..i] }

  lemma ParentsOfParents(p: string, i: nat, dirs: set<string>)
    requires i < |p| && Parents(p) <= dirs
    ensures ParentsIn(p, dirs) && ParentsIn(p[..i], dirs)
  {
    forall j | 0 < j < |p| && p[j] == '/' ensures p[..j] in dirs {
      assert p[..j] in Parents(p);
    }
    forall j | 0 < j < i && p[..i][j] == '/' ensures p[..i][..j] in dirs {
      assert p[..i][..j] == p[..j];
    }
  }

  /** A file can be added when none of its parents is a file. */
  lemma AddedIsWellFormed(t: Tree, p: string, text: string)
    requires WellFormed(t) && p !in t.dirs && Parents(p) !! t.files.Keys
    ensures WellFormed(Tree(t.files[p := text], t.dirs + Parents(p), t.locked))
  {
    var dirs := t.dirs + Parents(p);
    forall d | d in Parents(p) ensures d != p && ParentsIn(d, dirs) {
      ParentsOfParents(p, |d|, dirs);
    }
    forall j | 0 < j < |p| && p[j] == '/' ensures p[..j] in dirs {
      assert p[..j] in Parents(p);
    }
  }

  lemma EvidenceParents(i: nat)
    requires 0 < i < |EVIDENCE| && EVIDENCE[i] == '/'
    ensures EVIDENCE[..i] in {"ops", "ops/evidence"}
  {
    assert i == 3 || i == 12;
    assert EVIDENCE[..3] == "ops" && EVIDENCE[..12] == "ops/evidence";
  }

  lemma ParentOfNested(root: string, a: string, b: string, c: string, p: string, i: nat)
    requires '/' !in a && '/' !in b && '/' !in c && p == root + a + "/" + b + "/" + c && |root| <= i < |p| && p[i] == '/'
    ensures p[..i] == root + a || p[..i] == root + a + "/" + b
  {
    var m, n := |root| + |a|, |root| + |a| + 1 + |b|;
    assert forall j | |root| <= j < m :: p[j] == a[j - |root|];
    assert forall j | m < j < n :: p[j] == b[j - m - 1];
    assert forall j | n < j < |p| :: p[j] == c[j - n - 1];
    assert i == m || i == n;
    assert p[..m] == root + a && p[..n] == root + a + "/" + b;
  }

  lemma ParentsOfBelow(name: string, x: string, d: string)
    requires PlainName(name) && PlainName(x) && d in Parents(Below(name, x))
    ensures d == ManifestOf(name) || d == EVIDENCE + name || d in {"ops", "ops/evidence"}
  {
    var p := Below(name, x);
    var i :| 0 < i < |p| && p[i] == '/' && d == p[..i];
    if i < |EVIDENCE| {
      assert p[i] == EVIDENCE[i] && p[..i] == EVIDENCE[..i];
      EvidenceParents(i);
    } else {
      assert '/' !in "SHA256SUMS";
      ParentOfNested(EVIDENCE, name, "SHA256SUMS", x, p, i);
    }
  }

  lemma BelowHasParents(name: string, x: string)
    ensures ManifestOf(name) in Parents(Below(name, x)) && EVIDENCE + name in Parents(Below(name, x))
  {
    var p, n := Below(name, x), |Dir(name)|;
    assert p[n - 1] == '/' && p[..n - 1] == EVIDENCE + name;
    assert p[n + 10] == '/' && p[..n + 10] == ManifestOf(name);
  }

  /** The common parents are directories already. */
  lemma CommonParents(l: Layout, t: Tree)
    requires WellFormed(t) && ReadmeOf(l.runtime) in t.files
    ensures "ops" in t.dirs && "ops/evidence" in t.dirs
  {
    var p := ReadmeOf(l.runtime);
    assert p[3] == '/' && p[..3] == "ops" && p[12] == '/' && p[..12] == "ops/evidence";
    assert ParentsIn(p, t.dirs);
  }

  lemma BelowIsApart(name: string, x: string)
    ensures Below(name, x) != OUTER && Below(name, x) != Legacy() && Below(name, x) != ManifestOf(name)
  {
    var p := Below(name, x);
    assert p == Dir(name) + ("SHA256SUMS" + "/" + x);
    OuterIsApart(name, "SHA256SUMS" + "/" + x);
    assert p[13 + |name|] == '/' && |p| > 13 + |name|;
    assert forall i | 13 <= i < |Legacy()| :: Legacy()[i] == LEGACY_NAME[i - 13] != '/';
  }

  lemma NestedFileIsClean(name: string, a: string, b: string)
    requires PlainName(name) && PlainName(a) && PlainName(b)
    ensures Clean(Dir(name) + (a + "/" + b))
  {
    SplitOfPart(a, "");
    PlainIsClean(b);
    CleanBelow(a, b);
    EvidenceDirIsClean(name, a + "/" + b);
  }

  lemma BelowIsClean(name: string, x: string)
    requires PlainName(name) && PlainName(x)
    ensures Clean(Below(name, x))
  {
    NestedFileIsClean(name, "SHA256SUMS", x);
    assert Dir(name) + ("SHA256SUMS" + "/" + x) == Below(name, x);
  }

  lemma {:induction false} SameMismatches(sha: string -> string, a: Files, b: Files, dir: string, es: seq<Entry>)
    requires forall e | e in es :: dir + e.path in a && dir + e.path in b && a[dir + e.path] == b[dir + e.path]
    ensures Mismatches(sha, a, dir, es) == Mismatches(sha, b, dir, es)
  {
    if es != [] {
      SameMismatches(sha, a, b, dir, es[..|es| - 1]);
    }
  }

  ghost predicate SameBelow(a: Files, b: Files, dir: string) {
    forall p | StartsWith(p, dir) :: (p in a <==> p in b) && (p in a ==> a[p] == b[p])
  }

  /** The check of a nested manifest sees the files of its directory only. */
  lemma NestedSeesItsDirectory(sha: string -> string, a: Files, b: Files, name: string)
    requires SameBelow(a, b, Dir(name))
    ensures Nested(sha, a, Dir(name), ManifestOf(name)) == Nested(sha, b, Dir(name), ManifestOf(name))
  {
    assert forall rel: string :: StartsWith(Dir(name) + rel, Dir(name));
    if ManifestOf(name) in a {
      var es := ParseText(a[ManifestOf(name)]);
      if es.Ok? && forall e | e in es.value :: Dir(name) + e.path in a {
        SameMismatches(sha, a, b, Dir(name), es.value);
      }
    }
  }

  /** The candidate with one more file below the path of a nested manifest, listed in the outer manifest. */
  ghost function WithFileBelow(sha: string -> string, t: Tree, name: string, x: string, text: string): Tree {
    Tree(Rewritten(sha, AddBelow(t.files, name, x, text), "", OUTER), t.dirs + Parents(Below(name, x)), t.locked)
  }

  lemma NestedChecksAgree(l: Layout, sha: string -> string, t: Tree, name: string, x: string, text: string, checked: string)
    requires GoodLayout(l) && name in {l.runtime, l.commit} && checked in {l.runtime, l.commit} && ManifestOf(name) !in t.files
    ensures Nested(sha, WithFileBelow(sha, t, name, x, text).files, Dir(checked), ManifestOf(checked))
            == Nested(sha, t.files, Dir(checked), ManifestOf(checked))
  {
    var files := WithFileBelow(sha, t, name, x, text).files;
    BelowIsApart(name, x);
    OuterIsApart(checked, "SHA256SUMS");
    if checked != name {
      DirectoriesAreApart(name, checked, "SHA256SUMS" + "/" + x);
      assert Dir(name) + ("SHA256SUMS" + "/" + x) == Below(name, x);
      NestedSeesItsDirectory(sha, t.files, files, checked);
    }
  }

  lemma OuterStillAccepts(l: Layout, sha: string -> string, t: Tree, name: string, x: string, text: string)
    requires DigestShaped(sha) && PlainName(name) && PlainName(x) && Outer(sha, t.files).Ok? && ReadmeOf(l.runtime) in t.files
    ensures Outer(sha, WithFileBelow(sha, t, name, x, text).files).Ok?
  {
    var files := AddBelow(t.files, name, x, text);
    BelowIsClean(name, x);
    forall p | p in files && p != OUTER ensures Clean(p) {
      if p != Below(name, x) { AcceptedPathsAreClean(sha, t.files, p); }
    }
    OuterIsApart(l.runtime, "README.txt");
    RewriteOuter(sha, files, ReadmeOf(l.runtime));
    FreshOuterIsAccepted(sha, Rewritten(sha, files, "", OUTER));
  }

  lemma FileBelowFits(l: Layout, sha: string -> string, t: Tree, name: string, x: string, text: string)
    requires PlainName(name) && PlainName(x) && WellFormed(t) && ReadmeOf(l.runtime) in t.files && OUTER in t.files
    requires EVIDENCE + name !in t.files && ManifestOf(name) !in t.files && Below(name, x) !in t.dirs
    ensures WellFormed(WithFileBelow(sha, t, name, x, text))
  {
    var p := Below(name, x);
    CommonParents(l, t);
    forall d | d in Parents(p) ensures d !in t.files {
      ParentsOfBelow(name, x, d);
    }
    AddedIsWellFormed(t, p, text);
    var t' := Tree(t.files[p := text], t.dirs + Parents(p), t.locked);
    assert OUTER in t'.files;
    WrittenIsWellFormed(t', OUTER, WithFileBelow(sha, t, name, x, text).files[OUTER]);
  }

  /**
   Accepted and yet refused: take any accepted candidate without a nested manifest and add one file below
   that manifest's path, which makes it a directory. The verifier says what it said before, since the
   outer manifest lists files only, and the manifest can no longer be written.
   */
  lemma DirectoryAtManifest(l: Layout, sha: string -> string, other: Files -> bool, legacyOk: string -> bool, t: Tree, name: string, x: string, text: string)
    requires GoodLayout(l) && DigestShaped(sha) && IgnoresManifests(l, other) && Blind(other, name) && WellFormed(t)
    requires Verify(l, sha, other, legacyOk, t.files).Ok? && name in {l.runtime, l.commit} && PlainName(x)
    requires EVIDENCE + name !in t.files && ManifestOf(name) !in t.files && Below(name, x) !in t.dirs
    ensures var t' := WithFileBelow(sha, t, name, x, text);
      && t'.files.Keys == t.files.Keys + {Below(name, x)} && WellFormed(t')
      && Verify(l, sha, other, legacyOk, t'.files) == Verify(l, sha, other, legacyOk, t.files) && !Rewritable(l, t')
  {
    VerifiedParts(l, sha, other, legacyOk, t.files);
    FileBelowFits(l, sha, t, name, x, text);
    FileBelowIsAccepted(l, sha, other, legacyOk, t, name, x, text);
    BelowHasParents(name, x);
  }

  lemma FileBelowIsAccepted(l: Layout, sha: string -> string, other: Files -> bool, legacyOk: string -> bool, t: Tree, name: string, x: string, text: string)
    requires GoodLayout(l) && DigestShaped(sha) && IgnoresManifests(l, other) && Blind(other, name)
    requires Verify(l, sha, other, legacyOk, t.files).Ok? && name in {l.runtime, l.commit} && PlainName(x) && ManifestOf(name) !in t.files
    ensures Verify(l, sha, other, legacyOk, WithFileBelow(sha, t, name, x, text).files) == Verify(l, sha, other, legacyOk, t.files)
  {
    var files, files' := t.files, WithFileBelow(sha, t, name, x, text).files;
    VerifiedParts(l, sha, other, legacyOk, files);
    OuterStillAccepts(l, sha, t, name, x, text);
    assert SamePayload(l, AddBelow(files, name, x, text), files');
    NestedChecksAgree(l, sha, t, name, x, text, l.runtime);
    NestedChecksAgree(l, sha, t, name, x, text, l.commit);
    BelowIsApart(name, x);
    LegacyIsApart(name);
    SameVerdict(l, sha, other, legacyOk, files, files');
  }

  lemma SameVerdict(l: Layout, sha: string -> string, other: Files -> bool, legacyOk: string -> bool, a: Files, b: Files)
    requires Outer(sha, a).Ok? && Outer(sha, b).Ok? && ReadmeOf(l.runtime) in a && ReadmeOf(l.runtime) in b && other(a) == other(b)
    requires Nested(sha, a, Dir(l.runtime), ManifestOf(l.runtime)) == Nested(sha, b, Dir(l.runtime), ManifestOf(l.runtime))
    requires Nested(sha, a, Dir(l.commit), ManifestOf(l.commit)) == Nested(sha, b, Dir(l.commit), ManifestOf(l.commit))
    requires (Legacy() in a <==> Legacy() in b) && (Legacy() in a ==> a[Legacy()] == b[Legacy()])
    ensures Verify(l, sha, other, legacyOk, a) == Verify(l, sha, other, legacyOk, b)
  {
  }

  // ---- The finalizer ----

  lemma {:induction false} TextOfOneMore(es: seq<Entry>, e: Entry)
    ensures ManifestText(es + [e]) == ManifestText(es) + LineOf(e) + "\n"
  {
    if es == [] {
      assert es + [e] == [e];
    } else {
      assert (es + [e])[1..] == es[1..] + [e];
      TextOfOneMore(es[1..], e);
    }
  }

  lemma OneMoreListed(sha: string -> string, files: Files, dir: string, rels: seq<string>, i: nat)
    requires i < |rels| && forall r | r in rels :: dir + r in files
    ensures ManifestText(EntriesFor(sha, files, dir, rels[..i + 1]))
            == ManifestText(EntriesFor(sha, files, dir, rels[..i])) + LineOf(Entry(sha(files[dir + rels[i]]), rels[i])) + "\n"
  {
    var e := Entry(sha(files[dir + rels[i]]), rels[i]);
    TextOfOneMore(EntriesFor(sha, files, dir, rels[..i]), e);
    assert EntriesFor(sha, files, dir, rels[..i + 1]) == EntriesFor(sha, files, dir, rels[..i]) + [e];
  }

  method ListingText(sha: string -> string, files: Files, dir: string, rels: seq<string>) returns (text: string)
    requires forall r | r in rels :: dir + r in files
    ensures text == ManifestText(EntriesFor(sha, files, dir, rels))
  {
    text := "";
    for i := 0 to |rels|
      invariant text == ManifestText(EntriesFor(sha, files, dir, rels[..i]))
    {
      OneMoreListed(sha, files, dir, rels, i);
      text := text + LineOf(Entry(sha(files[dir + rels[i]]), rels[i])) + "\n";
    }
    assert rels[..|rels|] == rels;
  }

  /** Writes the manifest of a directory, unless that holds no other file or the manifest cannot be opened. */
  method WriteManifest(sha: string -> string, t: Tree, dir: string, manifest: string) returns (r: Result<Tree>)
    ensures r == if Scope(t.files, dir, manifest) == {} then Err("manifest_payload_empty")
                 else if Unwritable(t, manifest) then Err("finalization_io_error")
                 else Ok(t.(files := Rewritten(sha, t.files, dir, manifest)))
  {
    var scope := Scope(t.files, dir, manifest);
    if scope == {} {
      return Err("manifest_payload_empty");
    }
    InScope(t.files, dir, manifest);
    var rels := Sort(scope);
    var text := ListingText(sha, t.files, dir, rels);
    if manifest in t.dirs || manifest in t.locked {
      return Err("finalization_io_error");
    }
    return Ok(t.(files := t.files[manifest := text]));
  }

  /**
   Freezes a candidate. It succeeds exactly for accepted candidates whose manifests can be rewritten;
   the staged tree is then well formed and verifies without warnings, so the check made before
   publishing cannot fail.
   */
  method FinalizeCheckpoint(l: Layout, sha: string -> string, other: Files -> bool, legacyOk: string -> bool, t: Tree)
    returns (r: Result<Tree>)
    requires GoodLayout(l) && DigestShaped(sha) && IgnoresManifests(l, other) && WellFormed(t)
    ensures r.Ok? <==> Verify(l, sha, other, legacyOk, t.files).Ok? && Rewritable(l, t)
    ensures r.Ok? ==>
      && Verify(l, sha, other, legacyOk, r.value.files) == Ok([])
      && SamePayload(l, t.files, r.value.files) && r.value.dirs == t.dirs && WellFormed(r.value)
  {
    if Legacy() in t.files || Legacy() in t.dirs {
      return Err("legacy_runtime_exception_present");
    }
    var verification := Verify(l, sha, other, legacyOk, t.files);
    if verification.Err? {
      return Err("verification_failed");
    }
    VerifiedParts(l, sha, other, legacyOk, t.files);
    RuntimeHasPayload(t.files, l.runtime);
    var runtime := WriteManifest(sha, t, Dir(l.runtime), ManifestOf(l.runtime));
    if runtime.Err? { return runtime; }
    var staging := runtime.value;
    CommitScopeKept(l, sha, t.files);
    if CommitPath(l) in t.files {
      return Err("commit_evidence_directory_invalid");
    }
    if CommitPath(l) in t.dirs {
      var commit := WriteManifest(sha, staging, Dir(l.commit), ManifestOf(l.commit));
      if commit.Err? { return commit; }
      staging := commit.value;
    }
    OuterHasPayload(l, staging.files);
    var outer := WriteManifest(sha, staging, "", OUTER);
    if outer.Err? { return outer; }
    FinalizationRepairsEveryWarning(l, sha, other, legacyOk, t);
    return outer;
  }

  lemma CommitScopeKept(l: Layout, sha: string -> string, files: Files)
    requires GoodLayout(l)
    ensures Scope(Rewritten(sha, files, Dir(l.runtime), ManifestOf(l.runtime)), Dir(l.commit), ManifestOf(l.commit))
            == Scope(files, Dir(l.commit), ManifestOf(l.commit))
  {
    var files' := Rewritten(sha, files, Dir(l.runtime), ManifestOf(l.runtime));
    InScope(files, Dir(l.commit), ManifestOf(l.commit));
    InScope(files', Dir(l.commit), ManifestOf(l.commit));
    forall r ensures Dir(l.commit) + r != ManifestOf(l.runtime) {
      DirectoriesAreApart(l.commit, l.runtime, r);
    }
  }

  lemma OuterHasPayload(l: Layout, files: Files)
    requires ReadmeOf(l.runtime) in files
    ensures Scope(files, "", OUTER) != {}
  {
    InScope(files, "", OUTER);
    OuterIsApart(l.runtime, "README.txt");
    assert "" + ReadmeOf(l.runtime) == ReadmeOf(l.runtime);
    assert ReadmeOf(l.runtime) in Scope(files, "", OUTER);
  }
}
