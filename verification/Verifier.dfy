/** verify_package: the report and how it is filled in. */
module Verifier {
  import opened Wrappers
  import opened Bytes
  import opened Json
  import opened PyText
  import opened Archive
  import opened Merkle
  import opened Manifest

  datatype Integrity = IntegrityVerified | IntegrityFailed

  class Report {
    var packageNumber: Option<string>
    var manifestParsed: bool
    var manifestSha256: Option<string>
    var manifestHashValid: Option<bool>
    var filesTotal: nat
    var filesVerified: nat
    var filesFailed: nat
    var filesMissing: nat
    var filesUnexpected: nat
    var failedPaths: seq<string>
    var missingPaths: seq<string>
    var unexpected: set<string>
    var extra: set<string>
    var merkleRootValid: Option<bool>
    var merkleRoot: Option<string>
    var integrity: Integrity
    var auditAnchor: Option<string>

    constructor ()
      ensures integrity == IntegrityFailed && Accounted() && filesTotal == 0 && failedPaths == [] && missingPaths == []
    {
      packageNumber, manifestParsed, manifestSha256, manifestHashValid := None, false, None, None;
      filesTotal, filesVerified, filesFailed, filesMissing, filesUnexpected := 0, 0, 0, 0, 0;
      failedPaths, missingPaths, unexpected, extra := [], [], {}, {};
      merkleRootValid, merkleRoot, integrity, auditAnchor := None, None, IntegrityFailed, None;
    }

    /** File accounting: every listed file is counted once. */
    ghost predicate Accounted()
      reads this
    {
      && filesTotal == filesVerified + filesFailed + filesMissing
      && |failedPaths| == filesFailed && |missingPaths| == filesMissing
      && (forall path | path in failedPaths :: path !in missingPaths)
    }

    /** One more listed file, with its outcome. */
    method Count(path: string, o: Outcome)
      requires Accounted() && path !in failedPaths && path !in missingPaths
      modifies this`filesTotal, this`filesVerified, this`filesFailed, this`filesMissing,
               this`failedPaths, this`missingPaths
      ensures Accounted() && filesTotal == old(filesTotal) + 1
      ensures failedPaths == old(failedPaths) + (if o == Failed then [path] else [])
      ensures missingPaths == old(missingPaths) + (if o == Missing then [path] else [])
    {
      filesTotal := filesTotal + 1;
      match o
      case Failed =>
        filesFailed := filesFailed + 1;
        failedPaths := failedPaths + [path];
      case Missing =>
        filesMissing := filesMissing + 1;
        missingPaths := missingPaths + [path];
      case Verified =>
        filesVerified := filesVerified + 1;
    }
  }

  // ---------- the file loop ----------

  /** The paths of the files with one outcome, in listing order. */
  ghost function PathsWith(env: Env, p: Package, files: seq<Json>, o: Outcome): seq<string> {
    if files == [] then []
    else
      var n := |files| - 1;
      PathsWith(env, p, files[..n], o) + (if Judge(env, p, files[n]) == o then [PathOf(env, files[n])] else [])
  }

  ghost function SizeRead(env: Env, p: Package, file: Json): nat {
    if Located(env, p, file) then |EntryOf(env, p, file).content| else 0
  }

  /** Bytes read for the first n files. */
  ghost function BytesRead(env: Env, p: Package, files: seq<Json>, n: nat): nat
    requires n <= |files|
  {
    if n == 0 then 0
    else BytesRead(env, p, files, n - 1) + SizeRead(env, p, files[n - 1])
  }

  /** The i-th file can be read with what the files before it leave of the budget. */
  ghost predicate FileReadable(env: Env, p: Package, files: seq<Json>, i: nat, budget: int)
    requires i < |files|
  {
    Located(env, p, files[i]) ==>
      Readable(EntryOf(env, p, files[i]), MAX_MEMBER_UNCOMPRESSED, budget - BytesRead(env, p, files, i))
  }

  ghost predicate FilesReadable(env: Env, p: Package, files: seq<Json>, budget: int) {
    forall i | 0 <= i < |files| :: FileReadable(env, p, files, i, budget)
  }

  ghost predicate MatchedBy(env: Env, p: Package, files: seq<Json>, matched: set<string>) {
    forall n :: n in matched <==> exists i :: 0 <= i < |files| && n in Candidates(p, PathOf(env, files[i]))
  }

  /** One iteration of the file loop, up to counting. */
  method JudgeFile(env: Env, archive: Archive, file: Json, logicalPath: string)
    returns (r: Result<(Outcome, set<string>), Error>)
    requires archive.Valid() && file.Obj? && logicalPath == PathOf(env, file)
    modifies archive
    ensures var p := Package(archive.infos, archive.root);
      r.Ok? <==> (Located(env, p, file) ==>
                    Readable(EntryOf(env, p, file), MAX_MEMBER_UNCOMPRESSED, old(archive.budget)))
    ensures var p := Package(archive.infos, archive.root);
      r.Err? ==>
        Located(env, p, file) &&
        r.error == (if Corrupt(EntryOf(env, p, file), MAX_MEMBER_UNCOMPRESSED, old(archive.budget)) then ZlibError
                    else PackageError)
    ensures var p := Package(archive.infos, archive.root);
      r.Ok? ==> archive.Valid() && archive.budget == old(archive.budget) - SizeRead(env, p, file)
    ensures var p := Package(archive.infos, archive.root);
      r.Ok? ==> r.value == (Judge(env, p, file), Candidates(p, logicalPath))
  {
    var prefix := EntryName(archive.root, "artifacts/");
    var artifacts := set n | n in archive.infos && prefix <= n;
    var candidates := set n | n in artifacts && (n == prefix + logicalPath || EndsWith(n, "/" + logicalPath));
    assert candidates == Candidates(Package(archive.infos, archive.root), logicalPath);
    if |candidates| > 1 {
      return Ok((Failed, candidates));
    }
    if |candidates| == 0 {
      return Ok((Missing, candidates));
    }
    var name :| name in candidates;
    SingletonIs(candidates, name);
    var read := archive.Stream(env.sha, name, MAX_MEMBER_UNCOMPRESSED, false);
    if read.Err? {
      return Err(read.error);
    }
    var (actualSha, actualSize, _) := read.value;
    var expectedSha := NormalizeDigest(DigestOf(env, file));
    if expectedSha.None? || expectedSha.value != actualSha || !SizeAgrees(file, actualSize) {
      return Ok((Failed, candidates));
    }
    return Ok((Verified, candidates));
  }

  /** The files part of _verify_into. */
  method VerifyFiles(env: Env, archive: Archive, report: Report, files: seq<Json>)
    returns (r: Result<set<string>, Error>)
    requires archive.Valid()
    requires report.Accounted() && report.filesTotal == 0 && report.failedPaths == [] && report.missingPaths == []
    modifies archive, report`filesTotal, report`filesVerified, report`filesFailed, report`filesMissing,
             report`failedPaths, report`missingPaths
    ensures var p := Package(archive.infos, archive.root);
      r.Ok? <==> ListingOk(env, files) && FilesReadable(env, p, files, old(archive.budget))
    ensures var p := Package(archive.infos, archive.root);
      r.Err? ==> r.error == if CorruptFile(env, p, files, old(archive.budget)) then ZlibError else PackageError
    ensures var p := Package(archive.infos, archive.root);
      r.Ok? ==> archive.Valid() && archive.budget == old(archive.budget) - BytesRead(env, p, files, |files|)
    ensures var p := Package(archive.infos, archive.root);
      r.Ok? ==> MatchedBy(env, p, files, r.value)
    ensures var p := Package(archive.infos, archive.root);
      r.Ok? ==> report.Accounted() && report.filesTotal == |files|
                && report.failedPaths == PathsWith(env, p, files, Failed)
                && report.missingPaths == PathsWith(env, p, files, Missing)
  {
    hide Judge, Located, EntryOf, SafeName, Candidates, SizeRead, Readable, PathOf, ListingOk, ListedOk, MatchedBy,
         PathsWith, Corrupt, FileReadable, CorruptAt, CorruptFile, BytesRead, SeenBy;
    ghost var p := Package(archive.infos, archive.root);
    var matched: set<string> := {};
    var seenPaths: set<string> := {};
    NothingRead(env, p, files);
    for i := 0 to |files|
      invariant ListingOk(env, files[..i])
      invariant forall k | 0 <= k < i :: FileReadable(env, p, files, k, old(archive.budget))
      invariant archive.Valid() && archive.budget == old(archive.budget) - BytesRead(env, p, files, i)
      invariant SeenBy(env, files, i, seenPaths, report.failedPaths, report.missingPaths)
      invariant MatchedBy(env, p, files[..i], matched)
      invariant report.Accounted() && report.filesTotal == i
      invariant report.failedPaths == PathsWith(env, p, files[..i], Failed)
      invariant report.missingPaths == PathsWith(env, p, files[..i], Missing)
    {
      var file := files[i];
      var logicalPath := PathOf(env, file);
      ListingStep(env, files, i, seenPaths, report.failedPaths, report.missingPaths);
      if !file.Obj? || logicalPath == "" || logicalPath in seenPaths || !SafeName(logicalPath) {
        StopsAt(env, p, files, i, old(archive.budget));
        return Err(PackageError);
      }
      FileReadIs(env, p, files, i, old(archive.budget));
      var judged := JudgeFile(env, archive, file, logicalPath);
      if judged.Err? {
        StopsAt(env, p, files, i, old(archive.budget));
        return Err(judged.error);
      }
      SeenStep(env, files, i, seenPaths, report.failedPaths, report.missingPaths, judged.value.0);
      report.Count(logicalPath, judged.value.0);
      seenPaths := seenPaths + {logicalPath};
      MatchedStep(env, p, files, i, matched);
      PathsStep(env, p, files, i);
      BytesStep(env, p, files, i);
      matched := matched + judged.value.1;
    }
    assert files[..|files|] == files;
    return Ok(matched);
  }

  /** The loop gets as far as the i-th file, and reading that one raises zlib.error. */
  ghost predicate CorruptAt(env: Env, p: Package, files: seq<Json>, i: nat, budget: int) {
    && i < |files| && ListingOk(env, files[..i + 1])
    && (forall k | 0 <= k < i :: FileReadable(env, p, files, k, budget))
    && Located(env, p, files[i])
    && Corrupt(EntryOf(env, p, files[i]), MAX_MEMBER_UNCOMPRESSED, budget - BytesRead(env, p, files, i))
  }

  ghost predicate CorruptFile(env: Env, p: Package, files: seq<Json>, budget: int) {
    exists i: nat :: CorruptAt(env, p, files, i, budget)
  }

  lemma FileReadIs(env: Env, p: Package, files: seq<Json>, i: nat, budget: int)
    requires i < |files|
    ensures FileReadable(env, p, files, i, budget) <==>
      (Located(env, p, files[i]) ==>
         Readable(EntryOf(env, p, files[i]), MAX_MEMBER_UNCOMPRESSED, budget - BytesRead(env, p, files, i)))
    ensures ListingOk(env, files[..i + 1]) && (forall k | 0 <= k < i :: FileReadable(env, p, files, k, budget)) ==>
      (CorruptAt(env, p, files, i, budget) <==>
         Located(env, p, files[i])
         && Corrupt(EntryOf(env, p, files[i]), MAX_MEMBER_UNCOMPRESSED, budget - BytesRead(env, p, files, i)))
  {
    hide Located, EntryOf, Readable, ListingOk, BytesRead, Corrupt;
  }

  lemma CorruptUnreadable(env: Env, p: Package, files: seq<Json>, i: nat, budget: int)
    requires CorruptAt(env, p, files, i, budget)
    ensures !FileReadable(env, p, files, i, budget)
  {
    hide Located, EntryOf, ListingOk, BytesRead;
  }

  lemma ListingPrefix(env: Env, files: seq<Json>, i: nat, j: nat)
    requires i <= j <= |files| && ListingOk(env, files[..j])
    ensures ListingOk(env, files[..i])
  {
    assert forall k | 0 <= k < i :: files[..i][k] == files[..j][k];
  }

  /** Where the loop stops is the only place that can be corrupt. */
  lemma StopsAt(env: Env, p: Package, files: seq<Json>, i: nat, budget: int)
    requires i < |files| && forall k | 0 <= k < i :: FileReadable(env, p, files, k, budget)
    requires !ListingOk(env, files[..i + 1]) || !FileReadable(env, p, files, i, budget)
    ensures CorruptFile(env, p, files, budget) <==> CorruptAt(env, p, files, i, budget)
    ensures !ListingOk(env, files[..i + 1]) ==> !CorruptAt(env, p, files, i, budget)
  {
    forall j: nat | CorruptAt(env, p, files, j, budget) ensures j == i {
      if j < i {
        CorruptUnreadable(env, p, files, j, budget);
      } else if j > i {
        ListingPrefix(env, files, i + 1, j + 1);
      }
    }
  }

  /** A listing that can be read to the end has no corrupt file. */
  lemma NoneCorrupt(env: Env, p: Package, files: seq<Json>, budget: int)
    requires FilesReadable(env, p, files, budget)
    ensures !CorruptFile(env, p, files, budget)
  {
    forall i: nat ensures !CorruptAt(env, p, files, i, budget) {
      if CorruptAt(env, p, files, i, budget) { CorruptUnreadable(env, p, files, i, budget); }
    }
  }

  lemma NothingRead(env: Env, p: Package, files: seq<Json>)
    ensures ListingOk(env, files[..0]) && MatchedBy(env, p, files[..0], {}) && SeenBy(env, files, 0, {}, [], [])
    ensures BytesRead(env, p, files, 0) == 0 && forall o :: PathsWith(env, p, files[..0], o) == []
  {
  }

  /** seen holds the paths of the first n files, and every counted path is among them. */
  ghost predicate SeenBy(env: Env, files: seq<Json>, n: nat, seen: set<string>, failed: seq<string>,
                         missing: seq<string>)
    requires n <= |files|
  {
    && (forall path :: path in seen <==> exists k :: 0 <= k < n && PathOf(env, files[k]) == path)
    && forall path | path in failed || path in missing :: path in seen
  }

  lemma SeenStep(env: Env, files: seq<Json>, i: nat, seen: set<string>, failed: seq<string>, missing: seq<string>,
                 o: Outcome)
    requires i < |files| && SeenBy(env, files, i, seen, failed, missing)
    ensures var path := PathOf(env, files[i]);
      SeenBy(env, files, i + 1, seen + {path}, failed + (if o == Failed then [path] else []),
             missing + (if o == Missing then [path] else []))
  {
    hide PathOf;
  }

  /** What the loop checks of one more file, given that the files before it are in order. */
  lemma ListingStep(env: Env, files: seq<Json>, i: nat, seen: set<string>, failed: seq<string>, missing: seq<string>)
    requires i < |files| && ListingOk(env, files[..i]) && SeenBy(env, files, i, seen, failed, missing)
    ensures var path := PathOf(env, files[i]);
      && (ListingOk(env, files[..i + 1]) <==> files[i].Obj? && path != "" && SafeName(path) && path !in seen)
      && (path !in seen ==> path !in failed && path !in missing)
    ensures ListingOk(env, files) ==> ListingOk(env, files[..i + 1])
  {
    hide SafeName, TextOf;
    var a, b := files[..i], files[..i + 1];
    assert forall k | 0 <= k < i :: a[k] == files[k];
    assert forall k | 0 <= k <= i :: b[k] == files[k];
  }

  lemma BytesStep(env: Env, p: Package, files: seq<Json>, i: nat)
    requires i < |files|
    ensures BytesRead(env, p, files, i + 1) == BytesRead(env, p, files, i) + SizeRead(env, p, files[i])
  {
  }

  lemma PathsStep(env: Env, p: Package, files: seq<Json>, i: nat)
    requires i < |files|
    ensures forall o ::
      PathsWith(env, p, files[..i + 1], o) ==
      PathsWith(env, p, files[..i], o) + (if Judge(env, p, files[i]) == o then [PathOf(env, files[i])] else [])
  {
    hide Judge, PathOf;
    assert files[..i + 1][..i] == files[..i] && files[..i + 1][i] == files[i];
  }

  lemma MatchedStep(env: Env, p: Package, files: seq<Json>, i: nat, matched: set<string>)
    requires i < |files| && MatchedBy(env, p, files[..i], matched)
    ensures MatchedBy(env, p, files[..i + 1], matched + Candidates(p, PathOf(env, files[i])))
  {
    hide Candidates, PathOf;
    var a, b := files[..i], files[..i + 1];
    forall n | exists k :: 0 <= k < |b| && n in Candidates(p, PathOf(env, b[k]))
      ensures n in matched + Candidates(p, PathOf(env, files[i]))
    {
      var k :| 0 <= k < |b| && n in Candidates(p, PathOf(env, b[k]));
      assert k < i ==> a[k] == b[k];
    }
    forall n | n in matched + Candidates(p, PathOf(env, files[i]))
      ensures exists k :: 0 <= k < |b| && n in Candidates(p, PathOf(env, b[k]))
    {
      if n in matched {
        var k :| 0 <= k < |a| && n in Candidates(p, PathOf(env, a[k]));
        assert b[k] == a[k];
      } else {
        assert b[i] == files[i];
      }
    }
  }

  // ---------- the whole of steps 1 to 5 ----------

  function FilesOf(ms: seq<Member>): Option<seq<Json>> {
    match Get(ms, "files")
    case Some(Arr(items)) => Some(items)
    case _ => None
  }

  ghost predicate ContentsReadable(env: Env, p: Package, ms: seq<Member>, files: seq<Json>, budget: int) {
    && ListingOk(env, files)
    && FilesReadable(env, p, files, budget)
    && (RootChecked(env, ms) ==> DigestsValid(MerkleEntries(env, files)))
  }

  /** When steps 1 to 5 return a report at all. */
  ghost predicate Reportable(env: Env, p: Package) {
    && ManifestOf(p).Ok?
    && FilesOf(ManifestOf(p).value).Some?
    && ContentsReadable(env, p, ManifestOf(p).value, FilesOf(ManifestOf(p).value).value,
                        MAX_TOTAL_UNCOMPRESSED - ManifestSize(p))
  }

  /** What the integrity steps leave of the read budget. */
  ghost function BudgetLeft(env: Env, p: Package): int
    requires Reportable(env, p)
  {
    var files := FilesOf(ManifestOf(p).value).value;
    MAX_TOTAL_UNCOMPRESSED - ManifestSize(p) - BytesRead(env, p, files, |files|)
  }

  const KNOWN_NON_ARTIFACT_FILES: set<string> := {
    "manifest.json", "manifest.sig", "seal.json", "verification.json", "VERIFY.md",
    "reports/investigation.md", "reports/investigation.pdf",
    "verification/README.txt", "verification/signing-key.json",
    "verification/decoda-evidence-keys.json"
  }

  /** Step 1: read the manifest and recompute its digest. */
  method VerifyManifest(env: Env, archive: Archive, report: Report) returns (r: Result<seq<Member>, Error>)
    requires archive.Valid() && archive.budget == MAX_TOTAL_UNCOMPRESSED
    modifies archive, report`packageNumber, report`manifestParsed, report`manifestSha256, report`manifestHashValid
    ensures r == ManifestOf(Package(archive.infos, archive.root))
    ensures r.Ok? ==> archive.Valid()
    ensures r.Ok? ==> archive.budget == MAX_TOTAL_UNCOMPRESSED - ManifestSize(Package(archive.infos, archive.root))
    ensures r.Ok? ==> report.manifestParsed && report.manifestSha256 == Some(ManifestDigest(env, r.value))
    ensures report.packageNumber == NumberOf(Package(archive.infos, archive.root))
    ensures r.Ok? ==> report.manifestHashValid == Some(DeclaredDigest(env, r.value) == ManifestDigest(env, r.value))
  {
    hide ParseDocument;
    report.packageNumber := NumberOf(Package(archive.infos, archive.root));
    var manifestEntry := EntryName(archive.root, "manifest.json");
    var read := archive.Stream(env.sha, manifestEntry, MAX_MANIFEST_BYTES, true);
    if read.Err? {
      return Err(read.error);
    }
    var parsed := ParseDocument(read.value.2.value);
    if parsed.Err? {
      return Err(parsed.error);
    }
    if !parsed.value.Obj? {
      return Err(PackageError);
    }
    var ms := parsed.value.members;
    report.manifestParsed := true;
    var computed := ManifestDigest(env, ms);
    var declared := DeclaredDigest(env, ms);
    report.manifestSha256 := Some(computed);
    report.manifestHashValid := Some(declared != "" && declared == computed);
    return Ok(ms);
  }

  /** Step 3: None when no root is sealed or its scheme is unknown; a malformed digest raises. */
  method VerifyRoot(env: Env, ms: seq<Member>, files: seq<Json>)
    returns (r: Result<(Option<string>, Option<bool>), Error>)
    requires ListingOk(env, files)
    ensures r.Ok? <==> (RootChecked(env, ms) ==> DigestsValid(MerkleEntries(env, files)))
    ensures r.Err? ==> r.error == PackageError
    ensures r.Ok? && !RootChecked(env, ms) ==> r.value == (None, None)
    ensures r.Ok? && RootChecked(env, ms) ==>
      Ok(r.value.0) == MerkleRoot(env.sha, MerkleEntries(env, files)) && r.value.1 == Some(RootAgrees(env, ms, files))
  {
    hide MerkleRoot, CheckPaths, TextOf;
    if !RootChecked(env, ms) {
      return Ok((None, None));
    }
    var entries := MerkleEntries(env, files);
    AcceptedListing(env, files);
    AcceptedDigestsValid(env.sha, entries);
    var root := ComputeMerkleRoot(env.sha, entries);
    if root.Err? {
      return Err(PackageError);
    }
    return Ok((root.value, Some(root.value == Some(DeclaredRoot(env, ms)))));
  }

  /** The entries every package may hold beside its artifacts. */
  function Known(p: Package): set<string> {
    set k | k in KNOWN_NON_ARTIFACT_FILES :: EntryName(p.root, k)
  }

  /** Every entry is an artifact, a known file or extra, and only one of the last two. */
  predicate Sorted(p: Package, unexpected: set<string>, extra: set<string>) {
    && unexpected <= Artifacts(p) && extra !! Artifacts(p) && extra !! Known(p)
    && extra <= p.infos.Keys <= Artifacts(p) + Known(p) + extra
  }

  /** The matched and the unexpected entries partition the artifacts; what nobody knows is extra. */
  method NoteUnexpected(archive: Archive, report: Report, matched: set<string>)
    requires matched <= Artifacts(Package(archive.infos, archive.root))
    modifies report`unexpected, report`filesUnexpected, report`extra
    ensures matched !! report.unexpected
    ensures matched + report.unexpected == Artifacts(Package(archive.infos, archive.root))
    ensures report.filesUnexpected == |report.unexpected|
    ensures Sorted(Package(archive.infos, archive.root), report.unexpected, report.extra)
  {
    var prefix := EntryName(archive.root, "artifacts/");
    var artifacts := set n | n in archive.infos && prefix <= n;
    report.unexpected := artifacts - matched;
    report.filesUnexpected := |report.unexpected|;
    var known := set k | k in KNOWN_NON_ARTIFACT_FILES :: EntryName(archive.root, k);
    report.extra := set n | n in archive.infos && n !in artifacts && n !in known;
  }

  lemma UnlistedIs(env: Env, p: Package, files: seq<Json>, matched: set<string>)
    requires MatchedBy(env, p, files, matched)
    ensures matched <= Artifacts(p) && Artifacts(p) - matched == Unlisted(env, p, files)
  {
    CandidatesInside(p);
    hide Candidates, PathOf;
  }

  lemma CandidatesInside(p: Package)
    ensures forall path, n :: n in Candidates(p, path) ==> n in Artifacts(p)
  {
  }

  /** Step 4: the verdict from the counters. */
  method Decide(report: Report)
    requires report.Accounted() && report.filesUnexpected == |report.unexpected|
    modifies report`integrity
    ensures report.integrity == IntegrityVerified <==>
      report.manifestHashValid == Some(true) && report.filesTotal > 0 && report.failedPaths == []
      && report.missingPaths == [] && report.unexpected == {} && report.merkleRootValid != Some(false)
  {
    report.integrity :=
      if report.manifestHashValid == Some(true) && report.filesTotal > 0 && report.filesFailed == 0
         && report.filesMissing == 0 && report.filesUnexpected == 0 && report.merkleRootValid != Some(false)
      then IntegrityVerified else IntegrityFailed;
  }

  /** What the report says of the listed files and of the entries nobody listed. */
  ghost predicate Listed(env: Env, p: Package, files: seq<Json>, report: Report)
    reads report
  {
    && report.Accounted() && report.filesTotal == |files|
    && report.failedPaths == PathsWith(env, p, files, Failed)
    && report.missingPaths == PathsWith(env, p, files, Missing)
    && report.filesUnexpected == |report.unexpected|
    && report.unexpected == Unlisted(env, p, files) && Sorted(p, report.unexpected, report.extra)
  }

  /** Step 2: the file loop and the entries it leaves over. */
  method VerifyListing(env: Env, archive: Archive, report: Report, files: seq<Json>) returns (r: Result<(), Error>)
    requires archive.Valid()
    requires report.Accounted() && report.filesTotal == 0 && report.failedPaths == [] && report.missingPaths == []
    modifies archive, report`filesTotal, report`filesVerified, report`filesFailed, report`filesMissing,
             report`failedPaths, report`missingPaths, report`unexpected, report`filesUnexpected, report`extra
    ensures var p := Package(archive.infos, archive.root);
      r.Ok? <==> ListingOk(env, files) && FilesReadable(env, p, files, old(archive.budget))
    ensures var p := Package(archive.infos, archive.root);
      r.Err? ==> r.error == if CorruptFile(env, p, files, old(archive.budget)) then ZlibError else PackageError
    ensures var p := Package(archive.infos, archive.root);
      r.Ok? ==> archive.Valid() && archive.budget == old(archive.budget) - BytesRead(env, p, files, |files|)
    ensures r.Ok? ==> Listed(env, Package(archive.infos, archive.root), files, report)
  {
    hide Judge, ListingOk, FilesReadable, Candidates, BytesRead, PathsWith, Unlisted, Artifacts, MatchedBy, Known,
         Sorted, CorruptFile;
    var outcome := VerifyFiles(env, archive, report, files);
    if outcome.Err? {
      return Err(outcome.error);
    }
    UnlistedIs(env, Package(archive.infos, archive.root), files, outcome.value);
    NoteUnexpected(archive, report, outcome.value);
    return Ok(());
  }

  /** Steps 2 to 4, on the manifest just read. */
  method VerifyContents(env: Env, archive: Archive, report: Report, ms: seq<Member>, files: seq<Json>)
    returns (r: Result<(), Error>)
    requires archive.Valid() && FilesOf(ms) == Some(files)
    requires report.Accounted() && report.filesTotal == 0 && report.failedPaths == [] && report.missingPaths == []
    requires report.manifestSha256 == Some(ManifestDigest(env, ms))
    requires report.manifestHashValid == Some(DeclaredDigest(env, ms) == ManifestDigest(env, ms))
    modifies archive, report`filesTotal, report`filesVerified, report`filesFailed, report`filesMissing,
             report`failedPaths, report`missingPaths, report`unexpected, report`filesUnexpected, report`extra,
             report`merkleRoot, report`merkleRootValid, report`integrity
    ensures r.Ok? <==> ContentsReadable(env, Package(archive.infos, archive.root), ms, files, old(archive.budget))
    ensures var p := Package(archive.infos, archive.root);
      r.Err? ==> r.error == if CorruptFile(env, p, files, old(archive.budget)) then ZlibError else PackageError
    ensures r.Err? ==> report.integrity == old(report.integrity)
    ensures r.Ok? ==> archive.Valid() && Reported(env, Package(archive.infos, archive.root), ms, report)
    ensures r.Ok? ==>
      archive.budget == old(archive.budget) - BytesRead(env, Package(archive.infos, archive.root), files, |files|)
  {
    hide MerkleRoot, Judge, ListingOk, FilesReadable, DigestsValid, BytesRead, ManifestDigest, PathsWith, Unlisted,
         RootAgrees, RootChecked, MerkleEntries, Artifacts, DeclaredDigest, FilesOf, IntegrityHolds, CorruptFile,
         Sorted;
    var listed := VerifyListing(env, archive, report, files);
    if listed.Err? {
      return Err(listed.error);
    }
    NoneCorrupt(env, Package(archive.infos, archive.root), files, old(archive.budget));
    var root := VerifyRoot(env, ms, files);
    if root.Err? {
      return Err(root.error);
    }
    report.merkleRoot, report.merkleRootValid := root.value.0, root.value.1;
    HoldsIff(env, Package(archive.infos, archive.root), ms, files);
    UncheckedAgrees(env, ms, files);
    Decide(report);
    return Ok(());
  }

  lemma UncheckedAgrees(env: Env, ms: seq<Member>, files: seq<Json>)
    ensures !RootChecked(env, ms) ==> RootAgrees(env, ms, files)
  {
  }

  /** The verdict in terms of what the report lists. */
  lemma HoldsIff(env: Env, p: Package, ms: seq<Member>, files: seq<Json>)
    ensures IntegrityHolds(env, p, ms, files) <==>
      && DeclaredDigest(env, ms) == ManifestDigest(env, ms) && |files| > 0 && RootAgrees(env, ms, files)
      && PathsWith(env, p, files, Failed) == [] && PathsWith(env, p, files, Missing) == []
      && Unlisted(env, p, files) == {}
  {
    hide Judge, RootAgrees, DeclaredDigest, ManifestDigest, Unlisted;
    NoFailures(env, p, files);
  }

  /** Steps 1 to 5 of _verify_into; on success the recomputed manifest digest. */
  method VerifyIntegrity(env: Env, archive: Archive, report: Report) returns (r: Result<string, Error>)
    requires archive.Valid() && archive.budget == MAX_TOTAL_UNCOMPRESSED
    requires report.Accounted() && report.filesTotal == 0 && report.failedPaths == [] && report.missingPaths == []
    requires report.integrity == IntegrityFailed
    modifies archive, report
    ensures r.Ok? <==> Reportable(env, Package(archive.infos, archive.root))
    ensures r == Err(KeyError) <==> ManifestOf(Package(archive.infos, archive.root)) == Err(KeyError)
    ensures r.Err? ==> r.error == IntegrityError(env, Package(archive.infos, archive.root))
    ensures r.Err? ==> report.integrity == IntegrityFailed
    ensures r.Ok? ==> archive.Valid() && archive.budget == BudgetLeft(env, Package(archive.infos, archive.root))
    ensures r.Ok? ==> Complete(env, Package(archive.infos, archive.root),
                               ManifestOf(Package(archive.infos, archive.root)).value, report)
    ensures r.Ok? ==> r.value == ManifestDigest(env, ManifestOf(Package(archive.infos, archive.root)).value)
  {
    hide ManifestOf, ContentsReadable, BytesRead, IntegrityHolds, ManifestDigest, DeclaredDigest, TextOf, PathsWith,
         Unlisted, FilesOf, CorruptFile, Sorted;
    var manifest := VerifyManifest(env, archive, report);
    if manifest.Err? {
      return Err(manifest.error);
    }
    var ms := manifest.value;
    var listed := FilesOf(ms);
    if listed.None? {
      return Err(PackageError);
    }
    var contents := VerifyContents(env, archive, report, ms, listed.value);
    if contents.Err? {
      return Err(contents.error);
    }
    report.auditAnchor := AnchorOf(env, ms);
    return Ok(report.manifestSha256.value);
  }

  /** What steps 1 to 5 raise when they give no report. */
  ghost function IntegrityError(env: Env, p: Package): Error {
    match ManifestOf(p)
    case Err(e) => e
    case Ok(ms) =>
      if FilesOf(ms).Some? && CorruptFile(env, p, FilesOf(ms).value, MAX_TOTAL_UNCOMPRESSED - ManifestSize(p))
      then ZlibError else PackageError
  }

  /** What reading the manifest can raise. */
  lemma ManifestErrors(p: Package)
    ensures var name := EntryName(p.root, "manifest.json");
      && (ManifestOf(p) == Err(KeyError) <==> name !in p.infos)
      && (ManifestOf(p) == Err(ZlibError) <==>
            name in p.infos && Corrupt(p.infos[name], MAX_MANIFEST_BYTES, MAX_TOTAL_UNCOMPRESSED))
      && (ManifestOf(p) == Err(Unmodelled) <==>
            name in p.infos && Readable(p.infos[name], MAX_MANIFEST_BYTES, MAX_TOTAL_UNCOMPRESSED)
            && ParseDocument(p.infos[name].content) == Err(Unmodelled))
      && ManifestOf(p) != Err(TypeError)
  {
    hide FromUtf8, Loads, WithinLimits;
  }

  function NumberOf(p: Package): Option<string> {
    if p.root == "" then None else Some(p.root)
  }

  function AnchorOf(env: Env, ms: seq<Member>): Option<string> {
    var anchor := Strip(TextOf(env, ms, "previous_audit_anchor_hash"));
    if anchor == "" then None else Some(anchor)
  }

  /** The report of steps 1 to 5, with the package number and the audit anchor. */
  ghost predicate Complete(env: Env, p: Package, ms: seq<Member>, report: Report)
    reads report
  {
    && Reported(env, p, ms, report) && report.manifestParsed
    && report.packageNumber == NumberOf(p) && report.auditAnchor == AnchorOf(env, ms)
  }

  /** What a returned report says, in terms of the package. */
  ghost predicate Reported(env: Env, p: Package, ms: seq<Member>, report: Report)
    reads report
  {
    && FilesOf(ms).Some?
    && var files := FilesOf(ms).value;
    && Listed(env, p, files, report)
    && report.manifestSha256 == Some(ManifestDigest(env, ms))
    && report.merkleRootValid == (if RootChecked(env, ms) then Some(RootAgrees(env, ms, files)) else None)
    && (if RootChecked(env, ms) then Ok(report.merkleRoot) == MerkleRoot(env.sha, MerkleEntries(env, files))
        else report.merkleRoot == None)
    && (report.integrity == IntegrityVerified <==> IntegrityHolds(env, p, ms, files))
  }

  /** A listing the loop accepts has acceptable Merkle paths. */
  lemma AcceptedListing(env: Env, files: seq<Json>)
    requires ListingOk(env, files)
    ensures CheckPaths(MerkleEntries(env, files)).None?
  {
    var es := MerkleEntries(env, files);
    forall i | 0 <= i < |es| ensures es[i].path != "" {
      assert ListedOk(env, files[i]);
    }
  }

  /** No failed and no missing path means every file verified. */
  lemma {:induction false} NoFailures(env: Env, p: Package, files: seq<Json>)
    ensures PathsWith(env, p, files, Failed) == [] && PathsWith(env, p, files, Missing) == []
       <==> forall i | 0 <= i < |files| :: Judge(env, p, files[i]) == Verified
  {
    hide Judge, PathOf;
    if files != [] {
      NoFailures(env, p, files[..|files| - 1]);
    }
  }
}
