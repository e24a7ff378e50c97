/** verify_package as a whole. */
module EntryPoint {
  import opened Wrappers
  import opened Archive
  import opened Manifest
  import opened Verifier
  import opened TamperEvidence
  import opened Authenticity
  import opened KeyTrust

  datatype Verification = Verification(report: Report, authenticity: Authenticity)

  /** The package an acceptable directory stands for. */
  ghost function PackageOf(entries: seq<ZipEntry>): Package {
    Package(Infos(entries), TheOne(Roots(Infos(entries))))
  }

  /** Reading the manifest raises zlib.error. */
  ghost predicate ManifestCorrupt(p: Package) {
    var name := EntryName(p.root, "manifest.json");
    name in p.infos && Corrupt(p.infos[name], MAX_MANIFEST_BYTES, MAX_TOTAL_UNCOMPRESSED)
  }

  /** The file loop reaches a file whose reading raises zlib.error. */
  ghost predicate ListingCorrupt(env: Env, p: Package) {
    ManifestOf(p).Ok? && FilesOf(ManifestOf(p).value).Some?
    && CorruptFile(env, p, FilesOf(ManifestOf(p).value).value, MAX_TOTAL_UNCOMPRESSED - ManifestSize(p))
  }

  /** The manifest lies outside this model of JSON. */
  ghost predicate ManifestUnmodelled(p: Package) {
    var name := EntryName(p.root, "manifest.json");
    name in p.infos && Readable(p.infos[name], MAX_MANIFEST_BYTES, MAX_TOTAL_UNCOMPRESSED)
    && ParseDocument(p.infos[name].content) == Err(Unmodelled)
  }

  lemma ManifestFails(p: Package)
    ensures ManifestOf(p) == Err(ZlibError) <==> ManifestCorrupt(p)
    ensures ManifestOf(p) == Err(Unmodelled) <==> ManifestUnmodelled(p)
    ensures ManifestOf(p) != Err(TypeError)
  {
    hide ManifestOf, Corrupt, Readable, ParseDocument, EntryName;
    ManifestErrors(p);
  }

  lemma ReportableReads(env: Env, p: Package)
    requires Reportable(env, p)
    ensures ManifestOf(p).Ok? && !ListingCorrupt(env, p)
  {
    hide ManifestOf, CorruptFile, FilesReadable, ListingOk, FilesOf, ManifestSize, RootChecked;
    NoneCorrupt(env, p, FilesOf(ManifestOf(p).value).value, MAX_TOTAL_UNCOMPRESSED - ManifestSize(p));
  }

  /** Which exceptions the integrity steps raise. */
  lemma IntegrityErrorIs(env: Env, p: Package)
    ensures !Reportable(env, p) ==>
      var e := IntegrityError(env, p);
      && (e == ZlibError <==> ManifestCorrupt(p) || ListingCorrupt(env, p))
      && (e == Unmodelled <==> ManifestUnmodelled(p)) && e != TypeError
    ensures Reportable(env, p) ==> !ManifestCorrupt(p) && !ListingCorrupt(env, p) && !ManifestUnmodelled(p)
  {
    hide ManifestOf, CorruptFile, FilesOf, ManifestCorrupt, ManifestUnmodelled, Reportable, ManifestSize;
    ManifestFails(p);
    if Reportable(env, p) {
      ReportableReads(env, p);
    }
  }

  /** verify_package, on the directory of an existing ZIP file. */
  method VerifyPackage(env: Env, crypto: Crypto, entries: seq<ZipEntry>, options: KeyOptions)
    returns (r: Result<Verification, Error>)
    ensures r.Ok? <==> Acceptable(entries) && Reportable(env, PackageOf(entries))
                       && SealReadable(env, PackageOf(entries), options, BudgetLeft(env, PackageOf(entries)))
    ensures r == Err(KeyError) <==>
      Acceptable(entries) && "manifest.json" in Infos(entries) && "manifest.json/manifest.json" !in Infos(entries)
    ensures r == Err(TypeError) <==>
      Acceptable(entries) && Reportable(env, PackageOf(entries))
      && NumericKeysNeeded(env, PackageOf(entries), options, BudgetLeft(env, PackageOf(entries)))
    ensures r == Err(ZlibError) <==>
      Acceptable(entries) && var p := PackageOf(entries);
      ManifestCorrupt(p) || ListingCorrupt(env, p)
      || (Reportable(env, p) && SealCorrupt(env, p, options, BudgetLeft(env, p)))
    ensures r == Err(Unmodelled) <==>
      Acceptable(entries) && var p := PackageOf(entries);
      ManifestUnmodelled(p) || (Reportable(env, p) && SealUnmodelled(env, p, options, BudgetLeft(env, p)))
    ensures r.Ok? ==>
      Complete(env, PackageOf(entries), ManifestOf(PackageOf(entries)).value, r.value.report)
    ensures r.Ok? ==> Ok(r.value.authenticity) == AuthenticityVerdict(env, crypto, PackageOf(entries), options)
  {
    hide Acceptable, Infos, Roots, Reportable, Reported, ManifestOf, AuthenticityOf, ManifestDigest, BudgetLeft,
         SealReadable, NumericKeysNeeded, SealCorrupt, SealUnmodelled, ManifestCorrupt, ListingCorrupt,
         ManifestUnmodelled, IntegrityError, AnchorOf;
    var opening := OpenArchive(entries);
    if opening.Err? {
      return Err(opening.error);
    }
    var archive := opening.value;
    assert Package(archive.infos, archive.root) == PackageOf(entries) by {
      assert |Roots(Infos(entries))| == 1;
    }
    ghost var p := PackageOf(entries);
    FlatArchiveRaisesKeyError(entries, archive.root);
    IntegrityErrorIs(env, p);
    var report := new Report();
    var digest := VerifyIntegrity(env, archive, report);
    if digest.Err? {
      return Err(digest.error);
    }
    VerdictIff(env, crypto, p, digest.value, options, BudgetLeft(env, p));
    var authenticity := VerifyAuthenticity(env, crypto, archive, digest.value, options);
    if authenticity.Err? {
      return Err(authenticity.error);
    }
    return Ok(Verification(report, authenticity.value));
  }
}
