/** From the sealing side to the verdict: what the package builder writes, the verifier accepts. */
module Packaging {
  import opened Wrappers
  import opened Bytes
  import opened Json
  import opened PyText
  import opened Archive
  import opened Merkle
  import opened Manifest
  import opened Verifier
  import opened TamperEvidence
  import Authenticity
  import Canonical

  /** An artifact: its logical path, the domain folder it is filed under, and its bytes. */
  datatype Doc = Doc(path: string, folder: string, content: seq<Byte>)

  /** artifacts/<domain>/<logical path> */
  function FiledAs(p: Package, d: Doc): string {
    Prefix(p) + (d.folder + ("/" + d.path))
  }

  /** What the archive holds under artifacts/ is exactly the documents. */
  predicate Files(p: Package, docs: seq<Doc>) {
    && (forall i | 0 <= i < |docs| ::
          FiledAs(p, docs[i]) in p.infos && p.infos[FiledAs(p, docs[i])].content == docs[i].content)
    && forall n | n in Artifacts(p) :: exists i :: 0 <= i < |docs| && FiledAs(p, docs[i]) == n
  }

  /** Distinct logical paths, filed in folders that are one segment. */
  predicate Proper(docs: seq<Doc>) {
    && docs != []
    && (forall i | 0 <= i < |docs| :: docs[i].path != "" && '/' !in docs[i].folder)
    && forall i, j | 0 <= i < j < |docs| :: docs[i].path != docs[j].path
  }

  /** The manifest entry of a document; other members are free. */
  predicate Lists(sha: Hash, file: Json, d: Doc) {
    && file.Obj? && Get(file.members, "path") == Some(Str(d.path))
    && Get(file.members, "sha256") == Some(Str(Hex(sha(d.content))))
    && Get(file.members, "size_bytes") == Some(Int(|d.content|))
  }

  predicate ListsAll(sha: Hash, files: seq<Json>, docs: seq<Doc>) {
    |files| == |docs| && forall i | 0 <= i < |docs| :: Lists(sha, files[i], docs[i])
  }

  /** What the verifier reads off the entry of a document: its path as text, its digest and, if given, its size. */
  predicate Means(env: Env, file: Json, d: Doc) {
    PathOf(env, file) == d.path && Describes(env, file, d.content)
  }

  predicate MeansAll(env: Env, files: seq<Json>, docs: seq<Doc>) {
    |files| == |docs| && forall i | 0 <= i < |docs| :: Means(env, files[i], docs[i])
  }

  /** The sealed manifest: its files, its own digest, and the Merkle root when one is sealed. */
  predicate Sealed(env: Env, ms: seq<Member>, files: seq<Json>) {
    && Get(ms, "files") == Some(Arr(files))
    && Get(ms, "manifest_sha256") == Some(Str(ManifestDigest(env, ms)))
    && match Get(ms, "merkle_root")
       case None => true
       case Some(v) => v.Str? && MerkleRoot(env.sha, MerkleEntries(env, files)) == Ok(Some(v.s))
  }

  // ---------- digests ----------

  lemma HexPlain(d: Digest)
    ensures Lower(Strip(Hex(d))) == Hex(d) && NormalizeDigest(Hex(d)) == Some(Hex(d)) && Hex(d) != ""
  {
    Authenticity.LowerHexIsNormal(d);
    var h := Hex(d);
    assert !IsPySpace(h[0]) && !IsPySpace(h[63]);
    assert Strip(h) == h;
    assert Lower(h) == h;
  }

  lemma RootPlain(env: Env, ms: seq<Member>, files: seq<Json>)
    requires Sealed(env, ms, files)
    ensures RootAgrees(env, ms, files)
  {
    var es := MerkleEntries(env, files);
    if RootChecked(env, ms) {
      var leaves := Ordering.Sort(es, PathKey);
      Ordering.SortKeeps(es, PathKey);
      hide PathKey;
      HexPlain(TreeHash(env.sha, LeafHashes(env.sha, leaves)));
    }
  }

  lemma DigestPlain(env: Env, ms: seq<Member>, files: seq<Json>)
    requires Sealed(env, ms, files)
    ensures DeclaredDigest(env, ms) == ManifestDigest(env, ms)
  {
    HexPlain(env.sha(Canonical.Encode(Obj(Body(ms)))));
    hide Lower, Strip;
  }

  lemma ListedTexts(env: Env, file: Json, d: Doc)
    requires Lists(env.sha, file, d) && d.path != ""
    ensures Means(env, file, d)
  {
    HexPlain(env.sha(d.content));
    hide NormalizeDigest;
  }

  // ---------- names ----------

  lemma Tail(a: string, b: string)
    ensures (a + b)[|a|..] == b && |a + b| == |a| + |b|
  {
  }

  /** Whether an entry filed under x can be meant by the path b. */
  lemma FiledEndsWith(pre: string, x: string, b: string)
    ensures |b| <= |x| ==> (EndsWith(pre + ("/" + x), "/" + b) <==> x == b || Covers(x, b))
    ensures |b| > |x| && EndsWith(pre + ("/" + x), "/" + b) ==> Covers(b, x)
  {
    var n, sx, sb := pre + ("/" + x), "/" + x, "/" + b;
    Tail(pre, sx);
    assert n[|pre|..] == sx && sx[1..] == x && sb[1..] == b;
    if |b| <= |x| {
      assert n[|n| - |sb|..] == sx[|sx| - |sb|..];
      if |b| == |x| {
        assert sx[|sx| - |sb|..] == sx;
      } else {
        assert sx[|sx| - |sb|..] == x[|x| - |sb|..];
      }
    } else if EndsWith(n, sb) {
      assert sb[|sb| - |sx|..] == n[|n| - |sx|..] == sx;
      assert b[|b| - |sx|..] == sb[|sb| - |sx|..];
    }
  }

  lemma MeansIff(p: Package, d: Doc, b: string)
    requires FiledAs(p, d) in p.infos
    ensures FiledAs(p, d) in Artifacts(p)
    ensures d.path == b || Covers(d.path, b) ==> FiledAs(p, d) in Candidates(p, b)
    ensures FiledAs(p, d) in Candidates(p, b) ==> d.path == b || Covers(d.path, b) || Covers(b, d.path)
  {
    var n := FiledAs(p, d);
    assert n == (Prefix(p) + d.folder) + ("/" + d.path);
    FiledEndsWith(Prefix(p) + d.folder, d.path, b);
    CandidateIffSuffix(p, b, n);
    assert Covers(d.path, b) ==> |b| <= |d.path|;
  }

  lemma {:induction false} FoldersAgree(f: string, g: string, x: string, y: string)
    requires '/' !in f && '/' !in g && f + ("/" + x) == g + ("/" + y)
    ensures x == y
  {
    var s := f + ("/" + x);
    assert (f == "" ==> s[0] == '/') && (f != "" ==> s[0] == f[0]);
    assert s == g + ("/" + y) && (g == "" ==> s[0] == '/') && (g != "" ==> s[0] == g[0]);
    if f == "" {
      assert s[1..] == x && s[1..] == y;
    } else {
      assert s[1..] == f[1..] + ("/" + x) && s[1..] == g[1..] + ("/" + y);
      FoldersAgree(f[1..], g[1..], x, y);
    }
  }

  lemma {:induction false} FiledApart(p: Package, d: Doc, e: Doc)
    requires '/' !in d.folder && '/' !in e.folder && d.path != e.path
    ensures FiledAs(p, d) != FiledAs(p, e)
  {
    var pre := Prefix(p);
    if FiledAs(p, d) == FiledAs(p, e) {
      Tail(pre, d.folder + ("/" + d.path));
      Tail(pre, e.folder + ("/" + e.path));
      FoldersAgree(d.folder, e.folder, d.path, e.path);
    }
  }

  // ---------- the verdict ----------

  predicate NoneCovers(docs: seq<Doc>) {
    forall i, j | 0 <= i < |docs| && 0 <= j < |docs| && i != j :: !Covers(docs[i].path, docs[j].path)
  }

  /** Without covering paths each listed file has its own entry as only candidate. */
  lemma OwnCandidate(p: Package, docs: seq<Doc>, i: nat)
    requires Files(p, docs) && Proper(docs) && NoneCovers(docs) && i < |docs|
    ensures Candidates(p, docs[i].path) == {FiledAs(p, docs[i])}
  {
    hide FiledAs, Covers;
    MeansIff(p, docs[i], docs[i].path);
    forall n | n in Candidates(p, docs[i].path) ensures n == FiledAs(p, docs[i]) {
      var j :| 0 <= j < |docs| && FiledAs(p, docs[j]) == n;
      MeansIff(p, docs[j], docs[i].path);
    }
  }

  /** Whatever a listed file is located at is its own entry. */
  lemma OwnEntry(env: Env, p: Package, file: Json, docs: seq<Doc>, i: nat)
    requires Files(p, docs) && i < |docs| && Means(env, file, docs[i])
    ensures Located(env, p, file) ==> EntryOf(env, p, file) == p.infos[FiledAs(p, docs[i])]
    ensures SizeRead(env, p, file) == if Located(env, p, file) then |docs[i].content| else 0
  {
    MeansIff(p, docs[i], docs[i].path);
    hide FiledAs, Describes, PathOf, Candidates;
    if Located(env, p, file) {
      SingletonIs(Candidates(p, docs[i].path), FiledAs(p, docs[i]));
      assert TheOne({FiledAs(p, docs[i])}) == FiledAs(p, docs[i]);
    }
  }

  lemma OwnLocated(env: Env, p: Package, file: Json, docs: seq<Doc>, i: nat)
    requires Files(p, docs) && Proper(docs) && NoneCovers(docs) && i < |docs| && Means(env, file, docs[i])
    ensures Located(env, p, file)
  {
    OwnCandidate(p, docs, i);
    hide FiledAs, Describes, PathOf, Candidates;
  }

  lemma JudgedVerified(env: Env, p: Package, file: Json, docs: seq<Doc>, i: nat)
    requires Files(p, docs) && Proper(docs) && NoneCovers(docs) && i < |docs| && Means(env, file, docs[i])
    ensures Judge(env, p, file) == Verified
  {
    hide FiledAs, Describes, PathOf, Candidates, EntryOf, NoneCovers, SizeRead;
    OwnLocated(env, p, file, docs, i);
    OwnEntry(env, p, file, docs, i);
    NotEmpty(env, p, file);
  }

  lemma NotEmpty(env: Env, p: Package, file: Json)
    requires Located(env, p, file)
    ensures Candidates(p, PathOf(env, file)) != {}
  {
  }

  /** A covered path has two candidates, so its file fails. */
  lemma CoveredFails(env: Env, p: Package, file: Json, docs: seq<Doc>, i: nat, j: nat)
    requires Files(p, docs) && Proper(docs) && i < |docs| && j < |docs| && i != j && Means(env, file, docs[j])
    requires Covers(docs[i].path, docs[j].path)
    ensures Judge(env, p, file) == Failed
  {
    var c := Candidates(p, docs[j].path);
    MeansIff(p, docs[i], docs[j].path);
    MeansIff(p, docs[j], docs[j].path);
    FiledApart(p, docs[i], docs[j]);
    hide FiledAs, Describes, PathOf, Candidates;
    assert FiledAs(p, docs[i]) in c && FiledAs(p, docs[j]) in c;
    if |c| == 1 {
      SingletonIs(c, FiledAs(p, docs[i]));
      assert false;
    }
  }

  /** Integrity of an intact sealed package: verified exactly when no logical path ends with "/" and another one. */
  lemma {:induction false} SealedVerifiesIff(env: Env, p: Package, ms: seq<Member>, files: seq<Json>, docs: seq<Doc>)
    requires Sealed(env, ms, files) && MeansAll(env, files, docs) && Files(p, docs) && Proper(docs)
    ensures IntegrityHolds(env, p, ms, files) <==> NoneCovers(docs)
  {
    RootPlain(env, ms, files);
    DigestPlain(env, ms, files);
    hide Sealed, RootAgrees, DeclaredDigest, ManifestDigest, Candidates, FiledAs, Covers, Means, Judge, PathOf;
    if NoneCovers(docs) {
      forall i | 0 <= i < |files| ensures Judge(env, p, files[i]) == Verified {
        JudgedVerified(env, p, files[i], docs, i);
      }
      forall n | n in Artifacts(p) ensures exists i :: 0 <= i < |files| && n in Candidates(p, PathOf(env, files[i])) {
        var i :| 0 <= i < |docs| && FiledAs(p, docs[i]) == n;
        OwnCandidate(p, docs, i);
        assert n in Candidates(p, PathOf(env, files[i]));
      }
    } else {
      var i, j :| 0 <= i < |docs| && 0 <= j < |docs| && i != j && Covers(docs[i].path, docs[j].path);
      CoveredFails(env, p, files[j], docs, i, j);
    }
  }

  lemma FolderCovers(folder: string, path: string)
    ensures Covers(folder + ("/" + path), path)
  {
    Tail(folder, "/" + path);
  }

  lemma OldName()
    ensures "old/incidents.json" == "old" + ("/" + "incidents.json")
    ensures '/' !in "operational" && '/' !in "package"
  {
  }

  /** Two honest files of one name, one of them in a folder: the intact sealed package does not verify. */
  lemma {:induction false} SameNameInFolderFails(env: Env, p: Package, ms: seq<Member>, files: seq<Json>,
                                                 docs: seq<Doc>)
    requires Sealed(env, ms, files) && MeansAll(env, files, docs) && Files(p, docs) && |docs| == 2
    requires docs[0].path == "incidents.json" && docs[0].folder == "operational"
    requires docs[1].path == "old/incidents.json" && docs[1].folder == "package"
    ensures !IntegrityHolds(env, p, ms, files)
  {
    hide IntegrityHolds, Sealed, MeansAll, Files, Covers;
    OldName();
    FolderCovers("old", docs[0].path);
    SealedVerifiesIff(env, p, ms, files, docs);
  }

  /** The manifest as the archive holds it, in any layout, reads back member for member. */
  lemma {:induction false} ManifestReadsBack(p: Package, ms: seq<Member>, l: Layout)
    requires var name := EntryName(p.root, "manifest.json");
      name in p.infos && Readable(p.infos[name], MAX_MANIFEST_BYTES, MAX_TOTAL_UNCOMPRESSED)
      && p.infos[name].content == Utf8(Put(Obj(ms), l, 0, ""))
    requires WellFormed(Obj(ms))
    ensures ManifestOf(p) == Ok(ms)
  {
    hide Put, Loads, WellFormed, Readable, FromUtf8, Utf8;
    LoadsUndoesPut(Obj(ms), l, "", Refuse);
    FromUtf8Inverts(Put(Obj(ms), l, 0, ""));
  }

  // ---------- sealing does not depend on key order ----------

  lemma BodyWellFormed(ms: seq<Member>)
    requires WellFormed(Obj(ms))
    ensures WellFormed(Obj(Body(ms)))
  {
    var body := Body(ms);
    forall i | 0 <= i < |body| ensures WellFormed(body[i].value) {
      assert body[i] in ms;
    }
  }

  lemma {:induction false} BodyOfSealed(body: seq<Member>, digest: Json)
    requires forall m | m in body :: m.name != "manifest_sha256"
    ensures Body(body + [Member("manifest_sha256", digest)]) == body
    ensures forall name | name != "manifest_sha256" ::
      Get(body + [Member("manifest_sha256", digest)], name) == Get(body, name)
    ensures Get(body + [Member("manifest_sha256", digest)], "manifest_sha256") == Some(digest)
  {
    var ms := body + [Member("manifest_sha256", digest)];
    if body == [] {
      assert ms[1..] == [] && ms[0] == Member("manifest_sha256", digest);
    } else {
      assert ms[0] == body[0] && ms[1..] == body[1..] + [Member("manifest_sha256", digest)];
      assert body[0] in body && body == [body[0]] + body[1..];
      BodyOfSealed(body[1..], digest);
    }
  }

  /** Hashing the body and then adding the digest to it seals the manifest. */
  lemma {:induction false} SealingSeals(env: Env, body: seq<Member>, files: seq<Json>)
    requires forall m | m in body :: m.name != "manifest_sha256"
    requires Get(body, "files") == Some(Arr(files))
    requires Get(body, "merkle_root").Some? ==>
      var v := Get(body, "merkle_root").value;
      v.Str? && MerkleRoot(env.sha, MerkleEntries(env, files)) == Ok(Some(v.s))
    ensures var digest := Hex(env.sha(Canonical.Encode(Obj(body))));
      Sealed(env, body + [Member("manifest_sha256", Str(digest))], files)
  {
    hide Get, Body, Canonical.Encode, MerkleRoot;
    BodyOfSealed(body, Str(Hex(env.sha(Canonical.Encode(Obj(body))))));
  }

  /** The digest of the body is the same for every order of the keys. */
  lemma {:induction false} DigestForgetsOrder(env: Env, ms: seq<Member>, ns: seq<Member>)
    requires WellFormed(Obj(ms)) && WellFormed(Obj(ns)) && Canonical.Same(Obj(ms), Obj(ns))
    ensures ManifestDigest(env, ms) == ManifestDigest(env, ns)
  {
    var a, b := Body(ms), Body(ns);
    BodyWellFormed(ms);
    BodyWellFormed(ns);
    forall i | 0 <= i < |a| ensures Get(b, a[i].name).Some? && Canonical.Same(a[i].value, Get(b, a[i].name).value) {
      assert a[i] in a && a[i] in ms;
      BodyGet(ns, a[i].name);
      var k :| 0 <= k < |ms| && ms[k] == a[i];
    }
    forall j | 0 <= j < |b| ensures Get(a, b[j].name).Some? {
      assert b[j] in b && b[j] in ns;
      BodyGet(ms, b[j].name);
      var k :| 0 <= k < |ns| && ns[k] == b[j];
    }
    assert Canonical.Same(Obj(a), Obj(b));
    Canonical.CanonicalDecidesEquality(Obj(a), Obj(b));
  }

  // ---------- the report comes back ----------

  function Total(docs: seq<Doc>): nat {
    if docs == [] then 0 else Total(docs[..|docs| - 1]) + |docs[|docs| - 1].content|
  }

  /** The entries can be read, and together they fit the budget the manifest leaves. */
  predicate Fits(p: Package, docs: seq<Doc>)
    requires Files(p, docs)
  {
    && ManifestSize(p) + Total(docs) <= MAX_TOTAL_UNCOMPRESSED
    && forall i | 0 <= i < |docs| ::
         SafeName(docs[i].path)
         && Readable(p.infos[FiledAs(p, docs[i])], MAX_MEMBER_UNCOMPRESSED, MAX_TOTAL_UNCOMPRESSED)
  }

  lemma {:induction false} TotalGrows(docs: seq<Doc>, i: nat)
    requires i < |docs|
    ensures Total(docs[..i]) + |docs[i].content| <= Total(docs)
    decreases |docs|
  {
    var n := |docs| - 1;
    if i < n {
      assert docs[..n][..i] == docs[..i];
      TotalGrows(docs[..n], i);
    }
  }

  /** What is read for the first n files; all of it is when no path covers another. */
  lemma {:induction false} AllRead(env: Env, p: Package, files: seq<Json>, docs: seq<Doc>, n: nat)
    requires Files(p, docs) && Proper(docs) && MeansAll(env, files, docs) && n <= |docs|
    ensures BytesRead(env, p, files, n) <= Total(docs[..n])
    ensures NoneCovers(docs) ==> BytesRead(env, p, files, n) == Total(docs[..n])
  {
    hide Files, FiledAs, NoneCovers, Means, SizeRead, Proper;
    if n > 0 {
      AllRead(env, p, files, docs, n - 1);
      OwnEntry(env, p, files[n - 1], docs, n - 1);
      if NoneCovers(docs) { OwnLocated(env, p, files[n - 1], docs, n - 1); }
      assert docs[..n][..n - 1] == docs[..n - 1];
    }
  }

  lemma ListedInOrder(env: Env, p: Package, files: seq<Json>, docs: seq<Doc>)
    requires Files(p, docs) && Proper(docs) && MeansAll(env, files, docs) && Fits(p, docs)
    ensures ListingOk(env, files) && DigestsValid(MerkleEntries(env, files))
  {
    hide PathOf, DigestOf, SafeName, NormalizeDigest, Files, FiledAs, Readable, Describes;
    forall i | 0 <= i < |files|
      ensures PathOf(env, files[i]) == docs[i].path && NormalizeDigest(DigestOf(env, files[i])).Some?
    {
      Described(env, files[i], docs[i].content);
    }
  }

  lemma Described(env: Env, file: Json, content: seq<Byte>)
    requires Describes(env, file, content)
    ensures NormalizeDigest(DigestOf(env, file)).Some?
  {
  }

  lemma EachReadable(env: Env, p: Package, files: seq<Json>, docs: seq<Doc>, i: nat)
    requires Files(p, docs) && Proper(docs) && MeansAll(env, files, docs) && Fits(p, docs)
    requires i < |files|
    ensures FileReadable(env, p, files, i, MAX_TOTAL_UNCOMPRESSED - ManifestSize(p))
  {
    hide FiledAs, NoneCovers, Means, EntryOf, Located, SafeName, ManifestSize, Proper;
    OwnEntry(env, p, files[i], docs, i);
    AllRead(env, p, files, docs, i);
    TotalGrows(docs, i);
  }

  lemma AllReadable(env: Env, p: Package, files: seq<Json>, docs: seq<Doc>)
    requires Files(p, docs) && Proper(docs) && MeansAll(env, files, docs) && Fits(p, docs)
    ensures FilesReadable(env, p, files, MAX_TOTAL_UNCOMPRESSED - ManifestSize(p))
  {
    hide FileReadable, Files, Fits, MeansAll, NoneCovers, Proper, ManifestSize;
    var budget := MAX_TOTAL_UNCOMPRESSED - ManifestSize(p);
    forall i | 0 <= i < |files| ensures FileReadable(env, p, files, i, budget) {
      EachReadable(env, p, files, docs, i);
    }
  }

  /** A sealed package within the limits gets a report; it says verified exactly when no path covers another. */
  lemma {:induction false} SealedPackageReports(env: Env, p: Package, ms: seq<Member>, files: seq<Json>, docs: seq<Doc>)
    requires Sealed(env, ms, files) && MeansAll(env, files, docs) && Files(p, docs) && Proper(docs)
    requires Fits(p, docs) && ManifestOf(p) == Ok(ms)
    ensures Reportable(env, p) && FilesOf(ms) == Some(files)
    ensures IntegrityHolds(env, p, ms, files) <==> NoneCovers(docs)
  {
    hide ListingOk, DigestsValid, RootChecked, FilesReadable, ManifestOf, ManifestSize, IntegrityHolds, Files, Fits,
         MeansAll, NoneCovers, Proper, MerkleRoot, ManifestDigest;
    SealedVerifiesIff(env, p, ms, files, docs);
    ListedInOrder(env, p, files, docs);
    AllReadable(env, p, files, docs);
  }

  // ---------- the signature ----------

  /** A seal document, as it lies in the archive, and its first signature document. */
  predicate SealStored(p: Package, seal: seq<Member>, doc: seq<Member>, l: Layout) {
    && Authenticity.SealName(p).Some?
    && p.infos[EntryName(p.root, Authenticity.SealName(p).value)].content == Utf8(Put(Obj(seal), l, 0, ""))
    && WellFormed(Obj(seal)) && Authenticity.SignatureOf(seal) == Some(doc)
  }

  /** With a key pinned, the verdict is what Ed25519 says of the payload, or unavailable when the key is pinned under
      another id than the one in the seal; without an id it is pinned under "<--public-key>". */
  lemma {:induction false} PinnedKeyDecides(env: Env, crypto: Authenticity.Crypto, p: Package, seal: seq<Member>,
                                            doc: seq<Member>, l: Layout, digest: string,
                                            options: Authenticity.KeyOptions, budget: int)
    requires SealStored(p, seal, doc, l) && Authenticity.Supported(env, doc)
    requires Readable(p.infos[EntryName(p.root, Authenticity.SealName(p).value)], MAX_MANIFEST_BYTES, budget)
    requires options.publicKey != ""
    ensures Authenticity.AuthenticityOf(env, crypto, p, digest, options, budget) ==
      Ok(Authenticity.Authenticity(
        if Authenticity.PinnedId(options) != TextOf(env, doc, "key_id") then Authenticity.Unavailable
        else if Authenticity.SignatureHolds(env, crypto, doc, options.publicKey, digest) then Authenticity.Authentic
        else Authenticity.Forged, Authenticity.PinnedKey))
  {
    hide Put, Loads, WellFormed, Readable, FromUtf8, Utf8, TextOf, Authenticity.Supported, Authenticity.SignatureHolds;
    LoadsUndoesPut(Obj(seal), l, "", Refuse);
    FromUtf8Inverts(Put(Obj(seal), l, 0, ""));
  }

  /** Sealed, filed, free of covering paths and within the limits. */
  predicate Intact(env: Env, p: Package, ms: seq<Member>, files: seq<Json>, docs: seq<Doc>) {
    && Sealed(env, ms, files) && MeansAll(env, files, docs) && Files(p, docs) && Proper(docs)
    && NoneCovers(docs) && Fits(p, docs) && ManifestOf(p) == Ok(ms)
  }

  lemma BudgetAfter(env: Env, p: Package, ms: seq<Member>, files: seq<Json>, docs: seq<Doc>)
    requires Intact(env, p, ms, files, docs)
    ensures Reportable(env, p) && IntegrityHolds(env, p, ms, files)
    ensures BudgetLeft(env, p) == MAX_TOTAL_UNCOMPRESSED - ManifestSize(p) - Total(docs)
  {
    hide Sealed, Files, Proper, NoneCovers, Fits, ManifestOf, IntegrityHolds, Reportable, ManifestSize, Means;
    SealedPackageReports(env, p, ms, files, docs);
    AllRead(env, p, files, docs, |docs|);
    assert docs[..|docs|] == docs;
  }

  /** What is intact and signed comes back fully verified under the signer's pinned key. */
  lemma {:induction false} SignedPackageVerifies(env: Env, crypto: Authenticity.Crypto, p: Package, ms: seq<Member>,
                                                 files: seq<Json>, docs: seq<Doc>, seal: seq<Member>, doc: seq<Member>,
                                                 l: Layout, options: Authenticity.KeyOptions)
    requires Intact(env, p, ms, files, docs) && SealStored(p, seal, doc, l) && Authenticity.Supported(env, doc)
    requires Readable(p.infos[EntryName(p.root, Authenticity.SealName(p).value)], MAX_MANIFEST_BYTES,
                      MAX_TOTAL_UNCOMPRESSED - ManifestSize(p) - Total(docs))
    requires options.publicKey != "" && Authenticity.PinnedId(options) == TextOf(env, doc, "key_id")
    requires Authenticity.SignatureHolds(env, crypto, doc, options.publicKey, ManifestDigest(env, ms))
    ensures Reportable(env, p) && IntegrityHolds(env, p, ms, files)
    ensures Authenticity.AuthenticityVerdict(env, crypto, p, options)
         == Ok(Authenticity.Authenticity(Authenticity.Authentic, Authenticity.PinnedKey))
  {
    hide Intact, SealStored, Readable, IntegrityHolds, Reportable, BudgetLeft, ManifestDigest, ManifestOf, ManifestSize,
         Authenticity.Supported, Authenticity.SignatureHolds, Authenticity.AuthenticityOf, Total, TextOf, EntryName,
         Authenticity.SealName, Authenticity.AuthenticityVerdict, Authenticity.PinnedId;
    BudgetAfter(env, p, ms, files, docs);
    ManifestIs(env, p, ms, files, docs);
    PinnedKeyDecides(env, crypto, p, seal, doc, l, ManifestDigest(env, ms), options, BudgetLeft(env, p));
    VerdictIs(env, crypto, p, options);
  }

  lemma ManifestIs(env: Env, p: Package, ms: seq<Member>, files: seq<Json>, docs: seq<Doc>)
    requires Intact(env, p, ms, files, docs)
    ensures ManifestOf(p) == Ok(ms)
  {
  }

  lemma VerdictIs(env: Env, crypto: Authenticity.Crypto, p: Package, options: Authenticity.KeyOptions)
    requires Reportable(env, p) && ManifestOf(p).Ok?
    ensures Authenticity.AuthenticityVerdict(env, crypto, p, options) ==
      Authenticity.AuthenticityOf(env, crypto, p, ManifestDigest(env, ManifestOf(p).value), options, BudgetLeft(env, p))
  {
  }

  // ---------- from the body to the verdict ----------

  /** The digest that is sealed into the manifest, and signed. */
  function BodyDigest(env: Env, body: seq<Member>): string {
    Hex(env.sha(Canonical.Encode(Obj(body))))
  }

  /** The body with its digest: what build_manifest returns. */
  function SealedMembers(env: Env, body: seq<Member>): seq<Member> {
    body + [Member("manifest_sha256", Str(BodyDigest(env, body)))]
  }

  /** The manifest as the archive holds it: keys sorted at every depth. */
  function StoredMembers(env: Env, body: seq<Member>): seq<Member> {
    Canonical.Norm(Obj(SealedMembers(env, body))).members
  }

  /** The package the builder writes from a body that lists the documents. */
  predicate Built(env: Env, p: Package, body: seq<Member>, files: seq<Json>, docs: seq<Doc>) {
    var name := EntryName(p.root, "manifest.json");
    && WellFormed(Obj(body)) && (forall m | m in body :: m.name != "manifest_sha256")
    && Get(body, "files") == Some(Arr(files)) && ListsAll(env.sha, files, docs) && Proper(docs) && Files(p, docs)
    && (Get(body, "merkle_root").Some? ==>
          var v := Get(body, "merkle_root").value;
          v.Str? && MerkleRoot(env.sha, MerkleEntries(env, files)) == Ok(Some(v.s)))
    && name in p.infos && Readable(p.infos[name], MAX_MANIFEST_BYTES, MAX_TOTAL_UNCOMPRESSED)
    && p.infos[name].content == Utf8(Put(Canonical.Norm(Obj(SealedMembers(env, body))), Indented(2), 0, ""))
  }

  lemma SealedWellFormed(env: Env, body: seq<Member>)
    requires WellFormed(Obj(body)) && forall m | m in body :: m.name != "manifest_sha256"
    ensures WellFormed(Obj(SealedMembers(env, body)))
  {
    var ms := SealedMembers(env, body);
    assert forall i | 0 <= i < |body| :: ms[i] == body[i] && body[i] in body;
  }

  lemma SortedLookup(ms: seq<Member>, name: string)
    requires DistinctNames(ms)
    ensures Get(Canonical.Norm(Obj(ms)).members, name)
         == match Get(ms, name) case Some(v) => Some(Canonical.Norm(v)) case None => None
  {
    Canonical.GetNorm(ms, name);
  }

  /** Sorting the keys of the file entries leaves what they list. */
  lemma SortedLists(sha: Hash, file: Json, d: Doc)
    requires WellFormed(file) && Lists(sha, file, d)
    ensures Lists(sha, Canonical.Norm(file), d)
  {
    SortedLookup(file.members, "path");
    SortedLookup(file.members, "sha256");
    SortedLookup(file.members, "size_bytes");
    hide Get;
  }

  lemma SortedListsAll(env: Env, files: seq<Json>, docs: seq<Doc>)
    requires WellFormed(Arr(files)) && ListsAll(env.sha, files, docs) && Proper(docs)
    ensures ListsAll(env.sha, Canonical.NormItems(files), docs)
    ensures MerkleEntries(env, Canonical.NormItems(files)) == MerkleEntries(env, files)
  {
    hide Lists, PathOf, DigestOf, WellFormed;
    var gs := Canonical.NormItems(files);
    ItemsWellFormed(files);
    forall i | 0 <= i < |files|
      ensures Lists(env.sha, gs[i], docs[i]) && PathOf(env, gs[i]) == PathOf(env, files[i])
      ensures DigestOf(env, gs[i]) == DigestOf(env, files[i])
    {
      SortedLists(env.sha, files[i], docs[i]);
      ListedTexts(env, files[i], docs[i]);
      ListedTexts(env, gs[i], docs[i]);
      ListedDigest(env, files[i], docs[i]);
      ListedDigest(env, gs[i], docs[i]);
    }
  }

  lemma ItemsWellFormed(files: seq<Json>)
    requires WellFormed(Arr(files))
    ensures forall i | 0 <= i < |files| :: WellFormed(files[i])
  {
  }

  lemma ListedDigest(env: Env, file: Json, d: Doc)
    requires Lists(env.sha, file, d)
    ensures DigestOf(env, file) == Hex(env.sha(d.content))
  {
  }

  /** The digest in the stored manifest is its own. */
  lemma StoredDigest(env: Env, ms: seq<Member>)
    requires WellFormed(Obj(ms))
    ensures var ns := Canonical.Norm(Obj(ms)).members;
      Obj(ns) == Canonical.Norm(Obj(ms)) && WellFormed(Obj(ns)) && ManifestDigest(env, ns) == ManifestDigest(env, ms)
  {
    var ns := Canonical.Norm(Obj(ms)).members;
    assert Obj(ns) == Canonical.Norm(Obj(ms));
    hide Canonical.Norm, ManifestDigest, WellFormed, Canonical.Same;
    Canonical.NormWellFormed(Obj(ms));
    Canonical.NormIdempotent(Obj(ms));
    Canonical.NormEqualSame(Obj(ms), Obj(ns));
    DigestForgetsOrder(env, ms, ns);
  }

  lemma StoredIsSealed(env: Env, ms: seq<Member>, files: seq<Json>, docs: seq<Doc>)
    requires WellFormed(Obj(ms)) && Sealed(env, ms, files) && ListsAll(env.sha, files, docs) && Proper(docs)
    ensures var ns := Canonical.Norm(Obj(ms)).members;
      Sealed(env, ns, Canonical.NormItems(files)) && ListsAll(env.sha, Canonical.NormItems(files), docs)
  {
    StoredDigest(env, ms);
    SortedLookup(ms, "files");
    SortedLookup(ms, "manifest_sha256");
    SortedLookup(ms, "merkle_root");
    FilesAreWellFormed(ms, files);
    SortedListsAll(env, files, docs);
    hide Get, ManifestDigest, MerkleRoot, MerkleEntries, ListsAll, Proper, WellFormed;
  }

  lemma FilesAreWellFormed(ms: seq<Member>, files: seq<Json>)
    requires WellFormed(Obj(ms)) && Get(ms, "files") == Some(Arr(files))
    ensures WellFormed(Arr(files)) && DistinctNames(ms)
  {
    var i :| 0 <= i < |ms| && ms[i] == Member("files", Arr(files));
    assert WellFormed(ms[i].value);
  }

  lemma ListedMean(env: Env, files: seq<Json>, docs: seq<Doc>)
    requires ListsAll(env.sha, files, docs) && Proper(docs)
    ensures MeansAll(env, files, docs)
  {
    hide Lists, Means;
    forall i | 0 <= i < |docs| ensures Means(env, files[i], docs[i]) {
      ListedTexts(env, files[i], docs[i]);
    }
  }

  lemma SealedDigest(env: Env, body: seq<Member>)
    requires forall m | m in body :: m.name != "manifest_sha256"
    ensures ManifestDigest(env, SealedMembers(env, body)) == BodyDigest(env, body)
  {
    BodyOfSealed(body, Str(BodyDigest(env, body)));
  }

  /** The verifier reads back a sealed manifest that lists the documents. */
  lemma {:induction false} BuiltIsSealed(env: Env, p: Package, body: seq<Member>, files: seq<Json>, docs: seq<Doc>)
    requires Built(env, p, body, files, docs)
    ensures var ns, gs := StoredMembers(env, body), Canonical.NormItems(files);
      && ManifestOf(p) == Ok(ns) && Sealed(env, ns, gs) && MeansAll(env, gs, docs)
      && ManifestDigest(env, ns) == BodyDigest(env, body)
  {
    SealedDigest(env, body);
    hide Get, ManifestDigest, MerkleRoot, MerkleEntries, ListsAll, MeansAll, Proper, WellFormed, Put, Utf8, Readable,
         Files, Sealed, ManifestOf, Canonical.Norm, BodyDigest;
    var ms := SealedMembers(env, body);
    SealedWellFormed(env, body);
    SealingSeals(env, body, files);
    StoredDigest(env, ms);
    StoredIsSealed(env, ms, files, docs);
    ListedMean(env, Canonical.NormItems(files), docs);
    ManifestReadsBack(p, StoredMembers(env, body), Indented(2));
  }

  /** What the builder writes, the verifier accepts, exactly when no logical path covers another. */
  lemma {:induction false} BuiltVerifiesIff(env: Env, p: Package, body: seq<Member>, files: seq<Json>, docs: seq<Doc>)
    requires Built(env, p, body, files, docs)
    ensures var ns, gs := StoredMembers(env, body), Canonical.NormItems(files);
      && ManifestOf(p) == Ok(ns) && FilesOf(ns) == Some(gs)
      && (IntegrityHolds(env, p, ns, gs) <==> NoneCovers(docs))
  {
    hide ManifestOf, IntegrityHolds, NoneCovers, Files, Proper, StoredMembers, ListsAll, MeansAll, MerkleRoot,
         ManifestDigest;
    BuiltIsSealed(env, p, body, files, docs);
    SealedVerifiesIff(env, p, StoredMembers(env, body), Canonical.NormItems(files), docs);
  }

  /** Within the limits what the builder writes always gets a report, also when a covered path makes it say failed. */
  lemma {:induction false} BuiltReports(env: Env, p: Package, body: seq<Member>, files: seq<Json>, docs: seq<Doc>)
    requires Built(env, p, body, files, docs) && Fits(p, docs)
    ensures Reportable(env, p)
    ensures IntegrityHolds(env, p, StoredMembers(env, body), Canonical.NormItems(files)) <==> NoneCovers(docs)
  {
    hide ManifestOf, IntegrityHolds, NoneCovers, Files, Proper, StoredMembers, ListsAll, MeansAll, MerkleRoot,
         ManifestDigest, Fits, Sealed, Reportable;
    BuiltIsSealed(env, p, body, files, docs);
    SealedPackageReports(env, p, StoredMembers(env, body), Canonical.NormItems(files), docs);
  }

  /** Built within the limits, free of covering paths and signed: the report comes back fully verified. */
  lemma {:induction false} BuiltSignedVerifies(env: Env, crypto: Authenticity.Crypto, p: Package, body: seq<Member>,
                                               files: seq<Json>, docs: seq<Doc>, seal: seq<Member>, doc: seq<Member>,
                                               l: Layout, options: Authenticity.KeyOptions)
    requires Built(env, p, body, files, docs) && NoneCovers(docs) && Fits(p, docs)
    requires SealStored(p, seal, doc, l) && Authenticity.Supported(env, doc)
    requires Readable(p.infos[EntryName(p.root, Authenticity.SealName(p).value)], MAX_MANIFEST_BYTES,
                      MAX_TOTAL_UNCOMPRESSED - ManifestSize(p) - Total(docs))
    requires options.publicKey != "" && Authenticity.PinnedId(options) == TextOf(env, doc, "key_id")
    requires Authenticity.SignatureHolds(env, crypto, doc, options.publicKey, BodyDigest(env, body))
    ensures var ns, gs := StoredMembers(env, body), Canonical.NormItems(files);
      Reportable(env, p) && ManifestOf(p) == Ok(ns) && IntegrityHolds(env, p, ns, gs)
    ensures Authenticity.AuthenticityVerdict(env, crypto, p, options)
         == Ok(Authenticity.Authenticity(Authenticity.Authentic, Authenticity.PinnedKey))
  {
    hide ManifestOf, IntegrityHolds, NoneCovers, Files, Proper, StoredMembers, ListsAll, MeansAll, MerkleRoot,
         ManifestDigest, Fits, Sealed, SealStored, Readable, Authenticity.Supported, Authenticity.SignatureHolds,
         Reportable, Authenticity.AuthenticityVerdict, Authenticity.PinnedId, ManifestSize, Total, TextOf, EntryName,
         Authenticity.SealName, BodyDigest;
    BuiltIsSealed(env, p, body, files, docs);
    SignedPackageVerifies(env, crypto, p, StoredMembers(env, body), Canonical.NormItems(files), docs, seal, doc, l,
                          options);
  }
}
