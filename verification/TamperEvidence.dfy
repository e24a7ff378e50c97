/** What a verified package guarantees. */
module TamperEvidence {
  import opened Wrappers
  import opened Bytes
  import opened Json
  import opened PyText
  import opened Archive
  import opened Merkle
  import opened Manifest
  import opened Verifier
  import Canonical

  // ---------- one package ----------

  /** Every listed file is one archive entry with the listed digest and size, and nothing else is an artifact. */
  lemma {:induction false} IntegritySound(env: Env, p: Package, ms: seq<Member>, files: seq<Json>)
    requires IntegrityHolds(env, p, ms, files)
    ensures forall i | 0 <= i < |files| ::
      Located(env, p, files[i]) && Describes(env, files[i], EntryOf(env, p, files[i]).content)
    ensures forall n | n in Artifacts(p) :: exists i :: 0 <= i < |files| && Candidates(p, PathOf(env, files[i])) == {n}
  {
    forall i | 0 <= i < |files|
      ensures Located(env, p, files[i]) && Describes(env, files[i], EntryOf(env, p, files[i]).content)
    {
      assert Judge(env, p, files[i]) == Verified;
    }
    forall n | n in Artifacts(p)
      ensures exists i :: 0 <= i < |files| && Candidates(p, PathOf(env, files[i])) == {n}
    {
      assert n !in Unlisted(env, p, files);
      var i :| 0 <= i < |files| && n in Candidates(p, PathOf(env, files[i]));
      assert Judge(env, p, files[i]) == Verified;
      SingletonIs(Candidates(p, PathOf(env, files[i])), n);
    }
  }

  /** a ends with "/" followed by b. */
  predicate Covers(a: string, b: string) {
    EndsWith(a, "/" + b)
  }

  lemma PrefixEndsInSlash(p: Package, path: string)
    ensures EndsWith(Prefix(p) + path, "/" + path)
  {
    var rel := "artifacts/";
    assert Prefix(p) == (if p.root != "" then p.root + "/" else "") + rel;
    var n := Prefix(p) + path;
    assert n[|n| - |path| - 1] == rel[9];
    assert n[|n| - |path| - 1..] == "/" + path;
  }

  lemma CandidateIffSuffix(p: Package, path: string, n: string)
    ensures n in Candidates(p, path) <==> n in Artifacts(p) && EndsWith(n, "/" + path)
  {
    PrefixEndsInSlash(p, path);
  }

  lemma EqualSuffixes(n: string, a: string, b: string)
    requires EndsWith(n, "/" + a) && EndsWith(n, "/" + b)
    ensures |a| == |b| ==> a == b
  {
    var sa, sb := "/" + a, "/" + b;
    assert sa[1..] == a && sb[1..] == b;
  }

  lemma SuffixesNest(n: string, a: string, b: string)
    requires EndsWith(n, "/" + a) && EndsWith(n, "/" + b) && |b| <= |a| && a != b
    ensures Covers(a, b)
  {
    var sa, sb := "/" + a, "/" + b;
    var ta, tb := n[|n| - |sa|..], n[|n| - |sb|..];
    assert ta == sa && tb == sb;
    EqualSuffixes(n, a, b);
    assert a == ta[1..];
    assert a[|a| - |sb|..] == tb;
  }

  lemma CoverTransports(n: string, a: string, b: string)
    requires EndsWith(n, "/" + a) && Covers(a, b)
    ensures EndsWith(n, "/" + b)
  {
    var sa, sb := "/" + a, "/" + b;
    assert n[|n| - |sa|..] == sa;
    assert n[|n| - |sb|..] == a[|a| - |sb|..];
  }

  /** Two listed files share an archive entry exactly when one path covers the other. */
  lemma {:induction false} SharedEntryIffCovered(env: Env, p: Package, ms: seq<Member>, files: seq<Json>, i: nat,
                                                 j: nat)
    requires IntegrityHolds(env, p, ms, files) && ListingOk(env, files) && i < |files| && j < |files| && i != j
    ensures Candidates(p, PathOf(env, files[i])) == Candidates(p, PathOf(env, files[j]))
       <==> Covers(PathOf(env, files[i]), PathOf(env, files[j])) || Covers(PathOf(env, files[j]), PathOf(env, files[i]))
  {
    IntegritySound(env, p, ms, files);
    var a, b := PathOf(env, files[i]), PathOf(env, files[j]);
    var n, m := TheOne(Candidates(p, a)), TheOne(Candidates(p, b));
    assert Candidates(p, a) == {n} && Candidates(p, b) == {m};
    CandidateIffSuffix(p, a, n);
    CandidateIffSuffix(p, b, m);
    CandidateIffSuffix(p, b, n);
    CandidateIffSuffix(p, a, m);
    assert a != b;
    if n == m {
      if |b| <= |a| { SuffixesNest(n, a, b); } else { SuffixesNest(n, b, a); }
    }
    if Covers(a, b) { CoverTransports(n, a, b); }
    if Covers(b, a) { CoverTransports(m, b, a); }
  }

  lemma RootName(n: string, root: string)
    requires RootOf(n) == Some(root)
    ensures (n == "manifest.json" && root == n) || n == root + "/manifest.json"
  {
  }

  lemma KeyErrorIffAbsent(p: Package)
    ensures ManifestOf(p) == Err(KeyError) <==> EntryName(p.root, "manifest.json") !in p.infos
  {
    hide Readable, FromUtf8, Loads;
  }

  lemma SafeNamesInside(entries: seq<ZipEntry>, n: string)
    requires Acceptable(entries) && n in Infos(entries)
    ensures SafeName(n)
  {
    InfosHoldsEntries(entries, n);
    var k :| 0 <= k < |entries| && entries[k].name == n && !IsDirectory(n);
    assert AcceptableEntry(entries[k]);
  }

  lemma NestedEntry(root: string)
    requires SafeName(root + "/manifest.json")
    ensures EntryName(root, "manifest.json") == root + "/manifest.json"
  {
    var n := root + "/manifest.json";
    assert n[|root|] == '/' && n[|n| - 1] == 'n';
    assert root + "/" + "manifest.json" == n;
  }

  lemma FlatRoot(infos: map<string, ZipEntry>, root: string)
    requires Roots(infos) == {root} && "manifest.json" in infos
    ensures EntryName(root, "manifest.json") == "manifest.json/manifest.json"
  {
    var name := "manifest.json";
    assert RootOf(name) == Some(name);
    assert name in Roots(infos);
    assert name + "/" + name == "manifest.json/manifest.json";
  }

  lemma NestedRoot(entries: seq<ZipEntry>, root: string)
    requires Acceptable(entries) && Roots(Infos(entries)) == {root} && "manifest.json" !in Infos(entries)
    ensures EntryName(root, "manifest.json") in Infos(entries)
  {
    assert root in Roots(Infos(entries));
    var n :| n in Infos(entries) && RootOf(n).Some? && RootOf(n).value == root;
    RootName(n, root);
    SafeNamesInside(entries, n);
    hide Infos, Acceptable, SafeName, RootOf, EntryName;
    NestedEntry(root);
  }

  /** An acceptable archive raises KeyError exactly when its manifest lies flat at the top. */
  lemma {:induction false} FlatArchiveRaisesKeyError(entries: seq<ZipEntry>, root: string)
    requires Acceptable(entries) && Roots(Infos(entries)) == {root}
    ensures ManifestOf(Package(Infos(entries), root)) == Err(KeyError)
       <==> "manifest.json" in Infos(entries) && "manifest.json/manifest.json" !in Infos(entries)
  {
    hide *;
    KeyErrorIffAbsent(Package(Infos(entries), root));
    if "manifest.json" in Infos(entries) {
      FlatRoot(Infos(entries), root);
    } else {
      NestedRoot(entries, root);
    }
  }

  // ---------- two packages ----------

  predicate IsContainer(v: Json) {
    v.Arr? || v.Obj?
  }

  lemma {:induction false} StripRightKeepsHead(s: string)
    requires s != "" && !IsPySpace(s[0])
    ensures StripRight(s) != "" && StripRight(s)[0] == s[0]
  {
    if IsPySpace(s[|s| - 1]) {
      StripRightKeepsHead(s[..|s| - 1]);
    }
  }

  /** The str() of a list or a dict is never a digest. */
  lemma {:induction false} ContainerIsNoDigest(env: Env, ms: seq<Member>, name: string)
    requires Get(ms, name).Some? && IsContainer(Get(ms, name).value)
    ensures NormalizeDigest(TextOf(env, ms, name)) == None
  {
    var v := Get(ms, name).value;
    var t := TextOf(env, ms, name);
    if !Falsy(v) {
      assert t == Repr(env, v) && (t[0] == '[' || t[0] == '{');
      StripRightKeepsHead(t);
      var u := Lower(Strip(t));
      assert u != "" && u[0] == t[0];
      assert "sha256:"[0] == 's';
    }
  }

  /** Lookups in two objects that are equal up to key order. */
  lemma EqualLookups(ms: seq<Member>, ns: seq<Member>, name: string)
    requires DistinctNames(ms) && DistinctNames(ns)
    requires Canonical.Norm(Obj(ms)) == Canonical.Norm(Obj(ns))
    ensures Get(ms, name).Some? <==> Get(ns, name).Some?
    ensures Get(ms, name).Some? ==> Canonical.Norm(Get(ms, name).value) == Canonical.Norm(Get(ns, name).value)
  {
    Canonical.GetNorm(ms, name);
    Canonical.GetNorm(ns, name);
  }

  /** No dict inside has two keys, so there is nothing to reorder. */
  predicate Unambiguous(v: Json) {
    match v
    case Arr(items) => forall i | 0 <= i < |items| :: Unambiguous(items[i])
    case Obj(ms) => |ms| <= 1 && forall i | 0 <= i < |ms| :: Unambiguous(ms[i].value)
    case _ => true
  }

  lemma {:induction false} NormKeepsUnambiguous(v: Json)
    ensures Unambiguous(v) ==> Canonical.Norm(v) == v
    ensures Unambiguous(Canonical.Norm(v)) ==> Unambiguous(v)
  {
    match v
    case Arr(items) =>
      forall i | 0 <= i < |items|
        ensures Unambiguous(items[i]) ==> Canonical.NormItems(items)[i] == items[i]
        ensures Unambiguous(Canonical.NormItems(items)[i]) ==> Unambiguous(items[i])
      {
        NormKeepsUnambiguous(items[i]);
      }
    case Obj(ms) =>
      var ns := Canonical.NormMembers(ms);
      Ordering.SortKeeps(ns, Canonical.NameKey);
      if |ms| == 1 {
        NormKeepsUnambiguous(ms[0].value);
        assert Ordering.Sort(ns[1..], Canonical.NameKey) == [];
        assert Ordering.Sort(ns, Canonical.NameKey) == [ns[0]] == ns;
      }
    case _ =>
  }

  lemma UnambiguousNorm(v: Json, w: Json)
    requires Canonical.Norm(v) == Canonical.Norm(w) && Unambiguous(v)
    ensures v == w
  {
    NormKeepsUnambiguous(v);
    NormKeepsUnambiguous(w);
  }

  /** Equal-up-to-order files agree on the text of every field that holds no dict with two keys. */
  lemma EqualTexts(env: Env, ms: seq<Member>, ns: seq<Member>, name: string)
    requires DistinctNames(ms) && DistinctNames(ns)
    requires Canonical.Norm(Obj(ms)) == Canonical.Norm(Obj(ns))
    requires Get(ms, name).Some? ==> Unambiguous(Get(ms, name).value)
    ensures TextOf(env, ms, name) == TextOf(env, ns, name)
  {
    EqualLookups(ms, ns, name);
    if Get(ms, name).Some? {
      UnambiguousNorm(Get(ms, name).value, Get(ns, name).value);
    }
  }

  lemma {:induction false} BodyGet(ms: seq<Member>, name: string)
    requires name != "manifest_sha256"
    ensures Get(Body(ms), name) == Get(ms, name)
  {
    if ms != [] {
      BodyGet(ms[1..], name);
      if ms[0].name != "manifest_sha256" {
        assert Body(ms)[1..] == Body(ms[1..]);
      }
    }
  }

  lemma ParsedWellFormed(payload: seq<Byte>)
    ensures ParseDocument(payload).Ok? ==> WellFormed(ParseDocument(payload).value)
  {
    if FromUtf8(payload).Some? {
      Canonical.LoadsWellFormed(FromUtf8(payload).value, Refuse);
    }
  }

  lemma ManifestWellFormed(p: Package)
    requires ManifestOf(p).Ok?
    ensures WellFormed(Obj(ManifestOf(p).value)) && WellFormed(Obj(Body(ManifestOf(p).value)))
  {
    var name := EntryName(p.root, "manifest.json");
    ParsedWellFormed(p.infos[name].content);
    var ms := ManifestOf(p).value;
    var body := Body(ms);
    forall i | 0 <= i < |body| ensures WellFormed(body[i].value) {
      assert body[i] in ms;
    }
  }

  lemma HexInjective(d: Digest, e: Digest)
    requires Hex(d) == Hex(e)
    ensures d == e
  {
    UnhexHex(d);
    UnhexHex(e);
  }

  /** Both packages list the same files, up to key order, or the manifests collide. */
  lemma SameListing(env: Env, ms: seq<Member>, ns: seq<Member>, fs: seq<Json>, gs: seq<Json>)
    returns (x: seq<Byte>, y: seq<Byte>)
    requires WellFormed(Obj(Body(ms))) && WellFormed(Obj(Body(ns)))
    requires FilesOf(ms) == Some(fs) && FilesOf(ns) == Some(gs)
    requires ManifestDigest(env, ms) == ManifestDigest(env, ns)
    ensures Collision(env.sha, x, y) ||
      (|fs| == |gs| && forall i | 0 <= i < |fs| :: Canonical.Norm(fs[i]) == Canonical.Norm(gs[i]))
  {
    hide Canonical.Encode, Canonical.Norm;
    x, y := Canonical.Encode(Obj(Body(ms))), Canonical.Encode(Obj(Body(ns)));
    HexInjective(env.sha(x), env.sha(y));
    if x == y {
      Canonical.EncodeDecidesNorm(Obj(Body(ms)), Obj(Body(ns)));
      EqualLookups(Body(ms), Body(ns), "files");
      BodyGet(ms, "files");
      BodyGet(ns, "files");
      ItemsNorm(fs, gs);
    }
  }

  lemma ItemsNorm(fs: seq<Json>, gs: seq<Json>)
    requires Canonical.Norm(Arr(fs)) == Canonical.Norm(Arr(gs))
    ensures |fs| == |gs| && forall i | 0 <= i < |fs| :: Canonical.Norm(fs[i]) == Canonical.Norm(gs[i])
  {
    assert Canonical.NormItems(fs) == Canonical.NormItems(gs);
    forall i | 0 <= i < |fs| ensures Canonical.Norm(fs[i]) == Canonical.Norm(gs[i]) {
      assert Canonical.NormItems(fs)[i] == Canonical.NormItems(gs)[i];
    }
  }

  /** The path of a listed file holds no dict with two keys: the condition for paths to be tamper evident. */
  predicate PlainPath(file: Json) {
    file.Obj? && Get(file.members, "path").Some? ==> Unambiguous(Get(file.members, "path").value)
  }

  lemma SameFile(env: Env, f: Json, g: Json, c: seq<Byte>, d: seq<Byte>)
    requires WellFormed(f) && WellFormed(g) && Canonical.Norm(f) == Canonical.Norm(g)
    requires Describes(env, f, c) && Describes(env, g, d)
    ensures env.sha(c) == env.sha(d)
    ensures PlainPath(f) ==> PathOf(env, f) == PathOf(env, g)
  {
    var ms, ns := f.members, g.members;
    if Get(ms, "sha256").Some? && IsContainer(Get(ms, "sha256").value) {
      ContainerIsNoDigest(env, ms, "sha256");
      assert false;
    }
    EqualTexts(env, ms, ns, "sha256");
    HexInjective(env.sha(c), env.sha(d));
    if PlainPath(f) {
      EqualTexts(env, ms, ns, "path");
    }
  }

  /** The files of p and q agree at place i: same bytes, and same path when the path is a plain value. */
  ghost predicate SameAt(env: Env, p: Package, q: Package, f: Json, g: Json)
    requires Located(env, p, f) && Located(env, q, g)
  {
    EntryOf(env, p, f).content == EntryOf(env, q, g).content
    && (PlainPath(f) ==> PathOf(env, f) == PathOf(env, g))
  }

  /** End-to-end tamper evidence: two verified packages with one manifest digest hold the same bytes,
      file by file, or two byte strings share a SHA-256 digest. */
  lemma {:induction false} VerifiedPackagesAgree(env: Env, p: Package, q: Package, fs: seq<Json>, gs: seq<Json>)
    returns (x: seq<Byte>, y: seq<Byte>)
    requires ManifestOf(p).Ok? && ManifestOf(q).Ok?
    requires FilesOf(ManifestOf(p).value) == Some(fs) && FilesOf(ManifestOf(q).value) == Some(gs)
    requires IntegrityHolds(env, p, ManifestOf(p).value, fs) && IntegrityHolds(env, q, ManifestOf(q).value, gs)
    requires ManifestDigest(env, ManifestOf(p).value) == ManifestDigest(env, ManifestOf(q).value)
    ensures Collision(env.sha, x, y) ||
      (|fs| == |gs| && forall i | 0 <= i < |fs| ::
         Located(env, p, fs[i]) && Located(env, q, gs[i]) && SameAt(env, p, q, fs[i], gs[i]))
  {
    var ms, ns := ManifestOf(p).value, ManifestOf(q).value;
    ManifestWellFormed(p);
    ManifestWellFormed(q);
    IntegritySound(env, p, ms, fs);
    IntegritySound(env, q, ns, gs);
    hide ManifestOf, IntegrityHolds, Describes, Canonical.Norm, ManifestDigest, Located, EntryOf, PathOf, PlainPath;
    x, y := SameListing(env, ms, ns, fs, gs);
    if !Collision(env.sha, x, y) {
      FilesWellFormed(ms, fs);
      FilesWellFormed(ns, gs);
      forall i | 0 <= i < |fs|
        ensures env.sha(EntryOf(env, p, fs[i]).content) == env.sha(EntryOf(env, q, gs[i]).content)
        ensures PlainPath(fs[i]) ==> PathOf(env, fs[i]) == PathOf(env, gs[i])
      {
        SameFile(env, fs[i], gs[i], EntryOf(env, p, fs[i]).content, EntryOf(env, q, gs[i]).content);
      }
      if i :| 0 <= i < |fs| && EntryOf(env, p, fs[i]).content != EntryOf(env, q, gs[i]).content {
        x, y := EntryOf(env, p, fs[i]).content, EntryOf(env, q, gs[i]).content;
      }
    }
  }

  lemma FilesWellFormed(ms: seq<Member>, fs: seq<Json>)
    requires WellFormed(Obj(ms)) && FilesOf(ms) == Some(fs)
    ensures forall i | 0 <= i < |fs| :: WellFormed(fs[i])
  {
    var k :| 0 <= k < |ms| && ms[k] == Member("files", Arr(fs));
    assert WellFormed(ms[k].value);
  }

  /** With plain paths, equal digests mean the same bytes under every logical path. */
  lemma {:induction false} VerifiedPathsAgree(env: Env, p: Package, q: Package, fs: seq<Json>, gs: seq<Json>)
    returns (x: seq<Byte>, y: seq<Byte>)
    requires ManifestOf(p).Ok? && ManifestOf(q).Ok?
    requires FilesOf(ManifestOf(p).value) == Some(fs) && FilesOf(ManifestOf(q).value) == Some(gs)
    requires IntegrityHolds(env, p, ManifestOf(p).value, fs) && IntegrityHolds(env, q, ManifestOf(q).value, gs)
    requires ManifestDigest(env, ManifestOf(p).value) == ManifestDigest(env, ManifestOf(q).value)
    requires forall i | 0 <= i < |fs| :: PlainPath(fs[i])
    ensures Collision(env.sha, x, y) ||
      (|fs| == |gs| && forall j | 0 <= j < |gs| ::
         PathOf(env, fs[j]) == PathOf(env, gs[j]) && Located(env, p, fs[j]) && Located(env, q, gs[j])
         && EntryOf(env, p, fs[j]).content == EntryOf(env, q, gs[j]).content)
  {
    hide ManifestOf, IntegrityHolds, ManifestDigest, Located, EntryOf, PathOf, PlainPath, FilesOf;
    x, y := VerifiedPackagesAgree(env, p, q, fs, gs);
    if !Collision(env.sha, x, y) {
      forall j | 0 <= j < |gs|
        ensures Located(env, q, gs[j]) && Located(env, p, fs[j]) && PathOf(env, fs[j]) == PathOf(env, gs[j])
        ensures EntryOf(env, p, fs[j]).content == EntryOf(env, q, gs[j]).content
      {
        assert SameAt(env, p, q, fs[j], gs[j]);
      }
    }
  }
}
