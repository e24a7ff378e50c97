/** Two archives that verify under one manifest digest and list different paths. */
module PathTwins {
  import opened Wrappers
  import opened Bytes
  import opened Json
  import opened Archive
  import opened Merkle
  import opened Manifest
  import opened Verifier
  import opened TamperEvidence
  import opened Packaging
  import opened PathOrder
  import Canonical

  // ---------- an archive with one file ----------

  /** The manifest entry of the file: its path may be any JSON value. */
  function FileEntry(env: Env, v: Json, c: seq<Byte>): Json {
    Obj([Member("path", v), Member("sha256", Str(Hex(env.sha(c))))])
  }

  function Listing(env: Env, v: Json, c: seq<Byte>): seq<Member> {
    [Member("files", Arr([FileEntry(env, v, c)]))]
  }

  function ManifestMembers(env: Env, v: Json, c: seq<Byte>): seq<Member> {
    SealedMembers(env, Listing(env, v, c))
  }

  function ManifestBytes(env: Env, v: Json, c: seq<Byte>): seq<Byte> {
    Utf8(Put(Obj(ManifestMembers(env, v, c)), Compact, 0, ""))
  }

  /** The file is filed under the text of its path. */
  function DocOf(env: Env, v: Json, c: seq<Byte>): Doc {
    Doc(Repr(env, v), "evidence", c)
  }

  function Stored(name: string, content: seq<Byte>): ZipEntry {
    ZipEntry(name, false, |content|, |content|, content, Sound)
  }

  function In(folder: string, name: string): string {
    folder + ("/" + name)
  }

  function ManifestName(): string {
    In("pkg", "manifest.json")
  }

  function FileName(text: string): string {
    In("pkg", In("artifacts", In("evidence", text)))
  }

  function Zip(env: Env, v: Json, c: seq<Byte>): seq<ZipEntry> {
    [Stored(ManifestName(), ManifestBytes(env, v, c)), Stored(FileName(Repr(env, v)), c)]
  }

  function Opened(env: Env, v: Json, c: seq<Byte>): Package {
    Package(Infos(Zip(env, v, c)), "pkg")
  }

  /** A list or dict whose text can name a file, and contents within the limits. */
  predicate Filable(env: Env, v: Json, c: seq<Byte>) {
    && WellFormed(v) && IsContainer(v) && !Falsy(v)
    && '/' !in Repr(env, v) && SafeName(Repr(env, v))
    && |c| <= MAX_MEMBER_UNCOMPRESSED && |ManifestBytes(env, v, c)| <= MAX_MANIFEST_BYTES
  }

  /** The package gets a report, which lists the files and says verified. */
  ghost predicate Verifies(env: Env, p: Package, files: seq<Json>) {
    && Reportable(env, p) && FilesOf(ManifestOf(p).value) == Some(files)
    && IntegrityHolds(env, p, ManifestOf(p).value, files)
  }

  // ---------- it opens ----------

  lemma {:induction false} PartsSingle(s: string)
    requires '/' !in s
    ensures Parts(s) == [s]
  {
    if s != "" {
      PartsSingle(s[1..]);
      assert [s[0]] + s[1..] == s;
    }
  }

  lemma {:induction false} PartsJoin(folder: string, name: string)
    requires '/' !in folder
    ensures Parts(In(folder, name)) == [folder] + Parts(name)
  {
    var t := In(folder, name);
    if folder == "" {
      assert t[1..] == name;
    } else {
      PartsJoin(folder[1..], name);
      assert t[1..] == In(folder[1..], name) && t[0] == folder[0];
      assert [folder[0]] + folder[1..] == folder;
    }
  }

  predicate Printable(s: string) {
    forall c | c in s :: ' ' <= c && c as int != 0x7F && c != '\\'
  }

  /** Safe wherever it stands in a path. */
  predicate Inner(name: string) {
    && name != "" && name[|name| - 1] != '/' && Printable(name)
    && forall i | 0 <= i < |Parts(name)| :: Parts(name)[i] != "." && Parts(name)[i] != ".."
  }

  predicate FolderName(s: string) {
    '/' !in s && Printable(s) && s != "." && s != ".."
  }

  lemma InnerJoin(folder: string, name: string)
    requires FolderName(folder) && Inner(name)
    ensures Inner(In(folder, name))
    ensures var n := In(folder, name); n[|n| - 1] == name[|name| - 1]
  {
    PartsJoin(folder, name);
    hide Parts;
  }

  lemma FolderNames()
    ensures FolderName("pkg") && FolderName("artifacts") && FolderName("evidence") && FolderName("manifest.json")
  {
  }

  lemma UnderPkg(name: string)
    requires Inner(name)
    ensures SafeName(In("pkg", name)) && !IsDirectory(In("pkg", name))
    ensures name[|name| - 1] != 'n' ==> RootOf(In("pkg", name)) == None
  {
    FolderNames();
    InnerJoin("pkg", name);
    var n := In("pkg", name);
    assert n[0] == "pkg"[0] && n[1] == "pkg"[1];
    forall i | 0 <= i < |n| ensures ' ' <= n[i] && n[i] as int != 0x7F && n[i] != '\\' {
      assert n[i] in n;
    }
    assert "/manifest.json"[13] == 'n' && "manifest.json"[12] == 'n';
  }

  lemma ContainerText(env: Env, v: Json)
    requires IsContainer(v)
    ensures var t := Repr(env, v); t != "" && (t[|t| - 1] == ']' || t[|t| - 1] == '}')
  {
  }

  lemma FileNameSafe(env: Env, v: Json, c: seq<Byte>)
    requires Filable(env, v, c)
    ensures SafeName(FileName(Repr(env, v))) && !IsDirectory(FileName(Repr(env, v)))
    ensures RootOf(FileName(Repr(env, v))) == None
  {
    var t := Repr(env, v);
    ContainerText(env, v);
    PartsSingle(t);
    FolderNames();
    assert Inner(t) by { hide Repr; }
    hide Inner, FolderName, In, SafeName, Filable;
    InnerJoin("evidence", t);
    InnerJoin("artifacts", In("evidence", t));
    UnderPkg(In("artifacts", In("evidence", t)));
  }

  lemma ManifestNameSafe()
    ensures SafeName(ManifestName()) && !IsDirectory(ManifestName()) && RootOf(ManifestName()) == Some("pkg")
  {
    FolderNames();
    PartsSingle("manifest.json");
    UnderPkg("manifest.json");
    ManifestRoot();
  }

  lemma ManifestRoot()
    ensures RootOf(ManifestName()) == Some("pkg")
  {
    var tail, n := "/manifest.json", ManifestName();
    assert "/" + "manifest.json" == tail;
    assert n[3..] == tail && n[..3] == "pkg" && n[0] == 'p';
  }

  lemma InfosOfTwo(a: ZipEntry, b: ZipEntry)
    requires !IsDirectory(a.name) && !IsDirectory(b.name) && a.name != b.name
    ensures Infos([a, b]) == map[a.name := a, b.name := b]
    ensures DeclaredTotal([a, b]) == a.fileSize + b.fileSize
  {
    assert [a, b][..1] == [a] && [a][..0] == [];
    assert Infos([a]) == map[a.name := a] && DeclaredTotal([a]) == a.fileSize;
  }

  lemma TwoMembersOpen(a: ZipEntry, b: ZipEntry, root: string)
    requires AcceptableEntry(a) && AcceptableEntry(b) && !IsDirectory(a.name) && !IsDirectory(b.name)
    requires RootOf(a.name) == Some(root) && RootOf(b.name) == None && a.fileSize + b.fileSize <= MAX_TOTAL_UNCOMPRESSED
    ensures Acceptable([a, b]) && Roots(Infos([a, b])) == {root}
    ensures Infos([a, b]) == map[a.name := a, b.name := b]
  {
    hide AcceptableEntry, IsDirectory, RootOf;
    InfosOfTwo(a, b);
    hide Infos, DeclaredTotal;
    var infos := Infos([a, b]);
    assert Roots(infos) == {root} by {
      assert a.name in infos && b.name in infos && forall n | n in infos :: n == a.name || n == b.name;
    }
    assert |{root}| == 1;
  }

  /** The archive opens, and holds its two members. */
  lemma ZipOpens(env: Env, v: Json, c: seq<Byte>)
    requires Filable(env, v, c)
    ensures Acceptable(Zip(env, v, c)) && Roots(Infos(Zip(env, v, c))) == {"pkg"}
    ensures Opened(env, v, c).infos == map[ManifestName() := Stored(ManifestName(), ManifestBytes(env, v, c)),
                                           FileName(Repr(env, v)) := Stored(FileName(Repr(env, v)), c)]
  {
    FileNameSafe(env, v, c);
    ManifestNameSafe();
    hide ManifestBytes, Repr, FileName, ManifestName, SafeName, RootOf, IsDirectory, WellFormed, Falsy, Infos,
         Acceptable;
    TwoMembersOpen(Zip(env, v, c)[0], Zip(env, v, c)[1], "pkg");
  }

  // ---------- it verifies ----------

  lemma EntryFields(env: Env, v: Json, c: seq<Byte>)
    ensures var f := FileEntry(env, v, c);
      && f.Obj? && Get(f.members, "path") == Some(v) && Get(f.members, "sha256") == Some(Str(Hex(env.sha(c))))
      && Get(f.members, "size_bytes") == None
  {
    hide Hex;
    var f := FileEntry(env, v, c);
    assert f.members[1..] == [Member("sha256", Str(Hex(env.sha(c))))];
  }

  lemma EntryMeans(env: Env, v: Json, c: seq<Byte>)
    requires Filable(env, v, c)
    ensures MeansAll(env, [FileEntry(env, v, c)], [DocOf(env, v, c)])
  {
    hide Repr, NormalizeDigest, Hex, ManifestBytes, SafeName, WellFormed, Get, FileEntry;
    HexPlain(env.sha(c));
    EntryFields(env, v, c);
    var f, d := FileEntry(env, v, c), DocOf(env, v, c);
    assert PathOf(env, f) == d.path;
    assert Means(env, f, d);
  }

  lemma ListingSealed(env: Env, v: Json, c: seq<Byte>)
    ensures Sealed(env, ManifestMembers(env, v, c), [FileEntry(env, v, c)])
    ensures ManifestDigest(env, ManifestMembers(env, v, c)) == BodyDigest(env, Listing(env, v, c))
  {
    var body := Listing(env, v, c);
    assert Get(body, "files") == Some(Arr([FileEntry(env, v, c)])) && Get(body, "merkle_root") == None;
    hide FileEntry, ManifestDigest, Sealed, BodyDigest;
    SealingSeals(env, body, [FileEntry(env, v, c)]);
    SealedDigest(env, body);
  }

  lemma ListingWellFormed(env: Env, v: Json, c: seq<Byte>)
    requires WellFormed(v)
    ensures WellFormed(Obj(Listing(env, v, c))) && WellFormed(Obj(ManifestMembers(env, v, c)))
  {
    assert WellFormed(FileEntry(env, v, c));
    assert WellFormed(Arr([FileEntry(env, v, c)]));
    SealedWellFormed(env, Listing(env, v, c));
  }

  lemma Names(p: Package, d: Doc)
    requires p.root == "pkg" && d.folder == "evidence"
    ensures FiledAs(p, d) == FileName(d.path)
    ensures EntryName(p.root, "manifest.json") == ManifestName()
    ensures Prefix(p) <= FileName(d.path) && !(Prefix(p) <= ManifestName())
  {
    assert Prefix(p) == "pkg" + ("/" + ("artifacts" + "/")) == "pkg/artifacts/";
    assert FiledAs(p, d) == FileName(d.path);
    assert FiledAs(p, d)[..|Prefix(p)|] == Prefix(p);
    var n := ManifestName();
    assert n == "pkg" + "/" + "manifest.json";
    assert n[4] == "manifest.json"[0] && Prefix(p)[4] == 'a';
  }

  lemma OneFile(p: Package, d: Doc, m: ZipEntry, e: ZipEntry)
    requires p == Package(map[ManifestName() := m, FileName(d.path) := e], "pkg")
    requires d.folder == "evidence" && d.path != "" && SafeName(d.path) && e.content == d.content
    requires Readable(m, MAX_MANIFEST_BYTES, MAX_TOTAL_UNCOMPRESSED)
    requires Readable(e, MAX_MEMBER_UNCOMPRESSED, MAX_TOTAL_UNCOMPRESSED)
    ensures Files(p, [d]) && Proper([d]) && NoneCovers([d]) && Fits(p, [d])
  {
    Names(p, d);
    hide FileName, ManifestName, FiledAs, Prefix, SafeName, EntryName;
    assert Artifacts(p) == {FileName(d.path)};
    assert [d][..0] == [];
    assert Total([d]) == |d.content|;
    assert '/' !in "evidence";
  }

  lemma OneFileHolds(env: Env, v: Json, c: seq<Byte>)
    requires Filable(env, v, c)
    ensures var p, docs := Opened(env, v, c), [DocOf(env, v, c)];
      Files(p, docs) && Proper(docs) && NoneCovers(docs) && Fits(p, docs)
  {
    hide FileName, ManifestName, Repr, Infos, SafeName, Files, Proper, NoneCovers, Fits, ManifestBytes;
    ZipOpens(env, v, c);
    ContainerText(env, v);
    var m, e := Stored(ManifestName(), ManifestBytes(env, v, c)), Stored(FileName(Repr(env, v)), c);
    OneFile(Opened(env, v, c), DocOf(env, v, c), m, e);
  }

  lemma OneFileRead(env: Env, v: Json, c: seq<Byte>)
    requires Filable(env, v, c)
    ensures ManifestOf(Opened(env, v, c)) == Ok(ManifestMembers(env, v, c))
  {
    hide FileName, ManifestName, Repr, Infos, ManifestMembers, ManifestOf, SafeName, WellFormed, Put, Utf8, EntryName,
         RootOf, IsDirectory, Acceptable, Roots, Zip, IsContainer, Falsy;
    ZipOpens(env, v, c);
    Names(Opened(env, v, c), DocOf(env, v, c));
    ListingWellFormed(env, v, c);
    FileNameSafe(env, v, c);
    ManifestNameSafe();
    ManifestReadsBack(Opened(env, v, c), ManifestMembers(env, v, c), Compact);
  }

  /** The archive opens and comes back verified, and lists the text of the value as the path. */
  lemma {:induction false} OneFileVerifies(env: Env, v: Json, c: seq<Byte>)
    requires Filable(env, v, c)
    ensures Acceptable(Zip(env, v, c)) && Roots(Infos(Zip(env, v, c))) == {"pkg"}
    ensures Verifies(env, Opened(env, v, c), [FileEntry(env, v, c)])
    ensures ManifestOf(Opened(env, v, c)) == Ok(ManifestMembers(env, v, c))
    ensures PathOf(env, FileEntry(env, v, c)) == Repr(env, v)
  {
    ZipOpens(env, v, c);
    EntryMeans(env, v, c);
    ListingSealed(env, v, c);
    OneFileHolds(env, v, c);
    OneFileRead(env, v, c);
    hide Acceptable, Roots, Infos, Zip, Sealed, Files, Proper, NoneCovers, Fits, ManifestOf, ManifestMembers, Filable,
         IntegrityHolds, Reportable, Repr, PathOf, FileEntry, FilesOf, Describes, Opened;
    SealedPackageReports(env, Opened(env, v, c), ManifestMembers(env, v, c), [FileEntry(env, v, c)],
                         [DocOf(env, v, c)]);
  }

  // ---------- the pair ----------

  lemma TwinEntries(env: Env, v: Json, w: Json, c: seq<Byte>)
    requires Canonical.Norm(v) == Canonical.Norm(w)
    ensures Canonical.Norm(FileEntry(env, v, c)) == Canonical.Norm(FileEntry(env, w, c))
    ensures Canonical.Encode(FileEntry(env, v, c)) == Canonical.Encode(FileEntry(env, w, c))
  {
    var ms := FileEntry(env, v, c).members;
    assert FileEntry(env, w, c).members == ms[0 := Member("path", w)];
    RenamedNorm(ms, 0, w);
  }

  lemma TwinListings(env: Env, v: Json, w: Json, c: seq<Byte>)
    requires Canonical.Norm(v) == Canonical.Norm(w)
    ensures BodyDigest(env, Listing(env, v, c)) == BodyDigest(env, Listing(env, w, c))
  {
    hide FileEntry;
    var f, g, ms := FileEntry(env, v, c), FileEntry(env, w, c), Listing(env, v, c);
    TwinEntries(env, v, w, c);
    Canonical.ArraysNormEqual([f], [g]);
    assert Listing(env, w, c) == ms[0 := Member("files", Arr([g]))];
    RenamedNorm(ms, 0, Arr([g]));
  }

  /** Two values that differ in key order alone: one file each, filed under its own text. Both archives open and
      come back verified under one manifest digest. */
  lemma {:induction false} TwinPackages(env: Env, v: Json, w: Json, c: seq<Byte>)
    requires Filable(env, v, c) && Filable(env, w, c) && Canonical.Norm(v) == Canonical.Norm(w)
    ensures Acceptable(Zip(env, v, c)) && Acceptable(Zip(env, w, c))
    ensures Verifies(env, Opened(env, v, c), [FileEntry(env, v, c)])
    ensures Verifies(env, Opened(env, w, c), [FileEntry(env, w, c)])
    ensures ManifestDigest(env, ManifestOf(Opened(env, v, c)).value)
         == ManifestDigest(env, ManifestOf(Opened(env, w, c)).value)
    ensures PathOf(env, FileEntry(env, v, c)) == Repr(env, v) && PathOf(env, FileEntry(env, w, c)) == Repr(env, w)
  {
    OneFileVerifies(env, v, c);
    OneFileVerifies(env, w, c);
    ListingSealed(env, v, c);
    ListingSealed(env, w, c);
    hide *;
    TwinListings(env, v, w, c);
  }

  /** Every ambiguous path gives such a pair, as long as both of its texts can name a file. */
  lemma {:induction false} AmbiguousPathsDiffer(env: Env, v: Json, c: seq<Byte>)
    requires TextsApart(env) && !Unambiguous(v) && Filable(env, v, c) && Filable(env, Twin(v), c)
    ensures var p, q, f, g := Opened(env, v, c), Opened(env, Twin(v), c), FileEntry(env, v, c),
                              FileEntry(env, Twin(v), c);
      && Verifies(env, p, [f]) && Verifies(env, q, [g])
      && ManifestDigest(env, ManifestOf(p).value) == ManifestDigest(env, ManifestOf(q).value)
      && PathOf(env, f) != PathOf(env, g)
  {
    assert WellFormed(v);
    hide *;
    TwinNorm(v);
    TwinApart(env, v);
    TwinPackages(env, v, Twin(v), c);
  }

  // ---------- the size of a manifest ----------

  /** A bound on the length of the compact text. */
  function Size(v: Json): nat
    decreases v, 0
  {
    match v
    case Int(n) => (if n < 0 then -n else n) + 2
    case Str(s) => 12 * |s| + 2
    case Arr(items) => SizeItems(items) + 2
    case Obj(ms) => SizeMembers(ms) + 2
    case _ => 5
  }

  function SizeItems(items: seq<Json>): nat
    decreases items, 1
  {
    if items == [] then 0 else Size(items[0]) + 1 + SizeItems(items[1..])
  }

  function SizeMembers(ms: seq<Member>): nat
    decreases ms, 1
  {
    if ms == [] then 0 else 12 * |ms[0].name| + Size(ms[0].value) + 4 + SizeMembers(ms[1..])
  }

  lemma {:induction false} DigitsSize(n: nat, k: string)
    ensures |PutDigits(n, k)| <= n + 1 + |k|
  {
    if n >= 10 {
      DigitsSize(n / 10, [('0' as int + n % 10) as char] + k);
    }
  }

  lemma {:induction false} StringSize(s: string, k: string)
    ensures |PutChars(s, k)| <= 12 * |s| + 1 + |k|
  {
    if s != "" {
      StringSize(s[1..], k);
      assert |PutChar(s[0], PutChars(s[1..], k))| <= 12 + |PutChars(s[1..], k)|;
    }
  }

  lemma {:induction false} PutSize(v: Json, depth: nat, k: string)
    ensures |Put(v, Compact, depth, k)| <= Size(v) + |k|
    decreases v, 0
  {
    match v
    case Int(n) => DigitsSize(if n < 0 then -n else n, k);
    case Str(s) => StringSize(s, k);
    case Arr(items) => if items != [] { PutItemsSize(items, depth + 1, NewLine(Compact, depth) + ([']'] + k)); }
    case Obj(ms) => if ms != [] { PutMembersSize(ms, depth + 1, NewLine(Compact, depth) + (['}'] + k)); }
    case _ =>
  }

  lemma {:induction false} PutItemsSize(items: seq<Json>, depth: nat, k: string)
    requires items != []
    ensures |PutItems(items, Compact, depth, k)| <= SizeItems(items) + |k|
    decreases items, 1
  {
    if |items| == 1 {
      PutSize(items[0], depth, k);
    } else {
      PutItemsSize(items[1..], depth, k);
      PutSize(items[0], depth, [','] + (NewLine(Compact, depth) + PutItems(items[1..], Compact, depth, k)));
    }
  }

  lemma {:induction false} PutMembersSize(ms: seq<Member>, depth: nat, k: string)
    requires ms != []
    ensures |PutMembers(ms, Compact, depth, k)| <= SizeMembers(ms) + |k|
    decreases ms, 1
  {
    var rest := k;
    if |ms| > 1 {
      PutMembersSize(ms[1..], depth, k);
      rest := [','] + (NewLine(Compact, depth) + PutMembers(ms[1..], Compact, depth, k));
    }
    PutSize(ms[0].value, depth, rest);
    StringSize(ms[0].name, [':'] + (AfterColon(Compact) + Put(ms[0].value, Compact, depth, rest)));
  }

  lemma {:induction false} Utf8Size(s: string)
    ensures |Utf8(s)| <= 4 * |s|
  {
    if s != "" {
      Utf8Size(s[1..]);
    }
  }

  lemma TwoMembersSize(a: Member, b: Member)
    ensures Size(Obj([a, b])) == 12 * |a.name| + Size(a.value) + 12 * |b.name| + Size(b.value) + 10
  {
    assert [a, b][1..] == [b] && [b][1..] == [];
    assert SizeMembers([b]) == 12 * |b.name| + Size(b.value) + 4;
  }

  lemma OneItemSize(v: Json)
    ensures Size(Arr([v])) == Size(v) + 3
  {
    assert [v][1..] == [];
    assert SizeItems([v]) == Size(v) + 1;
  }

  lemma ManifestSizeBound(env: Env, v: Json, c: seq<Byte>)
    ensures |ManifestBytes(env, v, c)| <= 4 * Size(v) + 16_000
  {
    var body, ms, f := Listing(env, v, c), ManifestMembers(env, v, c), FileEntry(env, v, c);
    var digest := Str(BodyDigest(env, body));
    hide Canonical.Encode, Hex;
    assert ms == [Member("files", Arr([f])), Member("manifest_sha256", digest)];
    TwoMembersSize(ms[0], ms[1]);
    OneItemSize(f);
    TwoMembersSize(f.members[0], f.members[1]);
    hide Size, SizeItems, SizeMembers;
    PutSize(Obj(ms), 0, "");
    Utf8Size(Put(Obj(ms), Compact, 0, ""));
  }

  // ---------- one pair ----------

  function TwoKeys(): Json {
    Obj([Member("a", Int(1)), Member("b", Int(2))])
  }

  function TwoKeysText(): string {
    "{'a': 1, 'b': 2}"
  }

  function KeysSwapped(): Json {
    Obj([Member("b", Int(2)), Member("a", Int(1))])
  }

  function KeysSwappedText(): string {
    "{'b': 2, 'a': 1}"
  }

  lemma PairText(env: Env, a: string, x: nat, b: string, y: nat)
    ensures Repr(env, Obj([Member(a, Int(x)), Member(b, Int(y))]))
         == "{" + (env.reprStr(a) + ": " + PutDigits(x, "") + (", " + (env.reprStr(b) + ": " + PutDigits(y, "")))) + "}"
  {
    var ms := [Member(a, Int(x)), Member(b, Int(y))];
    assert ms[1..] == [ms[1]] && [ms[1]][1..] == [];
    assert Repr(env, ms[0].value) == PutDigits(x, "") && Repr(env, ms[1].value) == PutDigits(y, "");
    assert ReprMembers(env, [ms[1]]) == env.reprStr(b) + ": " + PutDigits(y, "");
    assert ReprMembers(env, ms) == env.reprStr(a) + ": " + PutDigits(x, "") + (", " + ReprMembers(env, [ms[1]]));
  }

  lemma TwoKeysJoined()
    ensures "{" + ("'a'" + ": " + "1" + (", " + ("'b'" + ": " + "2"))) + "}" == TwoKeysText()
  {
  }

  lemma KeysSwappedJoined()
    ensures "{" + ("'b'" + ": " + "2" + (", " + ("'a'" + ": " + "1"))) + "}" == KeysSwappedText()
  {
  }

  lemma PairTexts(env: Env)
    requires env.reprStr("a") == "'a'" && env.reprStr("b") == "'b'"
    ensures Repr(env, TwoKeys()) == TwoKeysText() && Repr(env, KeysSwapped()) == KeysSwappedText()
  {
    hide Repr, TwoKeysText, KeysSwappedText;
    assert PutDigits(1, "") == "1" && PutDigits(2, "") == "2";
    hide PutDigits;
    PairText(env, "a", 1, "b", 2);
    PairText(env, "b", 2, "a", 1);
    TwoKeysJoined();
    KeysSwappedJoined();
  }

  lemma TextSafe(t: string)
    requires Printable(t) && '/' !in t && |t| > 2 && t[0] == '{' && t[1] == '\''
    ensures SafeName(t)
  {
    PartsSingle(t);
    forall i | 0 <= i < |t| ensures ' ' <= t[i] && t[i] as int != 0x7F && t[i] != '\\' {
      assert t[i] in t;
    }
  }

  lemma PairSafe()
    ensures '/' !in TwoKeysText() && SafeName(TwoKeysText())
    ensures '/' !in KeysSwappedText() && SafeName(KeysSwappedText())
  {
    TextSafe(TwoKeysText());
    TextSafe(KeysSwappedText());
  }

  lemma PairFilable(env: Env, c: seq<Byte>)
    requires env.reprStr("a") == "'a'" && env.reprStr("b") == "'b'" && |c| <= MAX_MEMBER_UNCOMPRESSED
    ensures Filable(env, TwoKeys(), c) && Filable(env, KeysSwapped(), c)
  {
    hide Repr, SafeName, ManifestBytes, TwoKeysText, KeysSwappedText;
    PairTexts(env);
    PairSafe();
    TwoMembersSize(Member("a", Int(1)), Member("b", Int(2)));
    TwoMembersSize(Member("b", Int(2)), Member("a", Int(1)));
    hide SizeMembers;
    ManifestSizeBound(env, TwoKeys(), c);
    ManifestSizeBound(env, KeysSwapped(), c);
  }

  /** Any contents: two archives that open, come back verified, have one manifest digest and list different paths. */
  lemma {:induction false} VerifiedPathsCanDiffer(env: Env, c: seq<Byte>)
    requires env.reprStr("a") == "'a'" && env.reprStr("b") == "'b'" && |c| <= MAX_MEMBER_UNCOMPRESSED
    ensures var p, q := Opened(env, TwoKeys(), c), Opened(env, KeysSwapped(), c);
      var f, g := FileEntry(env, TwoKeys(), c), FileEntry(env, KeysSwapped(), c);
      && Acceptable(Zip(env, TwoKeys(), c)) && Acceptable(Zip(env, KeysSwapped(), c))
      && Verifies(env, p, [f]) && Verifies(env, q, [g])
      && ManifestDigest(env, ManifestOf(p).value) == ManifestDigest(env, ManifestOf(q).value)
      && Canonical.Encode(f) == Canonical.Encode(g)
      && PathOf(env, f) == "{'a': 1, 'b': 2}" && PathOf(env, g) == "{'b': 2, 'a': 1}"
  {
    PairTexts(env);
    PairFilable(env, c);
    SwapNorm(TwoKeys().members);
    assert Swapped(TwoKeys().members) == KeysSwapped().members;
    hide Opened, Zip, FileEntry, Verifies, ManifestDigest, ManifestOf, PathOf, Acceptable, Filable;
    TwinEntries(env, TwoKeys(), KeysSwapped(), c);
    TwinPackages(env, TwoKeys(), KeysSwapped(), c);
  }
}
