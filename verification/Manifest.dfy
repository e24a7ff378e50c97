/** How the verifier reads a manifest: Python's str(), the listed files, and which archive entry each one means. */
module Manifest {
  import opened Wrappers
  import opened Bytes
  import opened Json
  import opened PyText
  import opened Archive
  import opened Merkle
  import Canonical

  const MERKLE_SCHEME := "decoda-merkle-v1"

  /** The library functions the verifier calls and this model leaves open. */
  datatype Env = Env(sha: Hash, reprStr: string -> string)

  /** What the archive holds: fixed once it is open. */
  datatype Package = Package(infos: map<string, ZipEntry>, root: string)

  // ---------- str(x or '') ----------

  predicate Falsy(v: Json) {
    v == Null || v == Bool(false) || v == Int(0) || v == Str("") || v == Arr([]) || v == Obj([])
  }

  function Repr(env: Env, v: Json): string
    decreases v, 0
  {
    match v
    case Null => "None"
    case Bool(b) => if b then "True" else "False"
    case Int(n) => if n < 0 then ['-'] + PutDigits(-n, "") else PutDigits(n, "")
    case Str(s) => env.reprStr(s)
    case Arr(items) => "[" + ReprItems(env, items) + "]"
    case Obj(ms) => "{" + ReprMembers(env, ms) + "}"
  }

  function ReprItems(env: Env, items: seq<Json>): string
    decreases items, 1
  {
    if items == [] then ""
    else Repr(env, items[0]) + (if |items| == 1 then "" else ", " + ReprItems(env, items[1..]))
  }

  function ReprMembers(env: Env, ms: seq<Member>): string
    decreases ms, 1
  {
    if ms == [] then ""
    else env.reprStr(ms[0].name) + ": " + Repr(env, ms[0].value)
         + (if |ms| == 1 then "" else ", " + ReprMembers(env, ms[1..]))
  }

  /** str(document.get(name) or '') */
  function TextOf(env: Env, ms: seq<Member>, name: string): string {
    match Get(ms, name)
    case None => ""
    case Some(v) => if Falsy(v) then "" else if v.Str? then v.s else Repr(env, v)
  }

  // ---------- the listed files ----------

  /** str(entry.get('path') or ''); "" for an entry that is no object. */
  function PathOf(env: Env, file: Json): string {
    if file.Obj? then TextOf(env, file.members, "path") else ""
  }

  function DigestOf(env: Env, file: Json): string {
    if file.Obj? then TextOf(env, file.members, "sha256") else ""
  }

  predicate ListedOk(env: Env, file: Json) {
    PathOf(env, file) != "" && SafeName(PathOf(env, file))
  }

  /** The listing itself is in order: objects with distinct, non-empty, safe paths. */
  predicate ListingOk(env: Env, files: seq<Json>) {
    && (forall i | 0 <= i < |files| :: ListedOk(env, files[i]))
    && forall i, j | 0 <= i < j < |files| :: PathOf(env, files[i]) != PathOf(env, files[j])
  }

  /** The prefix of artifact entries. */
  function Prefix(p: Package): string {
    EntryName(p.root, "artifacts/")
  }

  function Artifacts(p: Package): set<string> {
    set n | n in p.infos && Prefix(p) <= n
  }

  /** Archive entries that could be the file listed under path. */
  function Candidates(p: Package, path: string): set<string> {
    set n | n in Artifacts(p) && (n == Prefix(p) + path || EndsWith(n, "/" + path))
  }

  /** The declared size counts only when it is an integer and not a boolean. */
  predicate SizeAgrees(file: Json, size: nat) {
    file.Obj? && match Get(file.members, "size_bytes")
                 case Some(Int(n)) => n == size
                 case _ => true
  }

  /** The listed digest and size describe these bytes. */
  predicate Describes(env: Env, file: Json, content: seq<Byte>) {
    NormalizeDigest(DigestOf(env, file)) == Some(Hex(env.sha(content))) && SizeAgrees(file, |content|)
  }

  /** The only element of a set, for a set that has one. */
  ghost function TheOne(c: set<string>): (n: string)
    ensures |c| == 1 ==> c == {n}
  {
    if n :| n in c then
      assert |c| == 1 ==> c == {n} by { if |c| == 1 { SingletonIs(c, n); } }
      n
    else ""
  }

  /** The archive entry a listed file stands for: there is exactly one candidate. */
  ghost predicate Located(env: Env, p: Package, file: Json) {
    |Candidates(p, PathOf(env, file))| == 1
  }

  ghost function EntryOf(env: Env, p: Package, file: Json): (e: ZipEntry)
    requires Located(env, p, file)
    ensures TheOne(Candidates(p, PathOf(env, file))) in p.infos
  {
    assert TheOne(Candidates(p, PathOf(env, file))) in Candidates(p, PathOf(env, file));
    p.infos[TheOne(Candidates(p, PathOf(env, file)))]
  }

  datatype Outcome = Verified | Failed | Missing

  ghost function Judge(env: Env, p: Package, file: Json): Outcome {
    if Candidates(p, PathOf(env, file)) == {} then Missing
    else if Located(env, p, file) && Describes(env, file, EntryOf(env, p, file).content) then Verified
    else Failed
  }

  // ---------- the manifest ----------

  /** The manifest without its own digest. */
  function Body(ms: seq<Member>): (r: seq<Member>)
    ensures forall m :: m in r <==> m in ms && m.name != "manifest_sha256"
    ensures DistinctNames(ms) ==> DistinctNames(r)
  {
    if ms == [] then []
    else if ms[0].name == "manifest_sha256" then Body(ms[1..])
    else [ms[0]] + Body(ms[1..])
  }

  /** The digest the verifier recomputes and the signature covers. */
  function ManifestDigest(env: Env, ms: seq<Member>): string {
    Hex(env.sha(Canonical.Encode(Obj(Body(ms)))))
  }

  function DeclaredDigest(env: Env, ms: seq<Member>): string {
    Lower(Strip(TextOf(env, ms, "manifest_sha256")))
  }

  function MerkleEntries(env: Env, files: seq<Json>): (r: seq<Entry>)
    ensures |r| == |files|
  {
    seq(|files|, i requires 0 <= i < |files| => Entry(PathOf(env, files[i]), DigestOf(env, files[i])))
  }

  function DeclaredRoot(env: Env, ms: seq<Member>): string {
    Lower(Strip(TextOf(env, ms, "merkle_root")))
  }

  function Scheme(env: Env, ms: seq<Member>): string {
    Strip(TextOf(env, ms, "merkle_scheme"))
  }

  /** The root is recomputed: one is declared, and under no scheme or the known one. */
  predicate RootChecked(env: Env, ms: seq<Member>) {
    DeclaredRoot(env, ms) != "" && (Scheme(env, ms) == "" || Scheme(env, ms) == MERKLE_SCHEME)
  }

  /** _parse_json, with the errors it can raise. */
  function ParseDocument(payload: seq<Byte>): Result<Json, Error> {
    match FromUtf8(payload)
    case None => Err(PackageError)
    case Some(t) =>
      match Loads(t, Refuse)
      case Ok(v) => Ok(v)
      case Err(Float) => Err(Unmodelled)
      case Err(LoneSurrogate) => Err(Unmodelled)
      case Err(_) => Err(PackageError)
  }

  /** The manifest document of a package, as the verifier obtains it. */
  function ManifestOf(p: Package): Result<seq<Member>, Error> {
    var name := EntryName(p.root, "manifest.json");
    if name !in p.infos then Err(KeyError)
    else if !Readable(p.infos[name], MAX_MANIFEST_BYTES, MAX_TOTAL_UNCOMPRESSED) then
      Err(ReadError(p.infos[name], MAX_MANIFEST_BYTES, MAX_TOTAL_UNCOMPRESSED))
    else
      var v :- ParseDocument(p.infos[name].content);
      if v.Obj? then Ok(v.members) else Err(PackageError)
  }

  function ManifestSize(p: Package): nat {
    var name := EntryName(p.root, "manifest.json");
    if name in p.infos then |p.infos[name].content| else 0
  }

  /** Reading the member raises zlib.error: nothing refuses it first. */
  predicate Corrupt(e: ZipEntry, limit: nat, budget: int) {
    WithinLimits(e, limit, budget) && e.damage.Uncaught?
  }

  /** A checked root is the recomputed one. */
  predicate RootAgrees(env: Env, ms: seq<Member>, files: seq<Json>) {
    RootChecked(env, ms) ==> MerkleRoot(env.sha, MerkleEntries(env, files)) == Ok(Some(DeclaredRoot(env, ms)))
  }

  /** Artifact entries that no listed file could mean. */
  function Unlisted(env: Env, p: Package, files: seq<Json>): set<string> {
    set n | n in Artifacts(p) && !exists i :: 0 <= i < |files| && n in Candidates(p, PathOf(env, files[i]))
  }

  /** Integrity, stated on the package and not on counters. */
  ghost predicate IntegrityHolds(env: Env, p: Package, ms: seq<Member>, files: seq<Json>) {
    && DeclaredDigest(env, ms) == ManifestDigest(env, ms)
    && files != []
    && (forall i | 0 <= i < |files| :: Judge(env, p, files[i]) == Verified)
    && Unlisted(env, p, files) == {}
    && RootAgrees(env, ms, files)
  }
}
