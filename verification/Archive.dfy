/** The validated view of the ZIP and its budgeted reader. */
module Archive {
  import opened Wrappers
  import opened Bytes
  import opened PyText

  const MAX_ENTRIES := 10_000
  const MAX_TOTAL_UNCOMPRESSED := 512 * 1024 * 1024
  const MAX_MEMBER_UNCOMPRESSED := 128 * 1024 * 1024
  const MAX_MANIFEST_BYTES := 16 * 1024 * 1024
  const MAX_KEYRING_BYTES := 1024 * 1024
  const MAX_COMPRESSION_RATIO := 1_000
  const RATIO_FLOOR_BYTES := 64 * 1024
  const CHUNK := 262_144

  /** PackageError, the KeyError of a missing member, the TypeError of a keyring whose "keys" is a number,
      the zlib.error of a corrupt member, or a document outside the JSON model. */
  datatype Error = PackageError | KeyError | TypeError | ZlibError | Unmodelled

  /** How decompression ends: well, with an exception the reader turns into PackageError (BadZipFile, EOFError,
      OSError), or with zlib.error, which it lets through. */
  datatype Damage = Sound | Caught | Uncaught

  /** A member as the ZIP declares it, with the bytes decompression really yields before it ends. */
  datatype ZipEntry = ZipEntry(
    name: string, symlink: bool, fileSize: nat, compressSize: nat, content: seq<Byte>, damage: Damage)

  // ---------- names ----------

  function Parts(name: string): (r: seq<string>)
    ensures r != []
  {
    if name == "" then [""]
    else
      var rest := Parts(name[1..]);
      if name[0] == '/' then [""] + rest else [[name[0]] + rest[0]] + rest[1..]
  }

  /** _reject_unsafe_name does not raise. */
  predicate SafeName(name: string) {
    name == "" || name[|name| - 1] == '/' ||
    ('\\' !in name && name[0] != '/' && name[0] != '~'
     && (|name| > 1 ==> name[1] != ':')
     && (forall i | 0 <= i < |name| :: ' ' <= name[i] && name[i] as int != 0x7F)
     && (forall i | 0 <= i < |Parts(name)| :: Parts(name)[i] != "." && Parts(name)[i] != ".."))
  }

  predicate IsDirectory(name: string) {
    name != "" && name[|name| - 1] == '/'
  }

  /** The two declared-size checks shared by opening and reading. */
  predicate PlausibleSize(e: ZipEntry, limit: nat) {
    e.fileSize <= limit
    && !(e.compressSize > RATIO_FLOOR_BYTES && e.fileSize > e.compressSize * MAX_COMPRESSION_RATIO)
  }

  /** name.rsplit('/manifest.json', 1)[0] for the manifest names, when it is one path segment. */
  function RootOf(name: string): Option<string> {
    var root := if name == "manifest.json" then name
                else if EndsWith(name, "/manifest.json") then name[..|name| - 14]
                else "/";
    if '/' in root then None else Some(root)
  }

  // ---------- opening ----------

  predicate DistinctEntryNames(entries: seq<ZipEntry>) {
    forall i, j | 0 <= i < j < |entries| :: entries[i].name != entries[j].name
  }

  predicate AcceptableEntry(e: ZipEntry) {
    SafeName(e.name) && (IsDirectory(e.name) || (!e.symlink && PlausibleSize(e, MAX_MEMBER_UNCOMPRESSED)))
  }

  function DeclaredTotal(entries: seq<ZipEntry>): nat {
    if entries == [] then 0
    else
      var e := entries[|entries| - 1];
      DeclaredTotal(entries[..|entries| - 1]) + if IsDirectory(e.name) then 0 else e.fileSize
  }

  function Infos(entries: seq<ZipEntry>): map<string, ZipEntry> {
    if entries == [] then map[]
    else
      var e := entries[|entries| - 1];
      var m := Infos(entries[..|entries| - 1]);
      if IsDirectory(e.name) then m else m[e.name := e]
  }

  function Roots(infos: map<string, ZipEntry>): set<string> {
    set n | n in infos && RootOf(n).Some? :: RootOf(n).value
  }

  /** Everything _open_archive demands of the central directory. */
  predicate Acceptable(entries: seq<ZipEntry>) {
    |entries| <= MAX_ENTRIES
    && DistinctEntryNames(entries)
    && (forall i | 0 <= i < |entries| :: AcceptableEntry(entries[i]))
    && DeclaredTotal(entries) <= MAX_TOTAL_UNCOMPRESSED
    && |Roots(Infos(entries))| == 1
  }

  /** The member found by name is the one entry of the directory that carries the name. */
  lemma {:induction false} InfosHoldsEntries(entries: seq<ZipEntry>, name: string)
    requires DistinctEntryNames(entries)
    ensures name in Infos(entries) <==> exists i :: 0 <= i < |entries| && entries[i].name == name && !IsDirectory(name)
    ensures name in Infos(entries) ==> Infos(entries)[name] in entries && Infos(entries)[name].name == name
  {
    if entries != [] {
      var n := |entries| - 1;
      InfosHoldsEntries(entries[..n], name);
      if name in Infos(entries[..n]) {
        var i :| 0 <= i < n && entries[..n][i].name == name && !IsDirectory(name);
        assert entries[i].name == name;
      }
    }
  }

  /** What can be read of a member under a size limit and a remaining budget. */
  predicate Readable(e: ZipEntry, limit: nat, budget: int) {
    WithinLimits(e, limit, budget) && e.damage.Sound?
  }

  predicate WithinLimits(e: ZipEntry, limit: nat, budget: int) {
    PlausibleSize(e, limit) && |e.content| <= limit && |e.content| <= budget
  }

  /** What reading a member that is not readable raises. */
  function ReadError(e: ZipEntry, limit: nat, budget: int): Error {
    if WithinLimits(e, limit, budget) && e.damage.Uncaught? then ZlibError else PackageError
  }

  class Archive {
    const infos: map<string, ZipEntry>
    const root: string
    var budget: int
    /** All bytes handed out by successful reads. */
    ghost var served: nat

    /** Budget conservation. */
    ghost predicate Valid()
      reads this
    {
      budget + served == MAX_TOTAL_UNCOMPRESSED && budget >= 0
    }

    constructor (infos: map<string, ZipEntry>, root: string)
      ensures this.infos == infos && this.root == root
      ensures Valid() && budget == MAX_TOTAL_UNCOMPRESSED && served == 0
    {
      this.infos := infos;
      this.root := root;
      budget := MAX_TOTAL_UNCOMPRESSED;
      served := 0;
    }

    /** _Archive._stream: any chunking the decompressor chooses gives the same bytes, digest and budget. */
    method Stream(sha: Hash, name: string, limit: nat, collect: bool)
      returns (r: Result<(string, nat, Option<seq<Byte>>), Error>)
      requires Valid()
      modifies this
      ensures r.Ok? <==> name in infos && Readable(infos[name], limit, old(budget))
      ensures r == Err(KeyError) <==> name !in infos
      ensures r.Err? && name in infos ==> r.error == ReadError(infos[name], limit, old(budget))
      ensures r.Ok? ==> Valid() && served == old(served) + |infos[name].content|
      ensures r.Ok? ==> r.value.0 == Hex(sha(infos[name].content)) && r.value.1 == |infos[name].content|
      ensures r.Ok? ==> r.value.2 == if collect then Some(infos[name].content) else None
    {
      if name !in infos {
        return Err(KeyError);
      }
      var info := infos[name];
      if !PlausibleSize(info, limit) {
        return Err(PackageError);
      }
      var digested: seq<Byte> := [];
      var total := 0;
      var chunks: seq<Byte> := [];
      while total < |info.content|
        invariant 0 <= total <= |info.content| && total <= limit
        invariant digested == info.content[..total]
        invariant chunks == if collect then info.content[..total] else []
        invariant budget == old(budget) - total && budget >= 0
        invariant served == old(served)
      {
        // The decompressor may return any non-empty piece of at most CHUNK bytes.
        var size: nat :| 1 <= size <= CHUNK && total + size <= |info.content|;
        var chunk := info.content[total..total + size];
        total := total + |chunk|;
        if total > limit {
          return Err(PackageError);
        }
        budget := budget - |chunk|;
        if budget < 0 {
          return Err(PackageError);
        }
        digested := digested + chunk;
        if collect {
          chunks := chunks + chunk;
        }
      }
      if !info.damage.Sound? {
        return Err(if info.damage.Uncaught? then ZlibError else PackageError);
      }
      assert info.content[..total] == info.content;
      served := served + total;
      return Ok((Hex(sha(digested)), total, if collect then Some(chunks) else None));
    }
  }

  /** _open_archive, on the central directory of the ZIP. */
  method OpenArchive(entries: seq<ZipEntry>) returns (r: Result<Archive, Error>)
    ensures r.Ok? <==> Acceptable(entries)
    ensures r.Err? ==> r.error == PackageError
    ensures r.Ok? ==> fresh(r.value) && r.value.Valid() && r.value.budget == MAX_TOTAL_UNCOMPRESSED
    ensures r.Ok? ==> r.value.infos == Infos(entries)
    ensures r.Ok? ==> Roots(Infos(entries)) == {r.value.root} && '/' !in r.value.root
  {
    if |entries| > MAX_ENTRIES || !DistinctEntryNames(entries) {
      return Err(PackageError);
    }
    var infos: map<string, ZipEntry> := map[];
    var declaredTotal := 0;
    for i := 0 to |entries|
      invariant forall k | 0 <= k < i :: AcceptableEntry(entries[k])
      invariant infos == Infos(entries[..i]) && declaredTotal == DeclaredTotal(entries[..i])
    {
      var info := entries[i];
      assert entries[..i + 1][..i] == entries[..i];
      if !SafeName(info.name) {
        return Err(PackageError);
      }
      if IsDirectory(info.name) {
        continue;
      }
      if info.symlink || !PlausibleSize(info, MAX_MEMBER_UNCOMPRESSED) {
        return Err(PackageError);
      }
      declaredTotal := declaredTotal + info.fileSize;
      infos := infos[info.name := info];
    }
    assert entries[..|entries|] == entries;
    if declaredTotal > MAX_TOTAL_UNCOMPRESSED {
      return Err(PackageError);
    }
    var roots := Roots(infos);
    if |roots| != 1 {
      return Err(PackageError);
    }
    var root :| root in roots;
    SingletonIs(roots, root);
    var archive := new Archive(infos, root);
    return Ok(archive);
  }

  lemma SingletonIs<T>(s: set<T>, x: T)
    requires |s| == 1 && x in s
    ensures s == {x}
  {
    assert |s - {x}| == 0;
  }

  /** _entry */
  function EntryName(root: string, relative: string): string {
    if root != "" then root + "/" + relative else relative
  }
}
