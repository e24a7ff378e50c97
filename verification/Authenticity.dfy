/** Step 6: key material, the signature document and the Ed25519 verdict. */
module Authenticity {
  import opened Wrappers
  import opened Bytes
  import opened Json
  import opened PyText
  import opened Archive
  import opened Merkle
  import opened Manifest
  import opened Verifier
  import opened TamperEvidence
  import Canonical

  const SIGNING_DOMAIN := "DECODA-EVIDENCE-MANIFEST-V1"
  const SIGNATURE_FORMAT := "decoda-evidence-signature-v1"

  datatype Verdict = Authentic | Forged | Unavailable

  datatype KeySource = NoKeys | PinnedKey | Keyring | Bundled

  datatype KeyFile = NotGiven | NoSuchFile | File(content: seq<Byte>)

  datatype KeyOptions = KeyOptions(publicKey: string, publicKeyId: string, keyring: KeyFile, allowBundled: bool)

  /** Library calls: key and base64 decoding (None: they raise), and Ed25519 verification. */
  datatype Crypto = Crypto(
    decodeKey: string -> Option<seq<Byte>>,
    base64: string -> Option<seq<Byte>>,
    ed25519: (seq<Byte>, seq<Byte>, seq<Byte>) -> bool)

  /** signing_payload of a digest in normal form. */
  function SigningPayload(digest: string): seq<Byte>
    requires NormalizeDigest(digest).Some?
  {
    Utf8(SIGNING_DOMAIN) + [0] + Unhex(NormalizeDigest(digest).value)
  }

  // ---------- key material ----------

  /** The entries of a keyring document, after its schema check. */
  function KeyringEntries(doc: Json): Result<seq<Json>, Error> {
    var entries :=
      if doc.Obj? then
        match Get(doc.members, "schema_version")
        case None => Get(doc.members, "keys")
        case Some(Int(n)) => if n <= 1 then Get(doc.members, "keys") else None
        case Some(Bool(_)) => Get(doc.members, "keys")
        case _ => None
      else Some(doc);
    match entries
    case Some(Arr(items)) => Ok(items)
    case _ => Err(PackageError)
  }

  function KeyId(env: Env, e: Json): string {
    if e.Obj? then Strip(TextOf(env, e.members, "key_id")) else ""
  }

  function Material(env: Env, e: Json): string {
    if e.Obj? then TextOf(env, e.members, "public_key") else ""
  }

  /** {key_id: public key text}; one malformed or repeated entry refuses the keyring. */
  function KeyringKeys(env: Env, entries: seq<Json>): Result<map<string, string>, Error> {
    if entries == [] then Ok(map[])
    else
      var e := entries[|entries| - 1];
      var keys :- KeyringKeys(env, entries[..|entries| - 1]);
      if KeyId(env, e) == "" || Strip(Material(env, e)) == "" || KeyId(env, e) in keys then Err(PackageError)
      else Ok(keys[KeyId(env, e) := Material(env, e)])
  }

  /** Objects with a key id and key material, no id twice. */
  predicate KeyringSound(env: Env, entries: seq<Json>) {
    && (forall i | 0 <= i < |entries| :: KeyId(env, entries[i]) != "" && Strip(Material(env, entries[i])) != "")
    && forall i, j | 0 <= i < j < |entries| :: KeyId(env, entries[i]) != KeyId(env, entries[j])
  }

  /** One key for every entry, under its id, and no other. */
  ghost predicate OneKeyEach(env: Env, entries: seq<Json>, keys: map<string, string>) {
    && (forall i | 0 <= i < |entries| ::
          KeyId(env, entries[i]) in keys && keys[KeyId(env, entries[i])] == Material(env, entries[i]))
    && forall id | id in keys :: exists i :: 0 <= i < |entries| && KeyId(env, entries[i]) == id
  }

  lemma SoundStep(env: Env, front: seq<Json>, e: Json, keys: map<string, string>)
    requires OneKeyEach(env, front, keys)
    ensures KeyringSound(env, front + [e]) <==>
      KeyringSound(env, front) && KeyId(env, e) != "" && Strip(Material(env, e)) != "" && KeyId(env, e) !in keys
  {
    hide KeyId, Material, Strip;
    var all := front + [e];
    assert all[|front|] == e && forall i | 0 <= i < |front| :: all[i] == front[i];
  }

  lemma UnsoundStays(env: Env, front: seq<Json>, e: Json)
    ensures KeyringSound(env, front + [e]) ==> KeyringSound(env, front)
  {
    hide KeyId, Material, Strip;
    var all := front + [e];
    assert forall i | 0 <= i < |front| :: all[i] == front[i];
  }

  lemma OneKeyStep(env: Env, front: seq<Json>, e: Json, keys: map<string, string>)
    requires OneKeyEach(env, front, keys) && KeyId(env, e) !in keys
    ensures OneKeyEach(env, front + [e], keys[KeyId(env, e) := Material(env, e)])
  {
    hide KeyId, Material;
    var all := front + [e];
    assert all[|front|] == e && forall i | 0 <= i < |front| :: all[i] == front[i];
    forall id | id in keys ensures exists i :: 0 <= i < |all| && KeyId(env, all[i]) == id {
      var i :| 0 <= i < |front| && KeyId(env, front[i]) == id;
      assert KeyId(env, all[i]) == id;
    }
  }

  /** The loop accepts exactly the sound lists, and keeps one key for each entry. */
  lemma {:induction false} KeyringKeysIff(env: Env, entries: seq<Json>)
    ensures KeyringKeys(env, entries).Ok? <==> KeyringSound(env, entries)
    ensures KeyringKeys(env, entries).Ok? ==> OneKeyEach(env, entries, KeyringKeys(env, entries).value)
    ensures KeyringKeys(env, entries).Err? ==> KeyringKeys(env, entries).error == PackageError
  {
    if entries != [] {
      hide KeyId, Material, Strip, KeyringSound, OneKeyEach;
      var front, e := entries[..|entries| - 1], entries[|entries| - 1];
      assert front + [e] == entries;
      KeyringKeysIff(env, front);
      UnsoundStays(env, front, e);
      if KeyringKeys(env, front).Ok? {
        SoundStep(env, front, e, KeyringKeys(env, front).value);
        if KeyId(env, e) !in KeyringKeys(env, front).value {
          OneKeyStep(env, front, e, KeyringKeys(env, front).value);
        }
      }
    }
  }

  /** A keyring file that load_keyring reads. */
  predicate KeyringAccepted(env: Env, content: seq<Byte>) {
    |content| <= MAX_KEYRING_BYTES && ParseDocument(content).Ok? && KeyringEntries(ParseDocument(content).value).Ok?
    && KeyringSound(env, KeyringEntries(ParseDocument(content).value).value)
  }

  /** load_keyring on the bytes of an existing file. */
  method LoadKeyring(env: Env, content: seq<Byte>) returns (r: Result<map<string, string>, Error>)
    ensures r == KeyringOf(env, content)
    ensures r.Ok? <==> KeyringAccepted(env, content)
    ensures r.Ok? ==> OneKeyEach(env, KeyringEntries(ParseDocument(content).value).value, r.value)
  {
    hide KeyId, Material, ParseDocument, KeyringSound, OneKeyEach, Strip, KeyringEntries, KeyringKeys;
    if |content| > MAX_KEYRING_BYTES {
      return Err(PackageError);
    }
    var doc := ParseDocument(content);
    if doc.Err? {
      return Err(doc.error);
    }
    var listed := KeyringEntries(doc.value);
    if listed.Err? {
      return Err(listed.error);
    }
    var entries := listed.value;
    KeyringKeysIff(env, entries);
    var keys: map<string, string> := map[];
    KeyringStarts(env, entries);
    for i := 0 to |entries|
      invariant KeyringKeys(env, entries[..i]) == Ok(keys)
    {
      var id, material := KeyId(env, entries[i]), Material(env, entries[i]);
      KeyringStep(env, entries, i, keys);
      if id == "" || Strip(material) == "" || id in keys {
        KeyringStops(env, entries, i + 1);
        return Err(PackageError);
      }
      keys := keys[id := material];
    }
    assert entries[..|entries|] == entries;
    return Ok(keys);
  }

  lemma KeyringStarts(env: Env, entries: seq<Json>)
    ensures KeyringKeys(env, entries[..0]) == Ok(map[])
  {
  }

  /** What the loop does with one more entry. */
  lemma KeyringStep(env: Env, entries: seq<Json>, i: nat, keys: map<string, string>)
    requires i < |entries| && KeyringKeys(env, entries[..i]) == Ok(keys)
    ensures var id, material := KeyId(env, entries[i]), Material(env, entries[i]);
      KeyringKeys(env, entries[..i + 1])
      == if id == "" || Strip(material) == "" || id in keys then Err(PackageError) else Ok(keys[id := material])
  {
    hide KeyId, Material, Strip;
    assert entries[..i + 1][..i] == entries[..i];
  }

  lemma {:induction false} KeyringStops(env: Env, entries: seq<Json>, i: nat)
    requires i <= |entries| && KeyringKeys(env, entries[..i]).Err?
    ensures KeyringKeys(env, entries) == KeyringKeys(env, entries[..i])
    decreases |entries|
  {
    if i < |entries| {
      assert entries[..|entries| - 1][..i] == entries[..i];
      KeyringStops(env, entries[..|entries| - 1], i);
    } else {
      assert entries[..i] == entries;
    }
  }

  function KeyringOf(env: Env, content: seq<Byte>): Result<map<string, string>, Error> {
    if |content| > MAX_KEYRING_BYTES then Err(PackageError)
    else
      var doc :- ParseDocument(content);
      var entries :- KeyringEntries(doc);
      KeyringKeys(env, entries)
  }

  /** The dict comprehension over a bundled keyring: usable entries, the last of a name wins. */
  function BundledKeys(env: Env, entries: seq<Json>): map<string, string> {
    if entries == [] then map[]
    else
      var e := entries[|entries| - 1];
      var keys := BundledKeys(env, entries[..|entries| - 1]);
      if e.Obj? && TextOf(env, e.members, "key_id") != "" && TextOf(env, e.members, "public_key") != ""
      then keys[TextOf(env, e.members, "key_id") := TextOf(env, e.members, "public_key")]
      else keys
  }

  function BundledEntries(doc: Json): Result<seq<Json>, Error> {
    match if doc.Obj? then Get(doc.members, "keys") else None
    case Some(Arr(items)) => Ok(items)
    case Some(Int(n)) => if n == 0 then Ok([]) else Err(TypeError)
    case Some(Bool(b)) => if b then Err(TypeError) else Ok([])
    case _ => Ok([])
  }

  // ---------- documents inside the archive ----------

  /** A JSON document read from the archive with this much budget left. */
  function DocumentAt(p: Package, relative: string, limit: nat, budget: int): Result<Json, Error> {
    var name := EntryName(p.root, relative);
    if name !in p.infos then Err(KeyError)
    else if !Readable(p.infos[name], limit, budget) then Err(ReadError(p.infos[name], limit, budget))
    else ParseDocument(p.infos[name].content)
  }

  function SealName(p: Package): Option<string> {
    if EntryName(p.root, "seal.json") in p.infos then Some("seal.json")
    else if EntryName(p.root, "manifest.sig") in p.infos then Some("manifest.sig")
    else None
  }

  /** _read_seal */
  function SealOf(p: Package, budget: int): Result<Option<seq<Member>>, Error> {
    match SealName(p)
    case None => Ok(None)
    case Some(name) =>
      var doc :- DocumentAt(p, name, MAX_MANIFEST_BYTES, budget);
      if doc.Obj? then Ok(Some(doc.members)) else Err(PackageError)
  }

  function SealSize(p: Package): nat {
    match SealName(p)
    case None => 0
    case Some(name) => |p.infos[EntryName(p.root, name)].content|
  }

  const BUNDLED_KEYRING := "verification/decoda-evidence-keys.json"

  function PinnedId(options: KeyOptions): string {
    if options.publicKeyId == "" then "<--public-key>" else options.publicKeyId
  }

  /** _resolve_keys: external sources first, the bundled keyring only when allowed. */
  function KeysOf(env: Env, p: Package, options: KeyOptions, budget: int)
    : Result<(map<string, string>, KeySource), Error>
  {
    if options.publicKey != "" then Ok((map[PinnedId(options) := options.publicKey], PinnedKey))
    else if options.keyring.File? then
      var keys :- KeyringOf(env, options.keyring.content);
      Ok((keys, Keyring))
    else if options.keyring.NoSuchFile? then Err(PackageError)
    else if options.allowBundled && EntryName(p.root, BUNDLED_KEYRING) in p.infos then
      var doc :- DocumentAt(p, BUNDLED_KEYRING, MAX_KEYRING_BYTES, budget);
      var entries :- BundledEntries(doc);
      var keys := BundledKeys(env, entries);
      Ok(if keys == map[] then (map[], NoKeys) else (keys, Bundled))
    else Ok((map[], NoKeys))
  }

  /** The first object in the seal's list of signatures; a legacy HMAC seal has none. */
  function FirstSignature(items: seq<Json>): Option<seq<Member>> {
    if items == [] then None
    else if items[0].Obj? then Some(items[0].members)
    else FirstSignature(items[1..])
  }

  function SignatureOf(seal: seq<Member>): Option<seq<Member>> {
    match Get(seal, "signatures")
    case Some(Arr(items)) => FirstSignature(items)
    case _ => None
  }

  /** The signature document is of the one kind this verifier checks. */
  predicate Supported(env: Env, doc: seq<Member>) {
    && TextOf(env, doc, "signature_format") in {"", SIGNATURE_FORMAT}
    && TextOf(env, doc, "algorithm") == "Ed25519"
    && TextOf(env, doc, "signed_object") in {"", "manifest_sha256"}
  }

  /** The signature in doc verifies the manifest digest under this key material. */
  predicate SignatureHolds(env: Env, crypto: Crypto, doc: seq<Member>, material: string, digest: string) {
    && crypto.decodeKey(material).Some?
    && crypto.base64(Strip(TextOf(env, doc, "signature"))).Some?
    && NormalizeDigest(digest).Some?
    && crypto.ed25519(crypto.decodeKey(material).value, crypto.base64(Strip(TextOf(env, doc, "signature"))).value,
                      SigningPayload(digest))
  }

  // ---------- the verdict ----------

  datatype Authenticity = Authenticity(verdict: Verdict, source: KeySource)

  /** The verdict as a function of the package, the digest and the keys. */
  function AuthenticityOf(env: Env, crypto: Crypto, p: Package, digest: string, options: KeyOptions, budget: int)
    : Result<Authenticity, Error>
  {
    var seal :- SealOf(p, budget);
    if seal.None? || SignatureOf(seal.value).None? || !Supported(env, SignatureOf(seal.value).value)
    then Ok(Authenticity(Unavailable, NoKeys))
    else
      var doc := SignatureOf(seal.value).value;
      var (keys, source) :- KeysOf(env, p, options, budget - SealSize(p));
      var id := TextOf(env, doc, "key_id");
      if id !in keys then Ok(Authenticity(Unavailable, source))
      else if SignatureHolds(env, crypto, doc, keys[id], digest) then Ok(Authenticity(Authentic, source))
      else Ok(Authenticity(Forged, source))
  }

  /** archive.read of a JSON document. */
  method ReadDocument(env: Env, archive: Archive, relative: string, limit: nat) returns (r: Result<Json, Error>)
    requires archive.Valid()
    modifies archive
    ensures r == DocumentAt(Package(archive.infos, archive.root), relative, limit, old(archive.budget))
    ensures r.Ok? ==> archive.Valid()
    ensures r.Ok? ==>
      archive.budget == old(archive.budget) - |archive.infos[EntryName(archive.root, relative)].content|
  {
    var name := EntryName(archive.root, relative);
    var read := archive.Stream(env.sha, name, limit, true);
    if read.Err? {
      return Err(read.error);
    }
    r := ParseDocument(read.value.2.value);
  }

  /** _verify_authenticity */
  method VerifyAuthenticity(env: Env, crypto: Crypto, archive: Archive, digest: string, options: KeyOptions)
    returns (r: Result<Authenticity, Error>)
    requires archive.Valid()
    modifies archive
    ensures r == AuthenticityOf(env, crypto, Package(archive.infos, archive.root), digest, options, old(archive.budget))
  {
    hide ParseDocument, TextOf, NormalizeDigest, DocumentAt, Supported, SignatureHolds;
    ghost var p := Package(archive.infos, archive.root);
    var name := SealName(Package(archive.infos, archive.root));
    if name.None? {
      return Ok(Authenticity(Unavailable, NoKeys));
    }
    var sealed := ReadDocument(env, archive, name.value, MAX_MANIFEST_BYTES);
    if sealed.Err? || !sealed.value.Obj? {
      return Err(if sealed.Err? then sealed.error else PackageError);
    }
    var document := SignatureOf(sealed.value.members);
    if document.None? || !Supported(env, document.value) {
      return Ok(Authenticity(Unavailable, NoKeys));
    }
    var resolved := ResolveKeys(env, archive, options);
    if resolved.Err? {
      return Err(resolved.error);
    }
    var (keys, source) := resolved.value;
    var id := TextOf(env, document.value, "key_id");
    if id !in keys {
      return Ok(Authenticity(Unavailable, source));
    }
    var ok := SignatureHolds(env, crypto, document.value, keys[id], digest);
    return Ok(Authenticity(if ok then Authentic else Forged, source));
  }

  method ResolveKeys(env: Env, archive: Archive, options: KeyOptions)
    returns (r: Result<(map<string, string>, KeySource), Error>)
    requires archive.Valid()
    modifies archive
    ensures r == KeysOf(env, Package(archive.infos, archive.root), options, old(archive.budget))
  {
    hide DocumentAt, KeyringOf;
    if options.publicKey != "" {
      return Ok((map[PinnedId(options) := options.publicKey], PinnedKey));
    }
    if options.keyring.File? {
      var loaded := LoadKeyring(env, options.keyring.content);
      return if loaded.Ok? then Ok((loaded.value, Keyring)) else Err(loaded.error);
    }
    if options.keyring.NoSuchFile? {
      return Err(PackageError);
    }
    if options.allowBundled && EntryName(archive.root, BUNDLED_KEYRING) in archive.infos {
      var doc := ReadDocument(env, archive, BUNDLED_KEYRING, MAX_KEYRING_BYTES);
      if doc.Err? {
        return Err(doc.error);
      }
      var entries := BundledEntries(doc.value);
      if entries.Err? {
        return Err(entries.error);
      }
      var keys := BundledKeys(env, entries.value);
      if keys != map[] {
        return Ok((keys, Bundled));
      }
    }
    return Ok((map[], NoKeys));
  }

  // ---------- what the verdict means ----------

  /** A legacy seal without signature documents, or a run without keys, is never more than "unavailable". */
  lemma {:induction false} NothingToCheckIsUnavailable(env: Env, crypto: Crypto, p: Package, digest: string,
                                                       options: KeyOptions, budget: int)
    requires AuthenticityOf(env, crypto, p, digest, options, budget).Ok?
    requires (options.publicKey == "" && options.keyring.NotGiven? && !options.allowBundled)
      || (SealOf(p, budget).Ok? && SealOf(p, budget).value.Some? && SignatureOf(SealOf(p, budget).value.value).None?)
    ensures AuthenticityOf(env, crypto, p, digest, options, budget).value.verdict == Unavailable
  {
    hide Supported, SignatureHolds, SealOf, KeyringOf, DocumentAt, TextOf;
  }

  lemma LowerHexIsNormal(d: Digest)
    ensures NormalizeDigest(Hex(d)) == Some(Hex(d))
  {
    var h := Hex(d);
    assert !IsPySpace(h[0]) && !IsPySpace(h[63]);
    assert Strip(h) == h;
    assert Lower(h) == h;
    assert "sha256:"[1] == 'h' && IsLowerHex(h[1]);
  }

  /** The payload is 60 bytes and says exactly which digest was signed. */
  lemma {:induction false} PayloadBindsDigest(d: Digest, e: Digest)
    ensures NormalizeDigest(Hex(d)).Some? && NormalizeDigest(Hex(e)).Some?
    ensures |SigningPayload(Hex(d))| == |Utf8(SIGNING_DOMAIN)| + 33
    ensures SigningPayload(Hex(d)) == SigningPayload(Hex(e)) <==> d == e
  {
    LowerHexIsNormal(d);
    LowerHexIsNormal(e);
    UnhexHex(d);
    UnhexHex(e);
    var n := |Utf8(SIGNING_DOMAIN)| + 1;
    assert SigningPayload(Hex(d))[n..] == d && SigningPayload(Hex(e))[n..] == e;
  }

  /** One signed payload, one content: verified packages that carry the same signed payload hold the same files. */
  lemma {:induction false} SignedPayloadBindsFiles(env: Env, p: Package, q: Package, fs: seq<Json>, gs: seq<Json>)
    returns (x: seq<Byte>, y: seq<Byte>)
    requires ManifestOf(p).Ok? && ManifestOf(q).Ok?
    requires FilesOf(ManifestOf(p).value) == Some(fs) && FilesOf(ManifestOf(q).value) == Some(gs)
    requires IntegrityHolds(env, p, ManifestOf(p).value, fs) && IntegrityHolds(env, q, ManifestOf(q).value, gs)
    ensures var d, e := ManifestDigest(env, ManifestOf(p).value), ManifestDigest(env, ManifestOf(q).value);
      && NormalizeDigest(d).Some? && NormalizeDigest(e).Some?
      && (SigningPayload(d) == SigningPayload(e) ==>
            Collision(env.sha, x, y) ||
            (|fs| == |gs| && forall i | 0 <= i < |fs| ::
               Located(env, p, fs[i]) && Located(env, q, gs[i]) && SameAt(env, p, q, fs[i], gs[i])))
  {
    x, y := [], [];
    var d, e := ManifestDigest(env, ManifestOf(p).value), ManifestDigest(env, ManifestOf(q).value);
    ghost var hd := env.sha(Canonical.Encode(Obj(Body(ManifestOf(p).value))));
    ghost var he := env.sha(Canonical.Encode(Obj(Body(ManifestOf(q).value))));
    assert d == Hex(hd) && e == Hex(he);
    hide ManifestOf, ManifestDigest, IntegrityHolds, Located, EntryOf, NormalizeDigest, SigningPayload,
         Canonical.Encode;
    PayloadBindsDigest(hd, he);
    if SigningPayload(d) == SigningPayload(e) {
      x, y := VerifiedPackagesAgree(env, p, q, fs, gs);
    }
  }

  /** The authenticity verdict of a package, with the budget the integrity steps leave. */
  ghost function AuthenticityVerdict(env: Env, crypto: Crypto, p: Package, options: KeyOptions)
    : Result<Authenticity, Error>
    requires Reportable(env, p)
  {
    AuthenticityOf(env, crypto, p, ManifestDigest(env, ManifestOf(p).value), options, BudgetLeft(env, p))
  }
}
