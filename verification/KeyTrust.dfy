/** What an authenticity verdict rests on: whose key, which document, and when a verdict is given at all. */
module KeyTrust {
  import opened Wrappers
  import opened Bytes
  import opened Json
  import opened Archive
  import opened Manifest
  import opened Authenticity

  // ---------- the keys a caller trusts ----------

  /** The keyring file holds this material under this id. */
  ghost predicate InKeyring(env: Env, content: seq<Byte>, id: string, material: string) {
    KeyringAccepted(env, content) &&
    var entries := KeyringEntries(ParseDocument(content).value).value;
    exists i :: 0 <= i < |entries| && KeyId(env, entries[i]) == id && Material(env, entries[i]) == material
  }

  /** An entry of a bundled keyring that can be used under this id. */
  predicate Usable(env: Env, e: Json, id: string) {
    id != "" && e.Obj? && TextOf(env, e.members, "key_id") == id && TextOf(env, e.members, "public_key") != ""
  }

  /** The last usable entry of this id is this one. */
  predicate LastUsable(env: Env, entries: seq<Json>, i: nat, id: string) {
    i < |entries| && Usable(env, entries[i], id) && forall j | i < j < |entries| :: !Usable(env, entries[j], id)
  }

  /** The keyring inside the package can be read with this budget. */
  predicate BundledReadable(p: Package, budget: int) {
    DocumentReadable(p, BUNDLED_KEYRING, MAX_KEYRING_BYTES, budget) &&
    BundledEntries(DocumentIn(p, BUNDLED_KEYRING)).Ok?
  }

  /** The keyring inside the package holds this material under this id. */
  ghost predicate InBundle(env: Env, p: Package, budget: int, id: string, material: string) {
    BundledReadable(p, budget) &&
    var entries := BundledEntries(DocumentIn(p, BUNDLED_KEYRING)).value;
    exists i: nat :: LastUsable(env, entries, i, id) && Material(env, entries[i]) == material
  }

  /** The caller trusts this material under this id: the pinned key, else the given keyring, else, only when opted in,
      the keyring inside the package. */
  ghost predicate Trusted(env: Env, p: Package, options: KeyOptions, budget: int, id: string, material: string) {
    if options.publicKey != "" then id == PinnedId(options) && material == options.publicKey
    else
      match options.keyring
      case File(content) => InKeyring(env, content, id, material)
      case NoSuchFile => false
      case NotGiven => options.allowBundled && InBundle(env, p, budget, id, material)
  }

  // ---------- documents inside the archive ----------

  predicate DocumentReadable(p: Package, relative: string, limit: nat, budget: int) {
    var name := EntryName(p.root, relative);
    name in p.infos && Readable(p.infos[name], limit, budget) && ParseDocument(p.infos[name].content).Ok?
  }

  function DocumentIn(p: Package, relative: string): Json
    requires EntryName(p.root, relative) in p.infos && ParseDocument(p.infos[EntryName(p.root, relative)].content).Ok?
  {
    ParseDocument(p.infos[EntryName(p.root, relative)].content).value
  }

  /** Reading the document raises zlib.error. */
  predicate DocumentCorrupt(p: Package, relative: string, limit: nat, budget: int) {
    var name := EntryName(p.root, relative);
    name in p.infos && Corrupt(p.infos[name], limit, budget)
  }

  /** The document is read, and lies outside this model of JSON. */
  predicate DocumentUnmodelled(p: Package, relative: string, limit: nat, budget: int) {
    var name := EntryName(p.root, relative);
    name in p.infos && Readable(p.infos[name], limit, budget) && ParseDocument(p.infos[name].content) == Err(Unmodelled)
  }

  lemma DocumentIff(p: Package, relative: string, limit: nat, budget: int)
    ensures DocumentAt(p, relative, limit, budget).Ok? <==> DocumentReadable(p, relative, limit, budget)
    ensures DocumentReadable(p, relative, limit, budget) ==>
      DocumentAt(p, relative, limit, budget) == Ok(DocumentIn(p, relative))
    ensures DocumentAt(p, relative, limit, budget) == Err(KeyError) <==> EntryName(p.root, relative) !in p.infos
    ensures DocumentAt(p, relative, limit, budget) != Err(TypeError)
    ensures DocumentAt(p, relative, limit, budget) == Err(ZlibError) <==> DocumentCorrupt(p, relative, limit, budget)
    ensures DocumentAt(p, relative, limit, budget) == Err(Unmodelled) <==>
      DocumentUnmodelled(p, relative, limit, budget)
  {
    hide Loads, FromUtf8;
  }

  // ---------- keys resolved are keys trusted ----------

  lemma {:induction false} BundledIff(env: Env, entries: seq<Json>, id: string)
    ensures id in BundledKeys(env, entries) <==> exists i: nat :: LastUsable(env, entries, i, id)
    ensures forall i: nat | LastUsable(env, entries, i, id) ::
      id in BundledKeys(env, entries) && BundledKeys(env, entries)[id] == Material(env, entries[i])
  {
    hide TextOf;
    if entries != [] {
      var n := |entries| - 1;
      var front := entries[..n];
      BundledIff(env, front, id);
      if Usable(env, entries[n], id) {
        assert LastUsable(env, entries, n, id);
      } else {
        LastStays(env, entries, id);
        hide LastUsable, Usable;
        if i: nat :| LastUsable(env, front, i, id) {
          assert LastUsable(env, entries, i, id);
        }
        if i: nat :| LastUsable(env, entries, i, id) {
          assert LastUsable(env, front, i, id);
        }
      }
    }
  }

  /** An unusable last entry changes nothing. */
  lemma LastStays(env: Env, entries: seq<Json>, id: string)
    requires entries != [] && !Usable(env, entries[|entries| - 1], id)
    ensures forall i: nat :: LastUsable(env, entries, i, id) <==> LastUsable(env, entries[..|entries| - 1], i, id)
  {
    hide Usable;
    var n := |entries| - 1;
    assert forall i | 0 <= i < n :: entries[..n][i] == entries[i];
    forall i: nat ensures LastUsable(env, entries, i, id) <==> LastUsable(env, entries[..n], i, id) {
      if LastUsable(env, entries[..n], i, id) {
        forall j | i < j < |entries| ensures !Usable(env, entries[j], id) {
          assert j < n ==> entries[..n][j] == entries[j];
        }
      }
      if LastUsable(env, entries, i, id) {
        forall j | i < j < n ensures !Usable(env, entries[..n][j], id) {
          assert entries[..n][j] == entries[j];
        }
      }
    }
  }

  lemma KeyringOfIff(env: Env, content: seq<Byte>)
    ensures KeyringOf(env, content).Ok? <==> KeyringAccepted(env, content)
    ensures KeyringOf(env, content).Ok? ==>
      OneKeyEach(env, KeyringEntries(ParseDocument(content).value).value, KeyringOf(env, content).value)
    ensures KeyringOf(env, content) != Err(KeyError) && KeyringOf(env, content) != Err(TypeError)
    ensures KeyringOf(env, content) != Err(ZlibError)
    ensures KeyringOf(env, content) == Err(Unmodelled) <==>
      |content| <= MAX_KEYRING_BYTES && ParseDocument(content) == Err(Unmodelled)
  {
    hide OneKeyEach, KeyringSound, KeyringKeys, Loads, FromUtf8;
    if ParseDocument(content).Ok? && KeyringEntries(ParseDocument(content).value).Ok? {
      KeyringKeysIff(env, KeyringEntries(ParseDocument(content).value).value);
    }
  }

  lemma InKeyringIff(env: Env, content: seq<Byte>, id: string, material: string)
    ensures InKeyring(env, content, id, material) <==>
      var keys := KeyringOf(env, content);
      keys.Ok? && id in keys.value && keys.value[id] == material
  {
    hide KeyringAccepted, ParseDocument, KeyringEntries, KeyringOf, KeyId, Material;
    KeyringOfIff(env, content);
  }

  /** The keys can be resolved, with this budget. */
  predicate KeysReadable(env: Env, p: Package, options: KeyOptions, budget: int) {
    options.publicKey != "" ||
    match options.keyring
    case File(content) => KeyringAccepted(env, content)
    case NoSuchFile => false
    case NotGiven =>
      options.allowBundled && EntryName(p.root, BUNDLED_KEYRING) in p.infos ==> BundledReadable(p, budget)
  }

  /** Only the keyring inside the package is asked, and its "keys" is a number other than zero, or true. */
  predicate NumericKeyring(p: Package, options: KeyOptions, budget: int) {
    options.publicKey == "" && options.keyring.NotGiven? && options.allowBundled
    && DocumentReadable(p, BUNDLED_KEYRING, MAX_KEYRING_BYTES, budget)
    && BundledEntries(DocumentIn(p, BUNDLED_KEYRING)) == Err(TypeError)
  }

  /** Only the keyring inside the package is asked, and it cannot be decompressed. */
  predicate KeysCorrupt(p: Package, options: KeyOptions, budget: int) {
    options.publicKey == "" && options.keyring.NotGiven? && options.allowBundled
    && DocumentCorrupt(p, BUNDLED_KEYRING, MAX_KEYRING_BYTES, budget)
  }

  /** The keyring asked lies outside this model of JSON. */
  predicate KeysUnmodelled(p: Package, options: KeyOptions, budget: int) {
    options.publicKey == "" &&
    match options.keyring
    case File(content) => |content| <= MAX_KEYRING_BYTES && ParseDocument(content) == Err(Unmodelled)
    case NoSuchFile => false
    case NotGiven => options.allowBundled && DocumentUnmodelled(p, BUNDLED_KEYRING, MAX_KEYRING_BYTES, budget)
  }

  lemma KeysIff(env: Env, p: Package, options: KeyOptions, budget: int)
    ensures KeysOf(env, p, options, budget).Ok? <==> KeysReadable(env, p, options, budget)
    ensures KeysOf(env, p, options, budget) != Err(KeyError)
    ensures KeysOf(env, p, options, budget) == Err(TypeError) <==> NumericKeyring(p, options, budget)
    ensures KeysOf(env, p, options, budget) == Err(ZlibError) <==> KeysCorrupt(p, options, budget)
    ensures KeysOf(env, p, options, budget) == Err(Unmodelled) <==> KeysUnmodelled(p, options, budget)
  {
    AbsentIsNothing(p, BUNDLED_KEYRING, MAX_KEYRING_BYTES, budget);
    hide DocumentAt, DocumentReadable, DocumentIn, DocumentCorrupt, DocumentUnmodelled, KeyringOf, KeyringAccepted,
         BundledKeys, ParseDocument;
    DocumentIff(p, BUNDLED_KEYRING, MAX_KEYRING_BYTES, budget);
    PresentWhenReadable(p, BUNDLED_KEYRING, MAX_KEYRING_BYTES, budget);
    if options.keyring.File? {
      KeyringOfIff(env, options.keyring.content);
    }
  }

  lemma AbsentIsNothing(p: Package, relative: string, limit: nat, budget: int)
    ensures EntryName(p.root, relative) !in p.infos ==>
      !DocumentCorrupt(p, relative, limit, budget) && !DocumentUnmodelled(p, relative, limit, budget)
  {
  }

  lemma PresentWhenReadable(p: Package, relative: string, limit: nat, budget: int)
    ensures DocumentReadable(p, relative, limit, budget) ==>
      EntryName(p.root, relative) in p.infos && ParseDocument(p.infos[EntryName(p.root, relative)].content).Ok?
  {
  }

  /** A key resolved for an id is exactly one the caller trusts under that id. */
  lemma {:induction false} ResolvedIffTrusted(env: Env, p: Package, options: KeyOptions, budget: int, id: string,
                                              material: string)
    ensures Trusted(env, p, options, budget, id, material) <==>
      var keys := KeysOf(env, p, options, budget);
      keys.Ok? && id in keys.value.0 && keys.value.0[id] == material
  {
    hide DocumentAt, DocumentReadable, DocumentIn, KeyringOf, BundledKeys, BundledEntries, InKeyring, LastUsable,
         Material;
    DocumentIff(p, BUNDLED_KEYRING, MAX_KEYRING_BYTES, budget);
    PresentWhenReadable(p, BUNDLED_KEYRING, MAX_KEYRING_BYTES, budget);
    match options.keyring
    case File(content) => InKeyringIff(env, content, id, material);
    case NoSuchFile =>
    case NotGiven =>
      if BundledReadable(p, budget) {
        BundledIff(env, BundledEntries(DocumentIn(p, BUNDLED_KEYRING)).value, id);
      }
  }

  /** Where keys come from when there are any. */
  function Source(options: KeyOptions): KeySource {
    if options.publicKey != "" then PinnedKey else if options.keyring.File? then Keyring else Bundled
  }

  lemma ResolvedSource(env: Env, p: Package, options: KeyOptions, budget: int)
    ensures var keys := KeysOf(env, p, options, budget);
      keys.Ok? && keys.value.0 != map[] ==> keys.value.1 == Source(options)
  {
    hide DocumentAt, KeyringOf, BundledKeys, BundledEntries;
  }

  // ---------- the verdict ----------

  /** The seal holds a signature document of the supported kind. */
  predicate SignatureToCheck(env: Env, seal: Json) {
    seal.Obj? && SignatureOf(seal.members).Some? && Supported(env, SignatureOf(seal.members).value)
  }

  /** An authenticity verdict can be given: the seal, if there is one, can be read, and so can the keys if its signature
      is to be checked. */
  predicate SealReadable(env: Env, p: Package, options: KeyOptions, budget: int) {
    match SealName(p)
    case None => true
    case Some(name) =>
      DocumentReadable(p, name, MAX_MANIFEST_BYTES, budget) && DocumentIn(p, name).Obj?
      && (SignatureToCheck(env, DocumentIn(p, name)) ==> KeysReadable(env, p, options, budget - SealSize(p)))
  }

  /** A signature is to be checked against a keyring whose "keys" is a number. */
  predicate NumericKeysNeeded(env: Env, p: Package, options: KeyOptions, budget: int) {
    match SealName(p)
    case None => false
    case Some(name) =>
      DocumentReadable(p, name, MAX_MANIFEST_BYTES, budget) && SignatureToCheck(env, DocumentIn(p, name))
      && NumericKeyring(p, options, budget - SealSize(p))
  }

  /** The seal cannot be decompressed, or its signature needs a keyring that cannot be. */
  predicate SealCorrupt(env: Env, p: Package, options: KeyOptions, budget: int) {
    match SealName(p)
    case None => false
    case Some(name) =>
      DocumentCorrupt(p, name, MAX_MANIFEST_BYTES, budget)
      || (DocumentReadable(p, name, MAX_MANIFEST_BYTES, budget) && SignatureToCheck(env, DocumentIn(p, name))
          && KeysCorrupt(p, options, budget - SealSize(p)))
  }

  /** The seal, or a keyring its signature needs, lies outside this model of JSON. */
  predicate SealUnmodelled(env: Env, p: Package, options: KeyOptions, budget: int) {
    match SealName(p)
    case None => false
    case Some(name) =>
      DocumentUnmodelled(p, name, MAX_MANIFEST_BYTES, budget)
      || (DocumentReadable(p, name, MAX_MANIFEST_BYTES, budget) && SignatureToCheck(env, DocumentIn(p, name))
          && KeysUnmodelled(p, options, budget - SealSize(p)))
  }

  lemma SealPresent(p: Package)
    ensures SealName(p).Some? ==> EntryName(p.root, SealName(p).value) in p.infos
  {
  }

  /** When a verdict is given, and which exception there is otherwise. */
  lemma {:induction false} VerdictIff(env: Env, crypto: Crypto, p: Package, digest: string, options: KeyOptions,
                                      budget: int)
    ensures var r := AuthenticityOf(env, crypto, p, digest, options, budget);
      && (r.Ok? <==> SealReadable(env, p, options, budget))
      && r != Err(KeyError)
      && (r == Err(TypeError) <==> NumericKeysNeeded(env, p, options, budget))
      && (r == Err(ZlibError) <==> SealCorrupt(env, p, options, budget))
      && (r == Err(Unmodelled) <==> SealUnmodelled(env, p, options, budget))
  {
    hide DocumentAt, DocumentReadable, DocumentIn, DocumentCorrupt, DocumentUnmodelled, KeysCorrupt, KeysUnmodelled,
         KeysOf, KeysReadable, NumericKeyring, Supported, SignatureHolds, SignatureOf, SealSize, TextOf, SealName;
    SealPresent(p);
    if SealName(p).Some? {
      DocumentIff(p, SealName(p).value, MAX_MANIFEST_BYTES, budget);
    }
    KeysIff(env, p, options, budget - SealSize(p));
  }

  /** "verified" if and only if the package's own signature document, of the supported kind, holds a signature over
      this digest under key material the caller trusts for the key id that document names. */
  lemma {:induction false} AuthenticIff(env: Env, crypto: Crypto, p: Package, digest: string, options: KeyOptions,
                                        budget: int)
    ensures var r := AuthenticityOf(env, crypto, p, digest, options, budget);
      r.Ok? && r.value.verdict == Authentic <==>
      exists seal, doc, material ::
        && SealOf(p, budget) == Ok(Some(seal)) && SignatureOf(seal) == Some(doc) && Supported(env, doc)
        && Trusted(env, p, options, budget - SealSize(p), TextOf(env, doc, "key_id"), material)
        && SignatureHolds(env, crypto, doc, material, digest)
    ensures var r := AuthenticityOf(env, crypto, p, digest, options, budget);
      r.Ok? && r.value.verdict == Authentic ==> r.value.source == Source(options)
  {
    hide SealOf, SignatureOf, Supported, SignatureHolds, TextOf, KeysOf, Trusted, SealSize;
    var r := AuthenticityOf(env, crypto, p, digest, options, budget);
    var sealed := SealOf(p, budget);
    if sealed.Ok? && sealed.value.Some? && SignatureOf(sealed.value.value).Some? {
      var doc := SignatureOf(sealed.value.value).value;
      var id := TextOf(env, doc, "key_id");
      var left := budget - SealSize(p);
      var keys := KeysOf(env, p, options, left);
      ResolvedSource(env, p, options, left);
      forall material
        ensures Trusted(env, p, options, left, id, material) <==>
          keys.Ok? && id in keys.value.0 && keys.value.0[id] == material
      {
        ResolvedIffTrusted(env, p, options, left, id, material);
      }
      if r.Ok? && r.value.verdict == Authentic {
        assert Trusted(env, p, options, left, id, keys.value.0[id]);
      }
    }
  }
}
