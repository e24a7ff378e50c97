/** Release attestations: a write-once store, signed over the canonical form. */
module ReleaseAttestation {
  import opened Wrappers
  import opened Bytes
  import opened Json
  import opened PyText
  import Canonical

  // ---------- identities ----------

  predicate IsAlnum(c: char) {
    '0' <= c <= '9' || 'A' <= c <= 'Z' || 'a' <= c <= 'z'
  }

  /** SHA_RE */
  predicate IsCommit(s: string) {
    |s| == 40 && AllLowerHex(s)
  }

  /** ID_RE */
  predicate IsId(s: string) {
    1 <= |s| <= 128 && IsAlnum(s[0])
    && forall i | 1 <= i < |s| :: IsAlnum(s[i]) || s[i] == '.' || s[i] == '_' || s[i] == '-'
  }

  /** IMAGE_REF_RE */
  predicate IsImageRef(s: string) {
    |s| > 72
    && s[|s| - 72..|s| - 64] == "@sha256:" && AllLowerHex(s[|s| - 64..])
    && forall i | 0 <= i < |s| - 72 :: !IsPySpace(s[i]) && s[i] != '@'
  }

  /** PENTEST_EVIDENCE_RE: an https address or a ticket. */
  predicate IsPentestEvidence(s: string) {
    ("https://" < s && forall i | 8 <= i < |s| :: !IsPySpace(s[i]))
    || (s != "" && 'A' <= s[0] <= 'Z'
        && exists k :: 1 <= k < |s| - 1 && s[k] == '-'
             && (forall i | k < i < |s| :: IsDigit(s[i]))
             && forall i | 1 <= i < k :: 'A' <= s[i] <= 'Z' || IsDigit(s[i]) || s[i] == '_' || s[i] == '-')
  }

  datatype Args = Args(
    commitSha: string, deploymentId: string, ciRunId: string, imageRef: string, pentest: string, signingKey: string,
    root: seq<string>)

  const REQUIRED_PROBES: seq<string> := [
    "alert_latency", "backup_restoration", "billing_readiness", "database_migrations", "deployed_commit_sha",
    "deployed_image_digest", "event_bus_durability", "failover", "notification_delivery", "provider_freshness",
    "tenant_isolation", "worker_heartbeat"]

  const REQUIRED_SECURITY_GATES: seq<string> := [
    "dependency_scan", "infrastructure_policy", "secret_scan", "static_analysis"]

  // ---------- evidence ----------

  function Field(v: Json, name: string): Option<Json> {
    if v.Obj? then Get(v.members, name) else None
  }

  predicate NonBlank(v: Option<Json>) {
    v.Some? && v.value.Str? && Strip(v.value.s) != ""
  }

  predicate Truthy(v: Option<Json>) {
    v.Some? && v.value != Null && v.value != Bool(false) && v.value != Int(0) && v.value != Str("")
    && v.value != Arr([]) && v.value != Obj([])
  }

  /** section[name]["evidence_id"] */
  function EvidenceId(section: Json, name: string): Option<Json> {
    match Field(section, name)
    case None => None
    case Some(e) => Field(e, "evidence_id")
  }

  /** One required entry: an object that passed and carries an evidence id. */
  predicate Passed(section: Json, name: string, probe: bool) {
    Field(section, name).Some?
    && Field(Field(section, name).value, "status") == Some(Str("pass"))
    && if probe then NonBlank(EvidenceId(section, name)) else Truthy(EvidenceId(section, name))
  }

  /** The section is there and every required name passed in it. */
  predicate AllPassed(section: Option<Json>, names: seq<string>, probe: bool) {
    section.Some? && forall i | 0 <= i < |names| :: Passed(section.value, names[i], probe)
  }

  /** validate_evidence accepts: the parts the attestation is built from, and policy for clocks and measurements. */
  predicate ValidEvidence(evidence: Json, args: Args, policy: (Json, Args) -> bool) {
    && IsCommit(args.commitSha) && IsId(args.deploymentId) && IsId(args.ciRunId) && IsImageRef(args.imageRef)
    && Field(evidence, "schema_version") == Some(Int(2))
    && Field(evidence, "strict_mode") == Some(Bool(true))
    && Field(evidence, "environment") == Some(Str("production"))
    && Field(evidence, "commit_sha") == Some(Str(args.commitSha))
    && Field(evidence, "deployment_id") == Some(Str(args.deploymentId))
    && Field(evidence, "ci_run_id") == Some(Str(args.ciRunId))
    && Field(evidence, "image_ref") == Some(Str(args.imageRef))
    && NonBlank(Field(evidence, "collected_at"))
    && AllPassed(Field(evidence, "probes"), REQUIRED_PROBES, true)
    && AllPassed(Field(evidence, "security_gates"), REQUIRED_SECURITY_GATES, false)
    && Field(evidence, "safe_to_sell_broadly_today") == Some(Bool(true))
    && policy(evidence, args)
  }

  /** {name: section[name]["evidence_id"] for name in names} */
  function EvidenceIds(section: Option<Json>, names: seq<string>, probe: bool): (r: seq<Member>)
    requires AllPassed(section, names, probe)
    ensures |r| == |names| && forall i | 0 <= i < |names| :: r[i].name == names[i]
  {
    seq(|names|, i requires 0 <= i < |names| => Member(names[i], EvidenceId(section.value, names[i]).value))
  }

  /** The attestation document, from the values taken over. */
  function Document(commit: Json, deployment: Json, image: Json, pentest: Json, ciRun: Json, environment: Json,
                    now: Json, collected: Json, digest: Json, probes: Json, gates: Json): Json
  {
    Obj([
      Member("schema_version", Int(2)),
      Member("attestation_type", Str("strict-production-release")),
      Member("commit_sha", commit),
      Member("deployment_id", deployment),
      Member("image_ref", image),
      Member("penetration_test_evidence", pentest),
      Member("ci_run_id", ciRun),
      Member("environment", environment),
      Member("strict_mode", Bool(true)),
      Member("generated_at", now),
      Member("evidence_collected_at", collected),
      Member("evidence_sha256", digest),
      Member("runtime_probes", probes),
      Member("security_gates", gates),
      Member("safe_to_sell_broadly_today", Bool(true))])
  }

  /** build_attestation on accepted evidence. */
  function BuildAttestation(sha: Hash, evidence: Json, args: Args, policy: (Json, Args) -> bool, now: string): Json
    requires ValidEvidence(evidence, args, policy)
  {
    Document(
      Field(evidence, "commit_sha").value, Field(evidence, "deployment_id").value, Field(evidence, "image_ref").value,
      Str(args.pentest), Field(evidence, "ci_run_id").value, Field(evidence, "environment").value, Str(now),
      Field(evidence, "collected_at").value, Str(Hex(sha(Canonical.Encode(evidence)))),
      Obj(EvidenceIds(Field(evidence, "probes"), REQUIRED_PROBES, true)),
      Obj(EvidenceIds(Field(evidence, "security_gates"), REQUIRED_SECURITY_GATES, false)))
  }

  // ---------- signing ----------

  /** Ed25519 with base64 texts. */
  datatype Crypto = Crypto(
    keyOk: string -> bool,
    publicKey: string -> string,
    sign: (string, seq<Byte>) -> string,
    verify: (string, string, seq<Byte>) -> bool)

  /** A signature made with a key verifies under its public key. */
  ghost predicate SignVerifyAgree(crypto: Crypto) {
    forall key: string, payload: seq<Byte> ::
      crypto.keyOk(key) ==> crypto.verify(crypto.publicKey(key), crypto.sign(key, payload), payload)
  }

  /** sign_attestation: the canonical form is what is signed. */
  function SignAttestation(sha: Hash, crypto: Crypto, attestation: Json, key: string): Json {
    var payload := Canonical.Encode(attestation);
    Obj([
      Member("algorithm", Str("Ed25519")),
      Member("public_key", Str(crypto.publicKey(key))),
      Member("signature", Str(crypto.sign(key, payload))),
      Member("payload_sha256", Str(Hex(sha(payload))))])
  }

  /** verify_signature */
  predicate SignatureVerifies(sha: Hash, crypto: Crypto, attestation: Json, signature: Json) {
    var payload := Canonical.Encode(attestation);
    && Field(signature, "algorithm") == Some(Str("Ed25519"))
    && Field(signature, "payload_sha256") == Some(Str(Hex(sha(payload))))
    && Field(signature, "public_key").Some? && Field(signature, "public_key").value.Str?
    && Field(signature, "signature").Some? && Field(signature, "signature").value.Str?
    && crypto.verify(Field(signature, "public_key").value.s, Field(signature, "signature").value.s, payload)
  }

  // ---------- files ----------

  type Path = seq<string>

  /** json.dumps(v, indent=2, sort_keys=True) + "\n" */
  function FileText(v: Json): string {
    Put(Canonical.Norm(v), Indented(2), 0, "\n")
  }

  function OutputDir(root: Path, commitSha: string, deploymentId: string): Path {
    root + ["artifacts", "release-attestations", commitSha, deploymentId]
  }

  /** verify on the two documents it loads, for the directory they lie in. */
  predicate Accepts(sha: Hash, crypto: Crypto, attestation: Json, signature: Json, dir: Path, commitSha: string,
                    deploymentId: string, imageRef: string)
  {
    && attestation.Obj? && signature.Obj?
    && SignatureVerifies(sha, crypto, attestation, signature)
    && Field(attestation, "strict_mode") == Some(Bool(true))
    && Field(attestation, "safe_to_sell_broadly_today") == Some(Bool(true))
    && Field(attestation, "commit_sha") == Some(Str(commitSha))
    && Field(attestation, "deployment_id") == Some(Str(deploymentId))
    && Field(attestation, "image_ref") == Some(Str(imageRef))
    && IsImageRef(imageRef)
    && |dir| >= 2 && Field(attestation, "deployment_id") == Some(Str(dir[|dir| - 1])) && dir[|dir| - 2] == commitSha
  }

  /** The same on the files of a store. */
  predicate Verifies(sha: Hash, crypto: Crypto, files: map<Path, string>, dir: Path, args: Args) {
    var a, s := dir + ["attestation.json"], dir + ["signature.json"];
    && a in files && s in files
    && Loads(files[a], KeepLast).Ok? && Loads(files[s], KeepLast).Ok?
    && Accepts(sha, crypto, Loads(files[a], KeepLast).value, Loads(files[s], KeepLast).value, dir, args.commitSha,
               args.deploymentId, args.imageRef)
  }

  /** Where a run of create may be cut off: the file system refuses, or the process dies while making directories
      or writing. */
  datatype Fault = NoFault | AtMkdir(parents: nat) | AtFirstWrite(kept: nat) | AtSecondWrite(kept: nat)

  function Cut(text: string, kept: nat): string {
    if kept < |text| then text[..kept] else text
  }

  /** What the file system holds. */
  datatype Store = Store(dirs: set<Path>, files: map<Path, string>)

  /** The two documents of one release, added to the files there are. */
  function Stored(files: map<Path, string>, dir: Path, attestation: string, signature: string): map<Path, string> {
    files[dir + ["attestation.json"] := attestation][dir + ["signature.json"] := signature]
  }

  /** The path does not exist, and no file is in its way. */
  predicate Free(s: Store, dir: Path) {
    dir !in s.dirs && forall n | 0 <= n <= |dir| :: dir[..n] !in s.files
  }

  /** The first n ancestors of a path, its own included when n is its length. */
  function Upto(dir: Path, n: nat): set<Path>
    requires n <= |dir|
  {
    set k | 0 <= k <= n :: dir[..k]
  }

  lemma UptoHolds(dir: Path, n: nat)
    requires n <= |dir|
    ensures dir in Upto(dir, n) <==> n == |dir|
  {
    assert dir[..|dir|] == dir;
  }

  lemma FreeIff(s: Store, dir: Path)
    ensures Free(s, dir) <==>
      dir !in s.dirs && dir !in s.files && forall n | 0 <= n < |dir| :: dir[..n] !in s.files
  {
    assert dir[..|dir|] == dir;
  }

  /** What the writing part of create leaves. */
  function Written(s: Store, dir: Path, attestation: string, signature: string, fault: Fault): Store {
    if !Free(s, dir) then s
    else
      var made := s.dirs + Upto(dir, |dir|);
      match fault
      case NoFault => Store(made, Stored(s.files, dir, attestation, signature))
      case AtMkdir(parents) =>
        s.(dirs := s.dirs + if dir == [] then {} else Upto(dir, if parents < |dir| then parents else |dir| - 1))
      case AtFirstWrite(kept) => Store(made, s.files[dir + ["attestation.json"] := Cut(attestation, kept)])
      case AtSecondWrite(kept) => Store(made, Stored(s.files, dir, attestation, Cut(signature, kept)))
  }

  /** One call of create: the text of the evidence file, the arguments, the time, and where it is cut off. */
  datatype Call = Call(text: string, args: Args, now: string, fault: Fault)

  function DirOf(args: Args): Path {
    OutputDir(args.root, args.commitSha, args.deploymentId)
  }

  /** Everything create checks before it looks at the file system. */
  predicate Requested(crypto: Crypto, text: string, args: Args, policy: (Json, Args) -> bool) {
    Loads(text, KeepLast).Ok? && ValidEvidence(Loads(text, KeepLast).value, args, policy)
    && IsPentestEvidence(args.pentest) && crypto.keyOk(args.signingKey)
  }

  function AttestationOf(sha: Hash, text: string, args: Args, policy: (Json, Args) -> bool, now: string): Json
    requires Loads(text, KeepLast).Ok? && ValidEvidence(Loads(text, KeepLast).value, args, policy)
  {
    BuildAttestation(sha, Loads(text, KeepLast).value, args, policy, now)
  }

  /** What a call of create leaves. */
  function Created(sha: Hash, crypto: Crypto, policy: (Json, Args) -> bool, s: Store, c: Call): Store {
    if !Requested(crypto, c.text, c.args, policy) then s
    else
      var a := AttestationOf(sha, c.text, c.args, policy, c.now);
      Written(s, DirOf(c.args), FileText(a), FileText(SignAttestation(sha, crypto, a, c.args.signingKey)), c.fault)
  }

  /** The file store of all releases. */
  class AttestationStore {
    var dirs: set<Path>
    var files: map<Path, string>

    ghost function Contents(): Store
      reads this
    {
      Store(dirs, files)
    }

    /** A file lies in a directory that exists. */
    ghost predicate Valid()
      reads this
    {
      forall f | f in files :: f != [] && f[..|f| - 1] in dirs
    }

    constructor ()
      ensures Valid() && Contents() == Store({}, map[])
    {
      dirs, files := {}, map[];
    }

    /** Nothing that was stored has changed. */
    twostate predicate Keeps()
      reads this
    {
      old(dirs) <= dirs && forall f | f in old(files) :: f in files && files[f] == old(files[f])
    }

    /** create; written is exit status 0. It succeeds exactly for acceptable input, on a free path, when not cut off.
        Once it gets past making the directory the path is taken, whatever happens next. */
    method Create(sha: Hash, crypto: Crypto, c: Call, policy: (Json, Args) -> bool) returns (written: bool)
      requires Valid()
      modifies this
      ensures Valid() && Keeps()
      ensures Contents() == Created(sha, crypto, policy, old(Contents()), c)
      ensures written <==>
        Requested(crypto, c.text, c.args, policy) && old(Free(Contents(), DirOf(c.args))) && c.fault.NoFault?
      ensures DirOf(c.args) in dirs <==>
        || DirOf(c.args) in old(dirs)
        || (Requested(crypto, c.text, c.args, policy) && old(Free(Contents(), DirOf(c.args))) && !c.fault.AtMkdir?)
    {
      hide ValidEvidence, IsPentestEvidence, BuildAttestation, SignAttestation, FileText, OutputDir, Loads, Written,
           Free;
      var loaded := Loads(c.text, KeepLast);
      if loaded.Err? {
        return false;
      }
      var evidence, args := loaded.value, c.args;
      if !ValidEvidence(evidence, args, policy) || !IsPentestEvidence(args.pentest) || !crypto.keyOk(args.signingKey) {
        return false;
      }
      var attestation := BuildAttestation(sha, evidence, args, policy, c.now);
      var signature := SignAttestation(sha, crypto, attestation, args.signingKey);
      var output := OutputDir(args.root, args.commitSha, args.deploymentId);
      written := Write(output, FileText(attestation), FileText(signature), c.fault);
    }

    /** The part of create that touches the file system. */
    method Write(output: Path, attestation: string, signature: string, fault: Fault) returns (written: bool)
      requires Valid()
      modifies this
      ensures Valid() && Keeps()
      ensures Contents() == Written(old(Contents()), output, attestation, signature, fault)
      ensures written <==> old(Free(Contents(), output)) && fault.NoFault?
      ensures output in dirs <==> output in old(dirs) || (old(Free(Contents(), output)) && !fault.AtMkdir?)
    {
      hide Free, Upto, Cut, Stored;
      FreeIff(Contents(), output);
      if output in dirs || output in files {
        return false;
      }
      if exists n :: 0 <= n < |output| && output[..n] in files {
        return false;
      }
      if fault.AtMkdir? {
        if output != [] {
          UptoHolds(output, if fault.parents < |output| then fault.parents else |output| - 1);
          dirs := dirs + Upto(output, if fault.parents < |output| then fault.parents else |output| - 1);
        }
        return false;
      }
      UptoHolds(output, |output|);
      assert (output + ["attestation.json"])[..|output|] == output;
      assert (output + ["signature.json"])[..|output|] == output;
      NotYetThere(output + ["attestation.json"]);
      NotYetThere(output + ["signature.json"]);
      dirs := dirs + Upto(output, |output|);
      written := WriteBoth(output, attestation, signature, fault);
    }

    /** The two write_text calls. */
    method WriteBoth(output: Path, attestation: string, signature: string, fault: Fault) returns (written: bool)
      requires Valid() && output in dirs && !fault.AtMkdir?
      requires output + ["attestation.json"] !in files && output + ["signature.json"] !in files
      modifies this`files
      ensures Valid() && Keeps() && (written <==> fault.NoFault?)
      ensures files == match fault
                       case AtFirstWrite(kept) => old(files)[output + ["attestation.json"] := Cut(attestation, kept)]
                       case AtSecondWrite(kept) => Stored(old(files), output, attestation, Cut(signature, kept))
                       case _ => Stored(old(files), output, attestation, signature)
    {
      hide Cut;
      var first, second := output + ["attestation.json"], output + ["signature.json"];
      assert first[..|first| - 1] == output && second[..|second| - 1] == output;
      files := files[first := if fault.AtFirstWrite? then Cut(attestation, fault.kept) else attestation];
      if fault.AtFirstWrite? {
        return false;
      }
      files := files[second := if fault.AtSecondWrite? then Cut(signature, fault.kept) else signature];
      return !fault.AtSecondWrite?;
    }

    /** In a directory that did not exist there was no file. */
    twostate lemma NotYetThere(f: Path)
      requires old(Valid()) && f != [] && f[..|f| - 1] !in old(dirs)
      ensures f !in old(files)
    {
    }

    /** Any run of create calls, with any faults, leaves every stored file as it is. */
    method CreateAll(sha: Hash, crypto: Crypto, calls: seq<Call>, policy: (Json, Args) -> bool)
      requires Valid()
      modifies this
      ensures Valid() && Keeps()
      ensures Contents() == AfterCalls(sha, crypto, policy, old(Contents()), calls)
    {
      hide Created;
      for i := 0 to |calls|
        invariant Valid() && Keeps()
        invariant Contents() == AfterCalls(sha, crypto, policy, old(Contents()), calls[..i])
      {
        assert calls[..i + 1][..i] == calls[..i];
        var _ := Create(sha, crypto, calls[i], policy);
      }
      assert calls[..|calls|] == calls;
    }

    /** create, then verify on the directory just written. */
    method CreateAndVerify(sha: Hash, crypto: Crypto, c: Call, policy: (Json, Args) -> bool) returns (written: bool)
      requires Valid() && SignVerifyAgree(crypto)
      modifies this
      ensures written <==>
        Requested(crypto, c.text, c.args, policy) && old(Free(Contents(), DirOf(c.args))) && c.fault.NoFault?
      ensures written ==> Verifies(sha, crypto, files, DirOf(c.args), c.args)
    {
      hide ValidEvidence, BuildAttestation, SignAttestation, FileText, OutputDir, Verifies, Stored, Loads, WellFormed,
           IsPentestEvidence, Free;
      written := Create(sha, crypto, c, policy);
      if written {
        Canonical.LoadsWellFormed(c.text, KeepLast);
        CreatedVerifies(sha, crypto, old(files), Loads(c.text, KeepLast).value, c.args, policy, c.now);
      }
    }
  }

  // ---------- runs of create ----------

  function AfterCalls(sha: Hash, crypto: Crypto, policy: (Json, Args) -> bool, s: Store, calls: seq<Call>): Store {
    if calls == [] then s
    else Created(sha, crypto, policy, AfterCalls(sha, crypto, policy, s, calls[..|calls| - 1]), calls[|calls| - 1])
  }

  /** What a call that finds its own path free leaves in the way of dir: dir itself, or a file dir would be under. */
  predicate InTheWay(output: Path, fault: Fault, dir: Path) {
    || (dir <= output && (!fault.AtMkdir? || (|dir| < |output| && |dir| <= fault.parents)))
    || (!fault.AtMkdir? && output + ["attestation.json"] <= dir)
    || ((fault.NoFault? || fault.AtSecondWrite?) && output + ["signature.json"] <= dir)
  }

  lemma PrefixIs(dir: Path, output: Path, n: nat)
    requires n <= |output|
    ensures dir in Upto(output, n) <==> dir <= output && |dir| <= n
  {
    if dir <= output { assert dir == output[..|dir|]; }
  }

  lemma FilesInTheWay(files: map<Path, string>, f: Path, text: string, dir: Path)
    ensures (forall n | 0 <= n <= |dir| :: dir[..n] !in files[f := text])
       <==> (forall n | 0 <= n <= |dir| :: dir[..n] !in files) && !(f <= dir)
  {
    if f <= dir { assert dir[..|f|] == f; }
  }

  /** A path is free after writing exactly when it was free before and writing left nothing in its way. */
  lemma WrittenFrees(s: Store, output: Path, attestation: string, signature: string, fault: Fault, dir: Path)
    ensures Free(Written(s, output, attestation, signature, fault), dir)
       <==> Free(s, dir) && !(Free(s, output) && InTheWay(output, fault, dir))
  {
    var first, second := output + ["attestation.json"], output + ["signature.json"];
    PrefixIs(dir, output, |output|);
    if output != [] {
      PrefixIs(dir, output, if fault.AtMkdir? && fault.parents < |output| then fault.parents else |output| - 1);
    }
    match fault
    case NoFault =>
      FilesInTheWay(s.files, first, attestation, dir);
      FilesInTheWay(s.files[first := attestation], second, signature, dir);
    case AtMkdir(_) =>
    case AtFirstWrite(kept) => FilesInTheWay(s.files, first, Cut(attestation, kept), dir);
    case AtSecondWrite(kept) =>
      FilesInTheWay(s.files, first, attestation, dir);
      FilesInTheWay(s.files[first := attestation], second, Cut(signature, kept), dir);
  }

  lemma CreatedFrees(sha: Hash, crypto: Crypto, policy: (Json, Args) -> bool, s: Store, c: Call, dir: Path)
    ensures Free(Created(sha, crypto, policy, s, c), dir) <==>
      Free(s, dir)
      && !(Requested(crypto, c.text, c.args, policy) && Free(s, DirOf(c.args)) && InTheWay(DirOf(c.args), c.fault, dir))
  {
    hide Free, Written, Loads, ValidEvidence, IsPentestEvidence, FileText, InTheWay;
    if Requested(crypto, c.text, c.args, policy) {
      var a := AttestationOf(sha, c.text, c.args, policy, c.now);
      WrittenFrees(s, DirOf(c.args), FileText(a), FileText(SignAttestation(sha, crypto, a, c.args.signingKey)), c.fault,
                   dir);
    }
  }

  /** The i-th call of a run had accepted input and found its path free. */
  predicate Acted(sha: Hash, crypto: Crypto, policy: (Json, Args) -> bool, s: Store, calls: seq<Call>, i: nat)
    requires i < |calls|
  {
    Requested(crypto, calls[i].text, calls[i].args, policy)
    && Free(AfterCalls(sha, crypto, policy, s, calls[..i]), DirOf(calls[i].args))
  }

  /** A path is free after a run exactly when it was free before and no call that acted left anything in its way. */
  lemma {:induction false} PathStaysFree(sha: Hash, crypto: Crypto, policy: (Json, Args) -> bool, s: Store,
                                         calls: seq<Call>, dir: Path)
    ensures Free(AfterCalls(sha, crypto, policy, s, calls), dir) <==>
      Free(s, dir) && forall i | 0 <= i < |calls| ::
        !(Acted(sha, crypto, policy, s, calls, i) && InTheWay(DirOf(calls[i].args), calls[i].fault, dir))
  {
    hide Free, Created, InTheWay, Requested, DirOf;
    if calls != [] {
      var n := |calls| - 1;
      var front := calls[..n];
      assert forall i | 0 <= i < n :: front[..i] == calls[..i] && front[i] == calls[i];
      PathStaysFree(sha, crypto, policy, s, front, dir);
      CreatedFrees(sha, crypto, policy, AfterCalls(sha, crypto, policy, s, front), calls[n], dir);
    }
  }

  /** Every run: a create after it succeeds exactly when its input is accepted, it is not cut off, its path was free at
      the start, and no earlier call that acted left a directory or a file in its way. */
  lemma {:induction false} RetrySucceedsIff(sha: Hash, crypto: Crypto, policy: (Json, Args) -> bool, s: Store,
                                            calls: seq<Call>, c: Call)
    ensures var before := AfterCalls(sha, crypto, policy, s, calls);
      Requested(crypto, c.text, c.args, policy) && Free(before, DirOf(c.args)) && c.fault.NoFault?
      <==>
      Requested(crypto, c.text, c.args, policy) && c.fault.NoFault? && Free(s, DirOf(c.args))
      && forall i | 0 <= i < |calls| ::
           !(Acted(sha, crypto, policy, s, calls, i) && InTheWay(DirOf(calls[i].args), calls[i].fault, DirOf(c.args)))
  {
    hide Free, Requested, Acted, AfterCalls, InTheWay;
    PathStaysFree(sha, crypto, policy, s, calls, DirOf(c.args));
  }

  /** The call takes the path if it is free: its input is accepted and it gets past making the directory. */
  predicate Takes(crypto: Crypto, policy: (Json, Args) -> bool, c: Call, dir: Path) {
    DirOf(c.args) == dir && Requested(crypto, c.text, c.args, policy) && !c.fault.AtMkdir?
  }

  /** Below one root only calls for the same release can be in the way. */
  lemma SameRootWay(c: Call, dir: Path)
    requires |dir| == |c.args.root| + 4
    ensures InTheWay(DirOf(c.args), c.fault, dir) <==> DirOf(c.args) == dir && !c.fault.AtMkdir?
  {
  }

  /** Below one root a create succeeds exactly when its input is accepted, it is not cut off, its path was free at the
      start, and no earlier call for that commit and deployment with accepted input got past making the directory. */
  lemma {:induction false} SameRootRetry(sha: Hash, crypto: Crypto, policy: (Json, Args) -> bool, s: Store,
                                         calls: seq<Call>, c: Call)
    requires forall i | 0 <= i < |calls| :: calls[i].args.root == c.args.root
    ensures var before := AfterCalls(sha, crypto, policy, s, calls);
      Requested(crypto, c.text, c.args, policy) && Free(before, DirOf(c.args)) && c.fault.NoFault?
      <==>
      Requested(crypto, c.text, c.args, policy) && c.fault.NoFault? && Free(s, DirOf(c.args))
      && forall i | 0 <= i < |calls| :: !Takes(crypto, policy, calls[i], DirOf(c.args))
  {
    SameRootFree(sha, crypto, policy, s, calls, c.args.root, DirOf(c.args));
    hide Free, Requested, Takes, AfterCalls;
  }

  lemma {:induction false} SameRootFree(sha: Hash, crypto: Crypto, policy: (Json, Args) -> bool, s: Store,
                                        calls: seq<Call>, root: Path, dir: Path)
    requires forall i | 0 <= i < |calls| :: calls[i].args.root == root
    requires |dir| == |root| + 4
    ensures Free(AfterCalls(sha, crypto, policy, s, calls), dir)
       <==> Free(s, dir) && forall i | 0 <= i < |calls| :: !Takes(crypto, policy, calls[i], dir)
  {
    hide Free, Created, InTheWay, Requested;
    if calls != [] {
      var n := |calls| - 1;
      SameRootFree(sha, crypto, policy, s, calls[..n], root, dir);
      CreatedFrees(sha, crypto, policy, AfterCalls(sha, crypto, policy, s, calls[..n]), calls[n], dir);
      SameRootWay(calls[n], dir);
    }
  }

  // ---------- create, then verify ----------

  lemma GetWellFormed(v: Json, name: string)
    requires WellFormed(v)
    ensures Field(v, name).Some? ==> WellFormed(Field(v, name).value)
  {
    if Field(v, name).Some? {
      var i :| 0 <= i < |v.members| && v.members[i] == Member(name, Field(v, name).value);
    }
  }

  lemma NamesDistinct()
    ensures forall i, j | 0 <= i < j < |REQUIRED_PROBES| :: REQUIRED_PROBES[i] != REQUIRED_PROBES[j]
    ensures forall i, j | 0 <= i < j < |REQUIRED_SECURITY_GATES| ::
      REQUIRED_SECURITY_GATES[i] != REQUIRED_SECURITY_GATES[j]
  {
  }

  lemma EvidenceIdsWellFormed(section: Option<Json>, names: seq<string>, probe: bool)
    requires AllPassed(section, names, probe) && WellFormed(section.value)
    requires forall i, j | 0 <= i < j < |names| :: names[i] != names[j]
    ensures WellFormed(Obj(EvidenceIds(section, names, probe)))
  {
    var r := EvidenceIds(section, names, probe);
    hide Field;
    forall i | 0 <= i < |r| ensures WellFormed(r[i].value) {
      GetWellFormed(section.value, names[i]);
      GetWellFormed(Field(section.value, names[i]).value, "evidence_id");
    }
  }

  lemma DocumentNames(a: Json, b: Json, c: Json, d: Json, e: Json, f: Json, g: Json, h: Json, i: Json, p: Json, q: Json)
    ensures DistinctNames(Document(a, b, c, d, e, f, g, h, i, p, q).members)
  {
  }

  lemma DocumentWellFormed(a: Json, b: Json, c: Json, d: Json, e: Json, f: Json, g: Json, h: Json, i: Json, p: Json,
                           q: Json)
    requires WellFormed(a) && WellFormed(b) && WellFormed(c) && WellFormed(d) && WellFormed(e) && WellFormed(f)
    requires WellFormed(g) && WellFormed(h) && WellFormed(i) && WellFormed(p) && WellFormed(q)
    ensures WellFormed(Document(a, b, c, d, e, f, g, h, i, p, q))
  {
    DocumentNames(a, b, c, d, e, f, g, h, i, p, q);
  }

  lemma DocumentLookups(a: Json, b: Json, c: Json, d: Json, e: Json, f: Json, g: Json, h: Json, i: Json, p: Json,
                        q: Json)
    ensures var x := Document(a, b, c, d, e, f, g, h, i, p, q);
      && Field(x, "strict_mode") == Some(Bool(true)) && Field(x, "safe_to_sell_broadly_today") == Some(Bool(true))
      && Field(x, "commit_sha") == Some(a) && Field(x, "deployment_id") == Some(b) && Field(x, "image_ref") == Some(c)
  {
    hide Get;
    DocumentNames(a, b, c, d, e, f, g, h, i, p, q);
    var ms := Document(a, b, c, d, e, f, g, h, i, p, q).members;
    GetAt(ms, 2);
    GetAt(ms, 3);
    GetAt(ms, 4);
    GetAt(ms, 8);
    GetAt(ms, 14);
  }

  /** A document of well-formed values is well formed, and its fields are where verify looks for them. */
  lemma DocumentFields(a: Json, b: Json, c: Json, d: Json, e: Json, f: Json, g: Json, h: Json, i: Json, p: Json,
                       q: Json)
    requires WellFormed(a) && WellFormed(b) && WellFormed(c) && WellFormed(d) && WellFormed(e) && WellFormed(f)
    requires WellFormed(g) && WellFormed(h) && WellFormed(i) && WellFormed(p) && WellFormed(q)
    ensures var x := Document(a, b, c, d, e, f, g, h, i, p, q);
      && WellFormed(x)
      && Field(x, "strict_mode") == Some(Bool(true)) && Field(x, "safe_to_sell_broadly_today") == Some(Bool(true))
      && Field(x, "commit_sha") == Some(a) && Field(x, "deployment_id") == Some(b) && Field(x, "image_ref") == Some(c)
  {
    hide *;
    DocumentWellFormed(a, b, c, d, e, f, g, h, i, p, q);
    DocumentLookups(a, b, c, d, e, f, g, h, i, p, q);
  }

  lemma SectionsWellFormed(evidence: Json, args: Args, policy: (Json, Args) -> bool)
    requires ValidEvidence(evidence, args, policy) && WellFormed(evidence)
    ensures WellFormed(Obj(EvidenceIds(Field(evidence, "probes"), REQUIRED_PROBES, true)))
    ensures WellFormed(Obj(EvidenceIds(Field(evidence, "security_gates"), REQUIRED_SECURITY_GATES, false)))
  {
    NamesDistinct();
    hide Field, Passed;
    GetWellFormed(evidence, "probes");
    GetWellFormed(evidence, "security_gates");
    EvidenceIdsWellFormed(Field(evidence, "probes"), REQUIRED_PROBES, true);
    EvidenceIdsWellFormed(Field(evidence, "security_gates"), REQUIRED_SECURITY_GATES, false);
  }

  /** The attestation is well formed and carries the release's own identity. */
  lemma AttestationFields(sha: Hash, evidence: Json, args: Args, policy: (Json, Args) -> bool, now: string)
    requires ValidEvidence(evidence, args, policy) && WellFormed(evidence)
    ensures var a := BuildAttestation(sha, evidence, args, policy, now);
      && a.Obj? && WellFormed(a)
      && Field(a, "strict_mode") == Some(Bool(true)) && Field(a, "safe_to_sell_broadly_today") == Some(Bool(true))
      && Field(a, "commit_sha") == Some(Str(args.commitSha))
      && Field(a, "deployment_id") == Some(Str(args.deploymentId))
      && Field(a, "image_ref") == Some(Str(args.imageRef))
  {
    SectionsWellFormed(evidence, args, policy);
    hide EvidenceIds, AllPassed, IsCommit, IsId, IsImageRef, Strip, Field, Document;
    DocumentFields(
      Field(evidence, "commit_sha").value, Field(evidence, "deployment_id").value, Field(evidence, "image_ref").value,
      Str(args.pentest), Field(evidence, "ci_run_id").value, Field(evidence, "environment").value, Str(now),
      Field(evidence, "collected_at").value, Str(Hex(sha(Canonical.Encode(evidence)))),
      Obj(EvidenceIds(Field(evidence, "probes"), REQUIRED_PROBES, true)),
      Obj(EvidenceIds(Field(evidence, "security_gates"), REQUIRED_SECURITY_GATES, false)));
  }

  lemma SignatureFields(sha: Hash, crypto: Crypto, attestation: Json, key: string)
    ensures var s := SignAttestation(sha, crypto, attestation, key);
      var payload := Canonical.Encode(attestation);
      && WellFormed(s)
      && Field(s, "algorithm") == Some(Str("Ed25519"))
      && Field(s, "public_key") == Some(Str(crypto.publicKey(key)))
      && Field(s, "signature") == Some(Str(crypto.sign(key, payload)))
      && Field(s, "payload_sha256") == Some(Str(Hex(sha(payload))))
  {
    var s := SignAttestation(sha, crypto, attestation, key);
    assert DistinctNames(s.members);
    GetAt(s.members, 0);
    GetAt(s.members, 1);
    GetAt(s.members, 2);
    GetAt(s.members, 3);
  }

  /** Loading a stored file gives the value back with its keys sorted. */
  lemma {:induction false} FileLoads(v: Json)
    requires WellFormed(v)
    ensures Loads(FileText(v), KeepLast) == Ok(Canonical.Norm(v))
    ensures WellFormed(Canonical.Norm(v)) && Canonical.Norm(Canonical.Norm(v)) == Canonical.Norm(v)
  {
    Canonical.NormWellFormed(v);
    Canonical.NormIdempotent(v);
    LoadsUndoesPut(Canonical.Norm(v), Indented(2), "\n", KeepLast);
  }

  /** Acceptance depends on the values only: any layout and key order of the two files gives the same verdict. */
  lemma {:induction false} LayoutDoesNotMatter(sha: Hash, crypto: Crypto, a: Json, s: Json, l: Layout, m: Layout,
                                               dir: Path, commitSha: string, deploymentId: string, imageRef: string)
    requires WellFormed(a) && WellFormed(s) && Accepts(sha, crypto, a, s, dir, commitSha, deploymentId, imageRef)
    ensures Loads(Put(a, l, 0, ""), KeepLast) == Ok(a) && Loads(Put(s, m, 0, ""), KeepLast) == Ok(s)
    ensures forall a': Json, s': Json | WellFormed(a') && WellFormed(s')
      && Canonical.Norm(a') == Canonical.Norm(a) && Canonical.Norm(s') == Canonical.Norm(s) ::
      Accepts(sha, crypto, a', s', dir, commitSha, deploymentId, imageRef)
  {
    LoadsUndoesPut(a, l, "", KeepLast);
    LoadsUndoesPut(s, m, "", KeepLast);
    forall a': Json, s': Json | WellFormed(a') && WellFormed(s')
      && Canonical.Norm(a') == Canonical.Norm(a) && Canonical.Norm(s') == Canonical.Norm(s)
      ensures Accepts(sha, crypto, a', s', dir, commitSha, deploymentId, imageRef)
    {
      ReorderedAccepted(sha, crypto, a, s, a', s', dir, commitSha, deploymentId, imageRef);
    }
  }

  lemma FieldOfReordered(v: Json, w: Json, name: string, x: Json)
    requires WellFormed(v) && WellFormed(w) && Canonical.Norm(v) == Canonical.Norm(w)
    requires v.Obj? && Field(v, name) == Some(x) && !x.Arr? && !x.Obj?
    ensures Field(w, name) == Some(x)
  {
    hide Get, Canonical.NormItems, Canonical.NormMembers;
    Canonical.GetNorm(v.members, name);
    Canonical.GetNorm(w.members, name);
  }

  lemma ReorderedAccepted(sha: Hash, crypto: Crypto, a: Json, s: Json, a': Json, s': Json, dir: Path,
                          commitSha: string, deploymentId: string, imageRef: string)
    requires WellFormed(a) && WellFormed(s) && Accepts(sha, crypto, a, s, dir, commitSha, deploymentId, imageRef)
    requires WellFormed(a') && WellFormed(s')
    requires Canonical.Norm(a') == Canonical.Norm(a) && Canonical.Norm(s') == Canonical.Norm(s)
    ensures Accepts(sha, crypto, a', s', dir, commitSha, deploymentId, imageRef)
  {
    assert Canonical.Encode(a') == Canonical.Encode(a);
    FieldOfReordered(a, a', "strict_mode", Bool(true));
    FieldOfReordered(a, a', "safe_to_sell_broadly_today", Bool(true));
    FieldOfReordered(a, a', "commit_sha", Str(commitSha));
    FieldOfReordered(a, a', "deployment_id", Str(deploymentId));
    FieldOfReordered(a, a', "image_ref", Str(imageRef));
    FieldOfReordered(s, s', "algorithm", Str("Ed25519"));
    FieldOfReordered(s, s', "payload_sha256", Str(Hex(sha(Canonical.Encode(a)))));
    FieldOfReordered(s, s', "public_key", Field(s, "public_key").value);
    FieldOfReordered(s, s', "signature", Field(s, "signature").value);
    hide Field, Canonical.Encode, IsImageRef;
  }

  /** What create has written, verify accepts. */
  lemma {:induction false} CreatedVerifies(sha: Hash, crypto: Crypto, files: map<Path, string>, evidence: Json,
                                           args: Args, policy: (Json, Args) -> bool, now: string)
    requires SignVerifyAgree(crypto) && crypto.keyOk(args.signingKey)
    requires ValidEvidence(evidence, args, policy) && WellFormed(evidence)
    ensures var dir := OutputDir(args.root, args.commitSha, args.deploymentId);
      var a := BuildAttestation(sha, evidence, args, policy, now);
      Verifies(sha, crypto, Stored(files, dir, FileText(a), FileText(SignAttestation(sha, crypto, a, args.signingKey))),
               dir, args)
  {
    var dir := OutputDir(args.root, args.commitSha, args.deploymentId);
    var a := BuildAttestation(sha, evidence, args, policy, now);
    var s := SignAttestation(sha, crypto, a, args.signingKey);
    AttestationFields(sha, evidence, args, policy, now);
    SignatureFields(sha, crypto, a, args.signingKey);
    FileLoads(a);
    FileLoads(s);
    FreshAccepted(sha, crypto, a, s, dir, args);
    hide *;
    ReorderedAccepted(sha, crypto, a, s, Canonical.Norm(a), Canonical.Norm(s), dir, args.commitSha, args.deploymentId,
                      args.imageRef);
    StoredVerifies(sha, crypto, files, FileText(a), FileText(s), dir, args);
  }

  lemma StoredVerifies(sha: Hash, crypto: Crypto, files: map<Path, string>, first: string, second: string, dir: Path,
                       args: Args)
    requires Loads(first, KeepLast).Ok? && Loads(second, KeepLast).Ok?
    requires Accepts(sha, crypto, Loads(first, KeepLast).value, Loads(second, KeepLast).value, dir, args.commitSha,
                     args.deploymentId, args.imageRef)
    ensures Verifies(sha, crypto, Stored(files, dir, first, second), dir, args)
  {
    hide Accepts, Loads;
    var a, s := dir + ["attestation.json"], dir + ["signature.json"];
    assert a[|dir|] != s[|dir|];
  }

  lemma FreshAccepted(sha: Hash, crypto: Crypto, a: Json, s: Json, dir: Path, args: Args)
    requires SignVerifyAgree(crypto) && crypto.keyOk(args.signingKey) && IsImageRef(args.imageRef)
    requires s == SignAttestation(sha, crypto, a, args.signingKey) && a.Obj?
    requires Field(a, "strict_mode") == Some(Bool(true)) && Field(a, "safe_to_sell_broadly_today") == Some(Bool(true))
    requires Field(a, "commit_sha") == Some(Str(args.commitSha))
    requires Field(a, "deployment_id") == Some(Str(args.deploymentId))
    requires Field(a, "image_ref") == Some(Str(args.imageRef))
    requires dir == OutputDir(args.root, args.commitSha, args.deploymentId)
    ensures Accepts(sha, crypto, a, s, dir, args.commitSha, args.deploymentId, args.imageRef)
  {
    SignatureFields(sha, crypto, a, args.signingKey);
    hide Field, Canonical.Encode, IsImageRef;
    assert dir[|dir| - 1] == args.deploymentId && dir[|dir| - 2] == args.commitSha;
  }

  // ---------- what acceptance means ----------

  /** The document names the release, in the place where it belongs. */
  predicate Names(a: Json, dir: Path, commitSha: string, deploymentId: string, imageRef: string) {
    && a.Obj? && Field(a, "strict_mode") == Some(Bool(true))
    && Field(a, "safe_to_sell_broadly_today") == Some(Bool(true))
    && Field(a, "commit_sha") == Some(Str(commitSha)) && Field(a, "deployment_id") == Some(Str(deploymentId))
    && Field(a, "image_ref") == Some(Str(imageRef)) && IsImageRef(imageRef)
    && |dir| >= 2 && dir[|dir| - 1] == deploymentId && dir[|dir| - 2] == commitSha
  }

  /** The public key is taken from the signature file: a document signed with any usable key at all is accepted exactly
      when it names the release. Acceptance says that the documents belong together, not who signed them. */
  lemma {:induction false} AnySignerAccepted(sha: Hash, crypto: Crypto, a: Json, key: string, dir: Path,
                                             commitSha: string, deploymentId: string, imageRef: string)
    requires SignVerifyAgree(crypto) && crypto.keyOk(key)
    ensures Accepts(sha, crypto, a, SignAttestation(sha, crypto, a, key), dir, commitSha, deploymentId, imageRef)
       <==> Names(a, dir, commitSha, deploymentId, imageRef)
  {
    SignatureFields(sha, crypto, a, key);
    hide Field, Canonical.Encode, IsImageRef;
  }

  /** One signature file accepts two attestations only if they are equal up to key order, or their canonical bytes are
      two byte strings with one SHA-256. */
  lemma {:induction false} SignatureBindsAttestation(sha: Hash, crypto: Crypto, a: Json, b: Json, s: Json, dir: Path,
                                                     other: Path, commitSha: string, deploymentId: string,
                                                     imageRef: string, commitSha': string, deploymentId': string,
                                                     imageRef': string)
    requires WellFormed(a) && WellFormed(b)
    requires Accepts(sha, crypto, a, s, dir, commitSha, deploymentId, imageRef)
    requires Accepts(sha, crypto, b, s, other, commitSha', deploymentId', imageRef')
    ensures Canonical.Same(a, b) || Collision(sha, Canonical.Encode(a), Canonical.Encode(b))
  {
    hide Canonical.Encode, Canonical.Same, Field, IsImageRef, WellFormed;
    UnhexHex(sha(Canonical.Encode(a)));
    UnhexHex(sha(Canonical.Encode(b)));
    Canonical.CanonicalDecidesEquality(a, b);
  }
}
