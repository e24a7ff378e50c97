/** The live-evidence chain validator and the records built from an accepted chain. */
module LiveEvidence {
  import opened Wrappers
  import opened Json
  import opened PyText
  import opened Manifest

  /** Python's str() through Env, and str.lower, left open. */
  datatype Lib = Lib(env: Env, lower: string -> string)

  const LIVE_EVIDENCE_SOURCES: set<string> := {"live", "live_rpc"}
  const NON_LIVE_SOURCE_TYPES: set<string> :=
    {"fixture", "simulator", "guided_simulator", "demo", "static", "historical", "synthetic"}
  const INFORMATIONAL_DETECTION_NAMES: set<string> :=
    {"live_rpc_block_observed", "live_rpc_event_observed", "live_rpc_telemetry_proof", "monitoring_proof",
     "monitoring_proof_chain"}
  const INFORMATIONAL_SEVERITIES: set<string> := {"", "info", "informational", "none"}
  const IDLE_STATUSES: set<string> := {"", "informational", "no_match", "healthy", "ok"}

  // ---------- dictionaries ----------

  function Truthy(v: Option<Json>): bool {
    v.Some? && !Falsy(v.value)
  }

  /** a or b */
  function Or(a: Option<Json>, b: Option<Json>): Option<Json> {
    if Truthy(a) then a else b
  }

  /** str(x or '') */
  function Text(lib: Lib, v: Option<Json>): string {
    if !Truthy(v) then "" else if v.value.Str? then v.value.s else Repr(lib.env, v.value)
  }

  /** str(x or '').strip().lower() */
  function Key(lib: Lib, v: Option<Json>): string {
    lib.lower(Strip(Text(lib, v)))
  }

  /** _normalized_mapping: a dict, or a string that parses to one; anything else is {}. */
  function Mapping(v: Option<Json>): seq<Member> {
    match v
    case Some(Obj(ms)) => ms
    case Some(Str(s)) => (match Loads(s, KeepLast) case Ok(Obj(ms)) => ms case _ => [])
    case _ => []
  }

  /** d[name] = v on a copy of d. */
  function Set(ms: seq<Member>, name: string, v: Json): seq<Member> {
    if ms == [] then [Member(name, v)]
    else if ms[0].name == name then [Member(name, v)] + ms[1..]
    else [ms[0]] + Set(ms[1..], name, v)
  }

  lemma {:induction false} GetSet(ms: seq<Member>, name: string, v: Json, other: string)
    ensures Get(Set(ms, name, v), other) == if other == name then Some(v) else Get(ms, other)
  {
    if ms != [] && ms[0].name != name {
      GetSet(ms[1..], name, v, other);
    }
  }

  lemma {:induction false} SetSame(ms: seq<Member>, name: string, v: Json)
    requires Get(ms, name) == Some(v)
    ensures Set(ms, name, v) == ms
  {
    if ms[0].name != name {
      SetSame(ms[1..], name, v);
      assert Set(ms, name, v) == [ms[0]] + ms[1..];
    } else {
      assert ms[0] == Member(name, v);
      assert Set(ms, name, v) == [ms[0]] + ms[1..];
    }
  }

  // ---------- the validator ----------

  /** Everything the validator looks up in a chain. */
  datatype View = View(
    evidenceSource: Option<Json>, sourceType: Option<Json>, source: Option<Json>,
    workspaceId: Option<Json>, targetId: Option<Json>, targetIdentifier: Option<Json>, telemetryId: Option<Json>,
    detectionEventId: Option<Json>, detectionId: Option<Json>, alertId: Option<Json>, packageId: Option<Json>,
    configured: Option<Json>, receipt: Option<Json>, receiptData: Option<Json>, activity: Option<Json>,
    transactionHash: Option<Json>, txHash: Option<Json>, detectionName: Option<Json>, detectionType: Option<Json>,
    severity: Option<Json>, detectorResult: Option<Json>, linkage: Option<Json>)

  function ViewOf(ms: seq<Member>): View {
    View(Get(ms, "evidence_source"), Get(ms, "source_type"), Get(ms, "source"),
         Get(ms, "workspace_id"), Get(ms, "target_id"), Get(ms, "target_identifier"), Get(ms, "telemetry_event_id"),
         Get(ms, "detection_event_id"), Get(ms, "detection_id"), Get(ms, "alert_id"), Get(ms, "evidence_package_id"),
         Get(ms, "target_configured"), Get(ms, "provider_receipt"), Get(ms, "provider_receipt_data"),
         Get(ms, "on_chain_activity"), Get(ms, "transaction_hash"), Get(ms, "tx_hash"), Get(ms, "detection_name"),
         Get(ms, "detection_type"), Get(ms, "severity"), Get(ms, "detector_result"), Get(ms, "persisted_linkage"))
  }

  predicate SourceOk(lib: Lib, v: View) {
    && (Key(lib, v.evidenceSource) != "" ==> Key(lib, v.evidenceSource) in LIVE_EVIDENCE_SOURCES)
    && (Key(lib, v.sourceType) != "" ==> Key(lib, v.sourceType) !in NON_LIVE_SOURCE_TYPES)
    && (Key(lib, v.evidenceSource) in LIVE_EVIDENCE_SOURCES || Key(lib, v.source) == "live_rpc"
        || Key(lib, v.sourceType) == "rpc_polling")
  }

  predicate Given(lib: Lib, v: Option<Json>) {
    Strip(Text(lib, v)) != ""
  }

  predicate IdsOk(lib: Lib, v: View) {
    && Given(lib, v.workspaceId) && Given(lib, v.targetId) && Given(lib, v.targetIdentifier)
    && Given(lib, v.telemetryId) && Given(lib, v.detectionEventId) && Given(lib, v.detectionId)
    && Given(lib, v.alertId) && Given(lib, v.packageId)
  }

  function Receipt(v: View): seq<Member> {
    Mapping(Or(v.receipt, v.receiptData))
  }

  predicate ReceiptOk(r: seq<Member>) {
    Truthy(Get(r, "receipt_id")) || Truthy(Get(r, "request_id")) || Truthy(Get(r, "response_id"))
    || Truthy(Get(r, "response_hash")) || Truthy(Get(r, "block_hash"))
  }

  function Activity(v: View): seq<Member> {
    Mapping(v.activity)
  }

  function TransactionHash(lib: Lib, v: View): string {
    var a := Activity(v);
    Strip(Text(lib, Or(Get(a, "transaction_hash"), Or(Get(a, "tx_hash"), Or(v.transactionHash, v.txHash)))))
  }

  predicate ActivityOk(lib: Lib, v: View) {
    && Get(Activity(v), "matched") == Some(Bool(true))
    && TransactionHash(lib, v) != ""
    && Key(lib, Get(Activity(v), "target_identifier")) == Key(lib, v.targetIdentifier)
  }

  /** The activity with its transaction hash made explicit. */
  function ActivityFixed(lib: Lib, v: View): seq<Member> {
    Set(Activity(v), "transaction_hash", Str(TransactionHash(lib, v)))
  }

  /** The detector parts of the check, on the name that counts. */
  predicate DetectorOk(lib: Lib, name: Option<Json>, severity: Option<Json>, result: seq<Member>) {
    && Key(lib, name) != "" && Key(lib, name) !in INFORMATIONAL_DETECTION_NAMES
    && Key(lib, severity) !in INFORMATIONAL_SEVERITIES
    && Get(result, "triggered") == Some(Bool(true))
    && Key(lib, Or(Get(result, "status"), Get(result, "detector_status"))) !in IDLE_STATUSES
  }

  predicate LinkageOk(lib: Lib, v: View) {
    var l := Mapping(v.linkage);
    && Get(l, "persisted") == Some(Bool(true))
    && Text(lib, Get(l, "telemetry_event_id")) == Text(lib, v.telemetryId)
    && Text(lib, Get(l, "detection_event_id")) == Text(lib, v.detectionEventId)
    && Text(lib, Get(l, "detection_id")) == Text(lib, v.detectionId)
    && Text(lib, Get(l, "alert_id")) == Text(lib, v.alertId)
  }

  predicate Accepted(lib: Lib, v: View) {
    && SourceOk(lib, v)
    && IdsOk(lib, v)
    && v.configured == Some(Bool(true))
    && ReceiptOk(Receipt(v))
    && ActivityOk(lib, v)
    && DetectorOk(lib, Or(v.detectionName, v.detectionType), v.severity, Mapping(v.detectorResult))
    && LinkageOk(lib, v)
  }

  function Normalize(lib: Lib, ms: seq<Member>): seq<Member> {
    var v := ViewOf(ms);
    var r1 := Set(ms, "provider_receipt", Obj(Receipt(v)));
    var r2 := Set(r1, "on_chain_activity", Obj(ActivityFixed(lib, v)));
    var r3 := Set(r2, "detector_result", Obj(Mapping(v.detectorResult)));
    Set(r3, "persisted_linkage", Obj(Mapping(v.linkage)))
  }

  /** _validated_live_evidence_chain */
  function Validate(lib: Lib, chain: Json): Option<seq<Member>> {
    if chain.Obj? && Accepted(lib, ViewOf(chain.members)) then Some(Normalize(lib, chain.members)) else None
  }

  // ---------- lookups in a normalised chain ----------

  lemma NormalizedGet(lib: Lib, ms: seq<Member>, name: string)
    ensures Get(Normalize(lib, ms), name) ==
      if name == "persisted_linkage" then Some(Obj(Mapping(ViewOf(ms).linkage)))
      else if name == "detector_result" then Some(Obj(Mapping(ViewOf(ms).detectorResult)))
      else if name == "on_chain_activity" then Some(Obj(ActivityFixed(lib, ViewOf(ms))))
      else if name == "provider_receipt" then Some(Obj(Receipt(ViewOf(ms))))
      else Get(ms, name)
  {
    hide ViewOf, Receipt, ActivityFixed, Mapping, Get, Set;
    var v := ViewOf(ms);
    var r1 := Set(ms, "provider_receipt", Obj(Receipt(v)));
    var r2 := Set(r1, "on_chain_activity", Obj(ActivityFixed(lib, v)));
    var r3 := Set(r2, "detector_result", Obj(Mapping(v.detectorResult)));
    GetSet(ms, "provider_receipt", Obj(Receipt(v)), name);
    GetSet(r1, "on_chain_activity", Obj(ActivityFixed(lib, v)), name);
    GetSet(r2, "detector_result", Obj(Mapping(v.detectorResult)), name);
    GetSet(r3, "persisted_linkage", Obj(Mapping(v.linkage)), name);
  }

  /** Every other name keeps its value. */
  lemma NormalizedKeeps(lib: Lib, ms: seq<Member>, name: string)
    requires name != "persisted_linkage" && name != "detector_result" && name != "on_chain_activity"
    requires name != "provider_receipt"
    ensures Get(Normalize(lib, ms), name) == Get(ms, name)
  {
    NormalizedGet(lib, ms, name);
  }

  /** A normalised chain shows the same view, with the four mappings made explicit. */
  function FixedView(lib: Lib, v: View): View {
    v.(receipt := Some(Obj(Receipt(v))), activity := Some(Obj(ActivityFixed(lib, v))),
       detectorResult := Some(Obj(Mapping(v.detectorResult))), linkage := Some(Obj(Mapping(v.linkage))))
  }

  lemma NormalizedIds(lib: Lib, ms: seq<Member>)
    ensures var n := ViewOf(Normalize(lib, ms)); var v := ViewOf(ms);
      && n.workspaceId == v.workspaceId && n.targetId == v.targetId && n.targetIdentifier == v.targetIdentifier
      && n.telemetryId == v.telemetryId && n.detectionEventId == v.detectionEventId && n.detectionId == v.detectionId
      && n.alertId == v.alertId && n.packageId == v.packageId
  {
    hide Normalize, Get;
    NormalizedKeeps(lib, ms, "workspace_id");
    NormalizedKeeps(lib, ms, "target_id");
    NormalizedKeeps(lib, ms, "target_identifier");
    NormalizedKeeps(lib, ms, "telemetry_event_id");
    NormalizedKeeps(lib, ms, "detection_event_id");
    NormalizedKeeps(lib, ms, "detection_id");
    NormalizedKeeps(lib, ms, "alert_id");
    NormalizedKeeps(lib, ms, "evidence_package_id");
  }

  lemma NormalizedOthers(lib: Lib, ms: seq<Member>)
    ensures var n := ViewOf(Normalize(lib, ms)); var v := ViewOf(ms);
      && n.evidenceSource == v.evidenceSource && n.sourceType == v.sourceType && n.source == v.source
      && n.configured == v.configured && n.receiptData == v.receiptData && n.transactionHash == v.transactionHash
      && n.txHash == v.txHash && n.detectionName == v.detectionName && n.detectionType == v.detectionType
      && n.severity == v.severity
  {
    hide Normalize, Get;
    NormalizedKeeps(lib, ms, "evidence_source");
    NormalizedKeeps(lib, ms, "source_type");
    NormalizedKeeps(lib, ms, "source");
    NormalizedKeeps(lib, ms, "target_configured");
    NormalizedKeeps(lib, ms, "provider_receipt_data");
    NormalizedKeeps(lib, ms, "transaction_hash");
    NormalizedKeeps(lib, ms, "tx_hash");
    NormalizedKeeps(lib, ms, "detection_name");
    NormalizedKeeps(lib, ms, "detection_type");
    NormalizedKeeps(lib, ms, "severity");
  }

  lemma NormalizedMappings(lib: Lib, ms: seq<Member>)
    ensures var n := ViewOf(Normalize(lib, ms)); var f := FixedView(lib, ViewOf(ms));
      && n.receipt == f.receipt && n.activity == f.activity
      && n.detectorResult == f.detectorResult && n.linkage == f.linkage
  {
    hide Normalize, Get, Receipt, ActivityFixed, Mapping;
    NormalizedGet(lib, ms, "provider_receipt");
    NormalizedGet(lib, ms, "on_chain_activity");
    NormalizedGet(lib, ms, "detector_result");
    NormalizedGet(lib, ms, "persisted_linkage");
  }

  lemma {:induction false} NormalizedView(lib: Lib, ms: seq<Member>)
    ensures ViewOf(Normalize(lib, ms)) == FixedView(lib, ViewOf(ms))
  {
    hide ViewOf, Normalize, Receipt, ActivityFixed, Mapping;
    NormalizedIds(lib, ms);
    NormalizedOthers(lib, ms);
    NormalizedMappings(lib, ms);
  }

  lemma {:induction false} StripLeftStrips(s: string)
    ensures StripLeft(s) != "" ==> !IsPySpace(StripLeft(s)[0])
  {
    if s != "" && IsPySpace(s[0]) { StripLeftStrips(s[1..]); }
  }

  lemma {:induction false} StripRightStrips(s: string)
    ensures var r := StripRight(s); r <= s && (r != "" ==> !IsPySpace(r[|r| - 1]))
  {
    if s != "" && IsPySpace(s[|s| - 1]) { StripRightStrips(s[..|s| - 1]); }
  }

  lemma StripIdempotent(s: string)
    ensures Strip(Strip(s)) == Strip(s)
  {
    StripLeftStrips(s);
    StripRightStrips(StripLeft(s));
  }

  // ---------- presenting an accepted chain again ----------

  predicate SameIds(lib: Lib, v: View, c: View) {
    && Text(lib, c.workspaceId) == Text(lib, v.workspaceId) && Text(lib, c.targetId) == Text(lib, v.targetId)
    && Text(lib, c.targetIdentifier) == Text(lib, v.targetIdentifier)
    && Text(lib, c.telemetryId) == Text(lib, v.telemetryId)
    && Text(lib, c.detectionEventId) == Text(lib, v.detectionEventId)
    && Text(lib, c.detectionId) == Text(lib, v.detectionId) && Text(lib, c.alertId) == Text(lib, v.alertId)
    && Text(lib, c.packageId) == Text(lib, v.packageId)
  }

  /** c shows the ids and the explicit mappings of v, and passes for a configured live chain. */
  predicate Presents(lib: Lib, v: View, c: View) {
    && SourceOk(lib, c) && SameIds(lib, v, c) && c.configured == Some(Bool(true))
    && c.receipt == Some(Obj(Receipt(v))) && c.activity == Some(Obj(ActivityFixed(lib, v)))
    && c.detectorResult == Some(Obj(Mapping(v.detectorResult))) && c.linkage == Some(Obj(Mapping(v.linkage)))
    && c.severity == v.severity
  }

  lemma PresentedReceipt(v: View, c: View)
    requires ReceiptOk(Receipt(v)) && c.receipt == Some(Obj(Receipt(v)))
    ensures Receipt(c) == Receipt(v)
  {
    assert Receipt(v) != [];
  }

  lemma PresentedActivity(lib: Lib, v: View, c: View)
    requires ActivityOk(lib, v) && c.activity == Some(Obj(ActivityFixed(lib, v)))
    requires Text(lib, c.targetIdentifier) == Text(lib, v.targetIdentifier)
    ensures ActivityOk(lib, c) && TransactionHash(lib, c) == TransactionHash(lib, v)
  {
    var a, h := Activity(v), TransactionHash(lib, v);
    GetSet(a, "transaction_hash", Str(h), "transaction_hash");
    GetSet(a, "transaction_hash", Str(h), "matched");
    GetSet(a, "transaction_hash", Str(h), "target_identifier");
    StripIdempotent(Text(lib, Or(Get(a, "transaction_hash"), Or(Get(a, "tx_hash"), Or(v.transactionHash, v.txHash)))));
    hide Strip, Get, Set;
    assert Activity(c) == Set(a, "transaction_hash", Str(h));
    assert Text(lib, Some(Str(h))) == h;
  }

  lemma PresentedIds(lib: Lib, v: View, c: View)
    requires IdsOk(lib, v) && LinkageOk(lib, v) && SameIds(lib, v, c) && c.linkage == Some(Obj(Mapping(v.linkage)))
    ensures IdsOk(lib, c) && LinkageOk(lib, c)
  {
    hide Text, Strip, Get;
  }

  /** An accepted chain presented again is accepted exactly when the detector name it shows is good. */
  lemma {:induction false} PresentedAgain(lib: Lib, v: View, c: View)
    requires Accepted(lib, v) && Presents(lib, v, c)
    ensures Accepted(lib, c)
       <==> DetectorOk(lib, Or(c.detectionName, c.detectionType), v.severity, Mapping(v.detectorResult))
  {
    hide Receipt, ReceiptOk, ActivityOk, ActivityFixed, TransactionHash, DetectorOk, LinkageOk, IdsOk, SourceOk;
    PresentedReceipt(v, c);
    assert SameIds(lib, v, c);
    PresentedActivity(lib, v, c);
    PresentedIds(lib, v, c);
  }

  // ---------- idempotence ----------

  /** Validating a validated chain gives it back. */
  lemma {:induction false} ValidateIdempotent(lib: Lib, chain: Json)
    requires Validate(lib, chain).Some?
    ensures Validate(lib, Obj(Validate(lib, chain).value)) == Validate(lib, chain)
  {
    var ms := chain.members;
    var v, c := ViewOf(ms), FixedView(lib, ViewOf(ms));
    hide ViewOf, Accepted, Normalize, Receipt, ActivityFixed, Mapping;
    NormalizedView(lib, ms);
    FixedAccepted(lib, v);
    NormalizedFixed(lib, ms);
  }

  lemma FixedAccepted(lib: Lib, v: View)
    requires Accepted(lib, v)
    ensures var c := FixedView(lib, v);
      Accepted(lib, c) && Receipt(c) == Receipt(v) && TransactionHash(lib, c) == TransactionHash(lib, v)
  {
    hide Receipt, ReceiptOk, ActivityOk, ActivityFixed, TransactionHash, DetectorOk, LinkageOk, IdsOk, SourceOk, Text;
    var c := FixedView(lib, v);
    PresentedReceipt(v, c);
    PresentedActivity(lib, v, c);
    SourceOfFixed(lib, v);
    PresentedAgain(lib, v, c);
  }

  lemma SourceOfFixed(lib: Lib, v: View)
    requires SourceOk(lib, v)
    ensures SourceOk(lib, FixedView(lib, v))
  {
  }

  lemma NormalizedFixed(lib: Lib, ms: seq<Member>)
    requires Accepted(lib, ViewOf(ms))
    ensures Normalize(lib, Normalize(lib, ms)) == Normalize(lib, ms)
  {
    hide *;
    var n, v := Normalize(lib, ms), ViewOf(ms);
    NormalizedView(lib, ms);
    FixedMappings(lib, v);
    FixedMembers(lib, ms);
    SetSame(n, "provider_receipt", Obj(Receipt(v)));
    SetSame(n, "on_chain_activity", Obj(ActivityFixed(lib, v)));
    SetSame(n, "detector_result", Obj(Mapping(v.detectorResult)));
    SetSame(n, "persisted_linkage", Obj(Mapping(v.linkage)));
    NormalizeUnfolds(lib, n);
  }

  lemma FixedMappings(lib: Lib, v: View)
    requires Accepted(lib, v)
    ensures var c := FixedView(lib, v);
      && Receipt(c) == Receipt(v) && ActivityFixed(lib, c) == ActivityFixed(lib, v)
      && Mapping(c.detectorResult) == Mapping(v.detectorResult) && Mapping(c.linkage) == Mapping(v.linkage)
  {
    hide Accepted, Receipt, ActivityFixed, TransactionHash;
    FixedAccepted(lib, v);
    ActivityStays(lib, v);
  }

  lemma NormalizeUnfolds(lib: Lib, ms: seq<Member>)
    ensures var v := ViewOf(ms);
      Normalize(lib, ms) == Set(Set(Set(Set(ms, "provider_receipt", Obj(Receipt(v))),
        "on_chain_activity", Obj(ActivityFixed(lib, v))), "detector_result", Obj(Mapping(v.detectorResult))),
        "persisted_linkage", Obj(Mapping(v.linkage)))
  {
  }

  lemma FixedMembers(lib: Lib, ms: seq<Member>)
    ensures var n := Normalize(lib, ms); var v := ViewOf(ms);
      && Get(n, "provider_receipt") == Some(Obj(Receipt(v)))
      && Get(n, "on_chain_activity") == Some(Obj(ActivityFixed(lib, v)))
      && Get(n, "detector_result") == Some(Obj(Mapping(v.detectorResult)))
      && Get(n, "persisted_linkage") == Some(Obj(Mapping(v.linkage)))
  {
    hide Normalize, Get, Receipt, ActivityFixed, Mapping, ViewOf;
    NormalizedGet(lib, ms, "provider_receipt");
    NormalizedGet(lib, ms, "on_chain_activity");
    NormalizedGet(lib, ms, "detector_result");
    NormalizedGet(lib, ms, "persisted_linkage");
  }

  lemma ActivityStays(lib: Lib, v: View)
    requires TransactionHash(lib, FixedView(lib, v)) == TransactionHash(lib, v)
    ensures ActivityFixed(lib, FixedView(lib, v)) == ActivityFixed(lib, v)
  {
    hide TransactionHash, Get, Set;
    var h := Str(TransactionHash(lib, v));
    GetSet(Activity(v), "transaction_hash", h, "transaction_hash");
    SetSame(ActivityFixed(lib, v), "transaction_hash", h);
  }
}
