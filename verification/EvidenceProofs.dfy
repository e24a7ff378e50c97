/** The two proof builders and the enterprise check on their output. */
module EvidenceProofs {
  import opened Wrappers
  import opened Json
  import opened PyText
  import opened LiveEvidence

  /** What a run measures besides the chain and the check may read: the block's transaction hash. */
  datatype Run = Run(txHash: Json)

  // ---------- the records of a proof: the fields the check reads ----------

  datatype ChainRecord = ChainRecord(
    telemetryId: Json, detectionEventId: Json, detectionId: Json, alertId: Json, packageId: Json)

  datatype TelemetryRecord = TelemetryRecord(
    sourceType: Json, workspaceId: Json, targetId: Json, targetIdentifier: Json, configured: Json, receipt: Json,
    activity: Json, transactionHash: Option<Json>)

  /** The id of the detection event is not in every builder's detection record. */
  datatype DetectionRecord = DetectionRecord(eventId: Json, name: Json, severity: Json, result: Json)

  datatype PackageRecord = PackageRecord(sourceType: Option<Json>, receipt: Json, activity: Json, linkage: Json)

  datatype Evidence = Evidence(
    source: Json, chain: ChainRecord, telemetry: TelemetryRecord, detection: DetectionRecord, package: PackageRecord)

  // ---------- values taken from an accepted chain ----------

  /** dict.get: a missing key is null in the record. */
  function OrNull(v: Option<Json>): Json {
    if v.Some? then v.value else Null
  }

  /** str(chain[name]) */
  function Id(lib: Lib, v: Option<Json>): Json {
    Str(Text(lib, v))
  }

  /** The chain record, the same in both builders. */
  function ChainOf(lib: Lib, c: View): ChainRecord {
    ChainRecord(Id(lib, c.telemetryId), Id(lib, c.detectionEventId), Id(lib, c.detectionId), Id(lib, c.alertId),
                Id(lib, c.packageId))
  }

  function DetectionOf(lib: Lib, c: View): DetectionRecord {
    DetectionRecord(Id(lib, c.detectionEventId), OrNull(c.detectionName), OrNull(c.severity), OrNull(c.detectorResult))
  }

  /** The ready proof of generate_live_evidence_proof, from the view of the validated chain. */
  function Generated(lib: Lib, c: View, run: Run): Evidence {
    Evidence(
      Str("live"), ChainOf(lib, c),
      TelemetryRecord(Str("rpc_polling"), OrNull(c.workspaceId), OrNull(c.targetId), OrNull(c.targetIdentifier),
                      Bool(true), OrNull(c.receipt), OrNull(c.activity),
                      Some(OrNull(Or(c.transactionHash, Some(run.txHash))))),
      DetectionOf(lib, c),
      PackageRecord(Some(Str("rpc_polling")), OrNull(c.receipt), OrNull(c.activity), OrNull(c.linkage)))
  }

  /** The ready proof of regenerate_live_evidence_proof: the source type is the chain's own. */
  function Regenerated(lib: Lib, c: View): Evidence {
    Evidence(
      Str("live"), ChainOf(lib, c),
      TelemetryRecord(OrNull(c.sourceType), OrNull(c.workspaceId), OrNull(c.targetId), OrNull(c.targetIdentifier),
                      Bool(true), OrNull(c.receipt), OrNull(c.activity), None),
      DetectionOf(lib, c),
      PackageRecord(None, OrNull(c.receipt), OrNull(c.activity), OrNull(c.linkage)))
  }

  // ---------- validate_enterprise_evidence_fields ----------

  /** The candidate chain the check assembles, as the validator will look at it. */
  function Candidate(e: Evidence): View {
    var t := e.telemetry;
    View(Some(e.source), Some(OrNull(Or(Some(t.sourceType), e.package.sourceType))), None,
         Some(t.workspaceId), Some(t.targetId), Some(t.targetIdentifier), Some(e.chain.telemetryId),
         Some(OrNull(Or(Some(e.chain.detectionEventId), Some(e.detection.eventId)))), Some(e.chain.detectionId),
         Some(e.chain.alertId), Some(e.chain.packageId), Some(t.configured),
         Some(OrNull(Or(Some(t.receipt), Some(e.package.receipt)))), None,
         Some(OrNull(Or(Some(t.activity), Some(e.package.activity)))), Some(OrNull(t.transactionHash)), None,
         Some(e.detection.name), None, Some(e.detection.severity), Some(e.detection.result), Some(e.package.linkage))
  }

  /** The check returns no blockers. */
  predicate Passes(lib: Lib, e: Evidence) {
    Accepted(lib, Candidate(e))
  }

  // ---------- lower-case words ----------

  predicate LowerAscii(s: string) {
    forall i | 0 <= i < |s| :: 'a' <= s[i] <= 'z' || s[i] == '_'
  }

  /** str.lower leaves lower-case ASCII letters and underscores alone. */
  ghost predicate KeepsLower(lib: Lib) {
    forall s | LowerAscii(s) :: lib.lower(s) == s
  }

  lemma LiveIsLower(lib: Lib)
    requires KeepsLower(lib)
    ensures Key(lib, Some(Str("live"))) == "live"
  {
    assert LowerAscii("live");
    hide KeepsLower, LowerAscii;
  }

  lemma PollingIsLower(lib: Lib)
    requires KeepsLower(lib)
    ensures Key(lib, Some(Str("rpc_polling"))) == "rpc_polling"
  {
    assert LowerAscii("rpc_polling");
  }

  lemma NoKey(lib: Lib, v: Option<Json>)
    requires KeepsLower(lib) && !Truthy(v)
    ensures Key(lib, v) == ""
  {
    assert LowerAscii("");
  }

  // ---------- a record set that carries a chain presents it again ----------

  /** A live source with a fixed source type, or the chain's own, or none, is a live source. */
  lemma LiveSourceOk(lib: Lib, v: View)
    requires Key(lib, v.evidenceSource) == "live"
    requires Key(lib, v.sourceType) in {"", "rpc_polling"} || Key(lib, v.sourceType) !in NON_LIVE_SOURCE_TYPES
    ensures SourceOk(lib, v)
  {
    hide Key;
  }

  lemma KeptType(lib: Lib, v: View)
    requires SourceOk(lib, v)
    ensures Key(lib, v.sourceType) == "" || Key(lib, v.sourceType) !in NON_LIVE_SOURCE_TYPES
  {
    hide Key;
  }

  lemma KeyOfOrNull(lib: Lib, v: Option<Json>)
    ensures Key(lib, Some(OrNull(v))) == Key(lib, v)
  {
  }

  lemma TextOfTaken(lib: Lib, v: Option<Json>)
    ensures Text(lib, Some(OrNull(v))) == Text(lib, v) && Truthy(Some(OrNull(v))) == Truthy(v)
    ensures Text(lib, Some(Id(lib, v))) == Text(lib, v)
  {
  }

  lemma AcceptedParts(lib: Lib, v: View)
    requires Accepted(lib, v)
    ensures SourceOk(lib, v) && IdsOk(lib, v) && Receipt(v) != [] && Key(lib, v.severity) != ""
  {
    hide SourceOk, IdsOk, ActivityOk, LinkageOk, Key, Receipt;
  }

  lemma ShownSeverity(lib: Lib, v: View)
    requires KeepsLower(lib) && Accepted(lib, v)
    ensures Some(OrNull(v.severity)) == v.severity
  {
    AcceptedParts(lib, v);
    hide Key, Accepted, KeepsLower;
    if v.severity == None {
      NoKey(lib, v.severity);
    }
  }

  lemma ShownName(lib: Lib, v: View)
    requires KeepsLower(lib) && Accepted(lib, v)
    ensures Truthy(v.detectionName)
       <==> DetectorOk(lib, Or(Some(OrNull(v.detectionName)), None), v.severity, Mapping(v.detectorResult))
  {
    hide SourceOk, IdsOk, ReceiptOk, ActivityOk, LinkageOk, Mapping, Text, Receipt, KeepsLower;
    NoKey(lib, None);
  }

  /** A live, configured chain c that shows the ids, the evidence and the detector of v. */
  predicate Shows(lib: Lib, v: View, c: View) {
    && c.evidenceSource == Some(Str("live")) && c.configured == Some(Bool(true))
    && (!Truthy(c.sourceType) || c.sourceType == Some(Str("rpc_polling")) || c.sourceType == Some(OrNull(v.sourceType)))
    && c.workspaceId == Some(OrNull(v.workspaceId)) && c.targetId == Some(OrNull(v.targetId))
    && c.targetIdentifier == Some(OrNull(v.targetIdentifier)) && c.telemetryId == Some(Id(lib, v.telemetryId))
    && c.detectionEventId == Some(Id(lib, v.detectionEventId)) && c.detectionId == Some(Id(lib, v.detectionId))
    && c.alertId == Some(Id(lib, v.alertId)) && c.packageId == Some(Id(lib, v.packageId))
    && c.receipt == Some(Obj(Receipt(v))) && c.activity == Some(Obj(ActivityFixed(lib, v)))
    && c.detectorResult == Some(Obj(Mapping(v.detectorResult))) && c.linkage == Some(Obj(Mapping(v.linkage)))
    && c.severity == Some(OrNull(v.severity)) && c.detectionName == Some(OrNull(v.detectionName))
    && c.detectionType == None
  }

  lemma ShownSource(lib: Lib, v: View, c: View)
    requires KeepsLower(lib) && SourceOk(lib, v) && Shows(lib, v, c)
    ensures SourceOk(lib, c)
  {
    hide Key, SourceOk, KeepsLower, Text, Truthy, OrNull, Id, Receipt, ActivityFixed, Mapping;
    LiveIsLower(lib);
    PollingIsLower(lib);
    KeyOfOrNull(lib, v.sourceType);
    KeptType(lib, v);
    if !Truthy(c.sourceType) { NoKey(lib, c.sourceType); }
    LiveSourceOk(lib, c);
  }

  lemma ShownIds(lib: Lib, v: View, c: View)
    requires Shows(lib, v, c)
    ensures SameIds(lib, v, c)
  {
    hide Text, Truthy, OrNull, Id, Receipt, ActivityFixed, Mapping;
    TextOfTaken(lib, v.workspaceId);
    TextOfTaken(lib, v.targetId);
    TextOfTaken(lib, v.targetIdentifier);
    TextOfTaken(lib, v.telemetryId);
    TextOfTaken(lib, v.detectionEventId);
    TextOfTaken(lib, v.detectionId);
    TextOfTaken(lib, v.alertId);
    TextOfTaken(lib, v.packageId);
  }

  /** What shows an accepted chain is accepted exactly when that chain names its detection. */
  lemma {:induction false} ShownAccepted(lib: Lib, v: View, c: View)
    requires KeepsLower(lib) && Accepted(lib, v) && Shows(lib, v, c)
    ensures Accepted(lib, c) <==> Truthy(v.detectionName)
  {
    AcceptedParts(lib, v);
    hide Accepted, Receipt, Mapping, ActivityFixed, SourceOk, IdsOk, SameIds, KeepsLower, Truthy, DetectorOk, Text, Id;
    ShownSource(lib, v, c);
    ShownIds(lib, v, c);
    ShownSeverity(lib, v);
    PresentedAgain(lib, v, c);
    ShownName(lib, v);
  }

  // ---------- the two builders ----------

  /** The view of the chain the validator returns. */
  function Validated(lib: Lib, chain: Json): View
    requires Validate(lib, chain).Some?
  {
    ViewOf(Validate(lib, chain).value)
  }

  lemma NameInView(ms: seq<Member>)
    ensures ViewOf(ms).detectionName == Get(ms, "detection_name")
  {
    hide Get;
  }

  lemma {:induction false} BuildersShow(lib: Lib, v: View, run: Run)
    requires IdsOk(lib, v) && Receipt(v) != []
    ensures Shows(lib, v, Candidate(Generated(lib, FixedView(lib, v), run)))
    ensures Shows(lib, v, Candidate(Regenerated(lib, FixedView(lib, v))))
  {
    hide Receipt, Mapping, Activity, TransactionHash, Text, Strip;
  }

  /** The ready proof of generate passes the enterprise check exactly when the chain names its detection. */
  lemma {:induction false} GeneratedProofPasses(lib: Lib, chain: Json, run: Run)
    requires KeepsLower(lib) && Validate(lib, chain).Some?
    ensures Passes(lib, Generated(lib, Validated(lib, chain), run)) <==> Truthy(Get(chain.members, "detection_name"))
  {
    hide ViewOf, Normalize, Accepted, KeepsLower, Candidate, Truthy, Get, Generated, Shows, Receipt;
    var v := ViewOf(chain.members);
    NameInView(chain.members);
    NormalizedView(lib, chain.members);
    AcceptedParts(lib, v);
    BuildersShow(lib, v, run);
    ShownAccepted(lib, v, Candidate(Generated(lib, FixedView(lib, v), run)));
  }

  /** The ready proof of regenerate passes under the same condition. */
  lemma {:induction false} RegeneratedProofPasses(lib: Lib, chain: Json)
    requires KeepsLower(lib) && Validate(lib, chain).Some?
    ensures Passes(lib, Regenerated(lib, Validated(lib, chain))) <==> Truthy(Get(chain.members, "detection_name"))
  {
    hide ViewOf, Normalize, Accepted, KeepsLower, Candidate, Truthy, Get, Regenerated, Shows, Receipt;
    var v := ViewOf(chain.members);
    NameInView(chain.members);
    NormalizedView(lib, chain.members);
    AcceptedParts(lib, v);
    BuildersShow(lib, v, Run(Null));
    ShownAccepted(lib, v, Candidate(Regenerated(lib, FixedView(lib, v))));
  }
}
