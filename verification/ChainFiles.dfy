/** The chain file written beside a regenerated proof, read back and validated again. */
module ChainFiles {
  import opened Wrappers
  import opened Json
  import opened LiveEvidence
  import opened EvidenceProofs
  import opened Records
  import Canonical

  /** What the file holds besides the chain's evidence: any values. */
  datatype Stamp = Stamp(
    runId: Json, githubRunId: Json, now: string, checkTime: string, incidentId: Json, responseActionId: Json,
    observedAt: Json, chainId: Json, block: Json)

  /** The names in the file, in order. */
  function Fields(): seq<string> {
    ["evidence_source", "live_evidence_source", "source_type", "run_id", "github_run_id", "generated_at",
     "provider_checked_at", "workspace_id", "target_id", "target_identifier", "target_configured",
     "telemetry_event_id", "detection_event_id", "detection_id", "alert_id", "incident_id", "response_action_id",
     "evidence_package_id", "observed_at", "latest_live_telemetry_at", "chain_id", "block_number", "detection_name",
     "severity", "detector_result", "provider_receipt", "on_chain_activity", "persisted_linkage"]
  }

  /** The values under those names, for the view of a validated chain. */
  function Values(lib: Lib, c: View, x: Stamp): (r: seq<Json>)
    ensures |r| == |Fields()|
  {
    [Str("live"), Str("live_rpc"), Str("rpc_polling"), x.runId, x.githubRunId, Str(x.now),
     Str(x.checkTime), OrNull(c.workspaceId), OrNull(c.targetId), OrNull(c.targetIdentifier), Bool(true),
     Id(lib, c.telemetryId), Id(lib, c.detectionEventId), Id(lib, c.detectionId), Id(lib, c.alertId), x.incidentId,
     x.responseActionId, Id(lib, c.packageId), x.observedAt, x.observedAt, x.chainId, x.block,
     OrNull(c.detectionName), OrNull(c.severity), OrNull(c.detectorResult), OrNull(c.receipt), OrNull(c.activity),
     OrNull(c.linkage)]
  }

  function ChainFile(lib: Lib, c: View, x: Stamp): seq<Member> {
    Record(Fields(), Values(lib, c, x))
  }

  lemma FieldsDistinct()
    ensures Distinct(Fields())
  {
    var names := Fields();
    forall i, j | 0 <= i < j < |names| ensures names[i] != names[j] {
    }
  }

  lemma TargetFields()
    ensures var n := Fields();
      && |n| == 28 && n[0] == "evidence_source" && n[2] == "source_type" && n[7] == "workspace_id"
      && n[8] == "target_id" && n[9] == "target_identifier" && n[10] == "target_configured"
  {
  }

  lemma IdFields()
    ensures var n := Fields();
      && |n| == 28 && n[11] == "telemetry_event_id" && n[12] == "detection_event_id" && n[13] == "detection_id"
      && n[14] == "alert_id" && n[17] == "evidence_package_id"
  {
  }

  lemma EvidenceFields()
    ensures var n := Fields();
      && |n| == 28 && n[22] == "detection_name" && n[23] == "severity" && n[24] == "detector_result"
      && n[25] == "provider_receipt" && n[26] == "on_chain_activity" && n[27] == "persisted_linkage"
  {
  }

  // ---------- the validator's view of the file ----------

  lemma SourceValues(lib: Lib, c: View, x: Stamp)
    ensures var r := Values(lib, c, x);
      |r| == 28 && r[0] == Str("live") && r[2] == Str("rpc_polling") && r[10] == Bool(true)
  {
    hide OrNull, Id;
  }

  lemma FileSource(lib: Lib, c: View, x: Stamp)
    ensures var f := ChainFile(lib, c, x);
      && Get(f, "evidence_source") == Some(Str("live")) && Get(f, "source_type") == Some(Str("rpc_polling"))
      && Get(f, "target_configured") == Some(Bool(true))
  {
    hide Get, OrNull, Id, Distinct, Record, Fields, Values;
    SourceValues(lib, c, x);
    var r := Values(lib, c, x);
    FieldsDistinct();
    TargetFields();
    Lookup(Fields(), r, 0); Lookup(Fields(), r, 2); Lookup(Fields(), r, 10);
  }

  lemma FileTarget(lib: Lib, c: View, x: Stamp)
    ensures var f := ChainFile(lib, c, x);
      && Get(f, "workspace_id") == Some(OrNull(c.workspaceId)) && Get(f, "target_id") == Some(OrNull(c.targetId))
      && Get(f, "target_identifier") == Some(OrNull(c.targetIdentifier))
  {
    hide Get, OrNull, Id, Distinct, Record, Fields;
    var r := Values(lib, c, x);
    FieldsDistinct();
    TargetFields();
    Lookup(Fields(), r, 7); Lookup(Fields(), r, 8); Lookup(Fields(), r, 9);
  }

  lemma FileIds(lib: Lib, c: View, x: Stamp)
    ensures var f := ChainFile(lib, c, x);
      && Get(f, "telemetry_event_id") == Some(Id(lib, c.telemetryId))
      && Get(f, "detection_event_id") == Some(Id(lib, c.detectionEventId))
      && Get(f, "detection_id") == Some(Id(lib, c.detectionId)) && Get(f, "alert_id") == Some(Id(lib, c.alertId))
      && Get(f, "evidence_package_id") == Some(Id(lib, c.packageId))
  {
    hide Get, OrNull, Id, Distinct, Record, Fields;
    var r := Values(lib, c, x);
    FieldsDistinct();
    IdFields();
    Lookup(Fields(), r, 11); Lookup(Fields(), r, 12); Lookup(Fields(), r, 13); Lookup(Fields(), r, 14);
    Lookup(Fields(), r, 17);
  }

  lemma FileEvidence(lib: Lib, c: View, x: Stamp)
    ensures var f := ChainFile(lib, c, x);
      && Get(f, "detection_name") == Some(OrNull(c.detectionName)) && Get(f, "detection_type") == None
      && Get(f, "severity") == Some(OrNull(c.severity)) && Get(f, "detector_result") == Some(OrNull(c.detectorResult))
      && Get(f, "provider_receipt") == Some(OrNull(c.receipt))
      && Get(f, "on_chain_activity") == Some(OrNull(c.activity))
      && Get(f, "persisted_linkage") == Some(OrNull(c.linkage))
  {
    hide Get, OrNull, Id, Distinct, Record, Fields;
    var r := Values(lib, c, x);
    FieldsDistinct();
    EvidenceFields();
    Lookup(Fields(), r, 22); Lookup(Fields(), r, 23); Lookup(Fields(), r, 24); Lookup(Fields(), r, 25);
    Lookup(Fields(), r, 26); Lookup(Fields(), r, 27);
    NoType(r);
  }

  lemma NoType(values: seq<Json>)
    requires |values| == |Fields()|
    ensures Get(Record(Fields(), values), "detection_type") == None
  {
    hide Get, Record, Fields;
    NoTypeIn();
    NoLookup(Fields(), values, "detection_type");
  }

  lemma NoTypeIn()
    ensures "detection_type" !in Fields()
  {
    var names := Fields();
    forall i | 0 <= i < |names| ensures names[i] != "detection_type" {
    }
  }

  lemma FileShows(lib: Lib, v: View, x: Stamp)
    ensures Shows(lib, v, ViewOf(ChainFile(lib, FixedView(lib, v), x)))
  {
    var c := FixedView(lib, v);
    hide Get, ChainFile, OrNull, Id, Receipt, ActivityFixed, Mapping;
    FileSource(lib, c, x);
    FileTarget(lib, c, x);
    FileIds(lib, c, x);
    FileEvidence(lib, c, x);
    OrNullOfSome();
  }

  lemma OrNullOfSome()
    ensures forall w :: OrNull(Some(w)) == w
  {
  }

  /** Validating the chain file succeeds exactly when the chain names its detection. */
  lemma ChainFilePasses(lib: Lib, ms: seq<Member>, x: Stamp)
    requires KeepsLower(lib) && Accepted(lib, ViewOf(ms))
    ensures Validate(lib, Obj(ChainFile(lib, FixedView(lib, ViewOf(ms)), x))).Some?
       <==> Truthy(Get(ms, "detection_name"))
  {
    hide Accepted, ViewOf, Normalize, ChainFile, Get, Truthy, KeepsLower, Shows;
    var v := ViewOf(ms);
    FileShows(lib, v, x);
    ShownAccepted(lib, v, ViewOf(ChainFile(lib, FixedView(lib, v), x)));
    NameInView(ms);
  }

  // ---------- written and read back ----------

  predicate StampWellFormed(x: Stamp) {
    WellFormed(x.runId) && WellFormed(x.githubRunId) && WellFormed(x.incidentId) && WellFormed(x.responseActionId)
    && WellFormed(x.observedAt) && WellFormed(x.chainId) && WellFormed(x.block)
  }

  /** The values of a chain that go into the file. */
  predicate CopiesWellFormed(c: View) {
    WellFormed(OrNull(c.workspaceId)) && WellFormed(OrNull(c.targetId)) && WellFormed(OrNull(c.targetIdentifier))
    && WellFormed(OrNull(c.detectionName)) && WellFormed(OrNull(c.severity)) && WellFormed(OrNull(c.detectorResult))
    && WellFormed(OrNull(c.receipt)) && WellFormed(OrNull(c.activity)) && WellFormed(OrNull(c.linkage))
  }

  lemma GetWellFormed(ms: seq<Member>, name: string)
    requires WellFormed(Obj(ms))
    ensures WellFormed(OrNull(Get(ms, name)))
  {
  }

  lemma {:induction false} SetWellFormed(ms: seq<Member>, name: string, v: Json)
    requires WellFormed(Obj(ms)) && WellFormed(v)
    ensures WellFormed(Obj(Set(ms, name, v)))
    ensures forall m | m in Set(ms, name, v) :: m.name == name || m in ms
  {
    if ms != [] && ms[0].name != name {
      assert WellFormed(Obj(ms[1..]));
      SetWellFormed(ms[1..], name, v);
      var r := Set(ms[1..], name, v);
      forall i | 0 <= i < |r| ensures r[i].name != ms[0].name {
        assert r[i] in r;
      }
    }
  }

  lemma MappingWellFormed(v: Option<Json>)
    requires WellFormed(OrNull(v))
    ensures WellFormed(Obj(Mapping(v)))
  {
    if v.Some? && v.value.Str? {
      Canonical.LoadsWellFormed(v.value.s, KeepLast);
    }
  }

  /** Everything a validated chain holds is well formed, parsed mappings included. */
  lemma FixedWellFormed(lib: Lib, ms: seq<Member>)
    requires WellFormed(Obj(ms))
    ensures CopiesWellFormed(FixedView(lib, ViewOf(ms)))
  {
    hide Get, Set, Mapping, WellFormed, Truthy;
    var v := ViewOf(ms);
    CopiedWellFormed(ms);
    MappingWellFormed(Or(v.receipt, v.receiptData));
    MappingWellFormed(v.activity);
    MappingWellFormed(v.detectorResult);
    MappingWellFormed(v.linkage);
    TextsWellFormed();
    SetWellFormed(Activity(v), "transaction_hash", Str(TransactionHash(lib, v)));
  }

  lemma CopiedWellFormed(ms: seq<Member>)
    requires WellFormed(Obj(ms))
    ensures CopiesWellFormed(ViewOf(ms)) && WellFormed(OrNull(ViewOf(ms).receiptData))
  {
    hide Get, WellFormed;
    GetWellFormed(ms, "workspace_id");
    GetWellFormed(ms, "target_id");
    GetWellFormed(ms, "target_identifier");
    GetWellFormed(ms, "detection_name");
    GetWellFormed(ms, "severity");
    GetWellFormed(ms, "detector_result");
    GetWellFormed(ms, "provider_receipt");
    GetWellFormed(ms, "provider_receipt_data");
    GetWellFormed(ms, "on_chain_activity");
    GetWellFormed(ms, "persisted_linkage");
  }

  lemma ValuesWellFormed(lib: Lib, c: View, x: Stamp)
    requires CopiesWellFormed(c) && StampWellFormed(x)
    ensures forall i | 0 <= i < |Fields()| :: WellFormed(Values(lib, c, x)[i])
  {
    hide WellFormed, OrNull, Text;
    TextsWellFormed();
  }

  lemma TextsWellFormed()
    ensures WellFormed(Bool(true)) && forall s :: WellFormed(Str(s))
  {
  }

  lemma FileWellFormed(lib: Lib, c: View, x: Stamp)
    requires CopiesWellFormed(c) && StampWellFormed(x)
    ensures WellFormed(Obj(ChainFile(lib, c, x)))
  {
    hide Values, Fields, Distinct, WellFormed, CopiesWellFormed, StampWellFormed;
    ValuesWellFormed(lib, c, x);
    FieldsDistinct();
    RecordWellFormed(Fields(), Values(lib, c, x));
  }

  /** What main writes, it accepts again after reading, when the chain names its detection; and only then. */
  lemma {:induction false} ChainFileAccepted(lib: Lib, chain: Json, x: Stamp)
    requires KeepsLower(lib) && Validate(lib, chain).Some? && WellFormed(chain) && StampWellFormed(x)
    ensures var f := Obj(ChainFile(lib, Validated(lib, chain), x)); var text := Put(f, Indented(2), 0, "");
      && Loads(text, KeepLast) == Ok(f)
      && (Validate(lib, Loads(text, KeepLast).value).Some? <==> Truthy(Get(chain.members, "detection_name")))
  {
    hide ChainFile, Normalize, Accepted, ViewOf, Truthy, Get, Put, Loads, KeepsLower, CopiesWellFormed;
    var c := FixedView(lib, ViewOf(chain.members));
    NormalizedView(lib, chain.members);
    FixedWellFormed(lib, chain.members);
    FileWellFormed(lib, c, x);
    LoadsUndoesPut(Obj(ChainFile(lib, c, x)), Indented(2), "", KeepLast);
    ChainFilePasses(lib, chain.members, x);
  }
}
