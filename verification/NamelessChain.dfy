/** An accepted chain that names its detection only by type: the proofs built from it are refused. */
module NamelessChain {
  import opened Wrappers
  import opened Json
  import opened PyText
  import opened LiveEvidence
  import opened EvidenceProofs
  import opened Records

  const RECEIPT: seq<Member> := Record(["receipt_id"], [Str("r")])
  const ACTIVITY_NAMES: seq<string> := ["matched", "tx_hash", "target_identifier"]
  const ACTIVITY: seq<Member> := Record(ACTIVITY_NAMES, [Bool(true), Str("h"), Str("x")])
  const RESULT: seq<Member> := Record(["triggered", "status"], [Bool(true), Str("matched")])
  const LINKAGE_NAMES: seq<string> :=
    ["persisted", "telemetry_event_id", "detection_event_id", "detection_id", "alert_id"]
  const LINKAGE: seq<Member> := Record(LINKAGE_NAMES, [Bool(true), Str("e"), Str("d"), Str("i"), Str("a")])

  const NAMES: seq<string> :=
    ["source", "workspace_id", "target_id", "target_identifier", "telemetry_event_id", "detection_event_id",
     "detection_id", "alert_id", "evidence_package_id", "target_configured", "provider_receipt", "on_chain_activity",
     "detection_type", "severity", "detector_result", "persisted_linkage"]
  const VALUES: seq<Json> :=
    [Str("live_rpc"), Str("w"), Str("t"), Str("x"), Str("e"), Str("d"),
     Str("i"), Str("a"), Str("p"), Bool(true), Obj(RECEIPT), Obj(ACTIVITY),
     Str("drain"), Str("high"), Obj(RESULT), Obj(LINKAGE)]
  const CHAIN: seq<Member> := Record(NAMES, VALUES)

  lemma NamesDistinct()
    ensures Distinct(NAMES)
  {
    forall i, j | 0 <= i < j < |NAMES| ensures NAMES[i] != NAMES[j] {
    }
  }

  // ---------- what the validator looks up ----------

  lemma Absent()
    ensures Get(CHAIN, "evidence_source") == None && Get(CHAIN, "source_type") == None
    ensures Get(CHAIN, "detection_name") == None
  {
    hide Get, Record;
    forall i | 0 <= i < |NAMES|
      ensures NAMES[i] != "evidence_source" && NAMES[i] != "source_type" && NAMES[i] != "detection_name"
    {
    }
    NoLookup(NAMES, VALUES, "evidence_source");
    NoLookup(NAMES, VALUES, "source_type");
    NoLookup(NAMES, VALUES, "detection_name");
  }

  lemma Target()
    ensures Get(CHAIN, "source") == Some(Str("live_rpc")) && Get(CHAIN, "workspace_id") == Some(Str("w"))
    ensures Get(CHAIN, "target_id") == Some(Str("t")) && Get(CHAIN, "target_identifier") == Some(Str("x"))
  {
    hide Get, Record, Distinct;
    NamesDistinct();
    Lookup(NAMES, VALUES, 0); Lookup(NAMES, VALUES, 1); Lookup(NAMES, VALUES, 2); Lookup(NAMES, VALUES, 3);
  }

  lemma Linked()
    ensures Get(CHAIN, "telemetry_event_id") == Some(Str("e")) && Get(CHAIN, "detection_event_id") == Some(Str("d"))
    ensures Get(CHAIN, "detection_id") == Some(Str("i")) && Get(CHAIN, "alert_id") == Some(Str("a"))
    ensures Get(CHAIN, "evidence_package_id") == Some(Str("p"))
  {
    hide Get, Record, Distinct;
    NamesDistinct();
    Lookup(NAMES, VALUES, 4); Lookup(NAMES, VALUES, 5); Lookup(NAMES, VALUES, 6); Lookup(NAMES, VALUES, 7);
    Lookup(NAMES, VALUES, 8);
  }

  lemma Provider()
    ensures Get(CHAIN, "target_configured") == Some(Bool(true))
    ensures Get(CHAIN, "provider_receipt") == Some(Obj(RECEIPT))
    ensures Get(CHAIN, "on_chain_activity") == Some(Obj(ACTIVITY))
  {
    hide Get, Record, Distinct;
    NamesDistinct();
    Lookup(NAMES, VALUES, 9); Lookup(NAMES, VALUES, 10); Lookup(NAMES, VALUES, 11);
  }

  lemma Detector()
    ensures Get(CHAIN, "detection_type") == Some(Str("drain")) && Get(CHAIN, "severity") == Some(Str("high"))
    ensures Get(CHAIN, "detector_result") == Some(Obj(RESULT)) && Get(CHAIN, "persisted_linkage") == Some(Obj(LINKAGE))
  {
    hide Get, Record, Distinct;
    NamesDistinct();
    Lookup(NAMES, VALUES, 12); Lookup(NAMES, VALUES, 13); Lookup(NAMES, VALUES, 14); Lookup(NAMES, VALUES, 15);
  }

  lemma InsideActivity()
    ensures Get(RECEIPT, "receipt_id") == Some(Str("r"))
    ensures Get(ACTIVITY, "matched") == Some(Bool(true)) && Get(ACTIVITY, "transaction_hash") == None
    ensures Get(ACTIVITY, "tx_hash") == Some(Str("h")) && Get(ACTIVITY, "target_identifier") == Some(Str("x"))
  {
    hide Get, Record;
    var values := [Bool(true), Str("h"), Str("x")];
    Lookup(["receipt_id"], [Str("r")], 0);
    Lookup(ACTIVITY_NAMES, values, 0);
    Lookup(ACTIVITY_NAMES, values, 1);
    Lookup(ACTIVITY_NAMES, values, 2);
    NoLookup(ACTIVITY_NAMES, values, "transaction_hash");
  }

  lemma InsideLinkage()
    ensures Get(LINKAGE, "persisted") == Some(Bool(true)) && Get(LINKAGE, "telemetry_event_id") == Some(Str("e"))
    ensures Get(LINKAGE, "detection_event_id") == Some(Str("d")) && Get(LINKAGE, "detection_id") == Some(Str("i"))
    ensures Get(LINKAGE, "alert_id") == Some(Str("a"))
  {
    hide Get, Record;
    var values := [Bool(true), Str("e"), Str("d"), Str("i"), Str("a")];
    Lookup(LINKAGE_NAMES, values, 0);
    Lookup(LINKAGE_NAMES, values, 1);
    Lookup(LINKAGE_NAMES, values, 2);
    Lookup(LINKAGE_NAMES, values, 3);
    Lookup(LINKAGE_NAMES, values, 4);
  }

  /** The view of the chain. */
  const SHOWN: View :=
    View(None, None, Some(Str("live_rpc")), Some(Str("w")), Some(Str("t")), Some(Str("x")), Some(Str("e")),
         Some(Str("d")), Some(Str("i")), Some(Str("a")), Some(Str("p")), Some(Bool(true)), Some(Obj(RECEIPT)), None,
         Some(Obj(ACTIVITY)), None, None, None, Some(Str("drain")), Some(Str("high")), Some(Obj(RESULT)),
         Some(Obj(LINKAGE)))

  lemma NothingElse()
    ensures Get(CHAIN, "provider_receipt_data") == None && Get(CHAIN, "transaction_hash") == None
    ensures Get(CHAIN, "tx_hash") == None
  {
    hide Get, Record;
    forall i | 0 <= i < |NAMES|
      ensures NAMES[i] != "provider_receipt_data" && NAMES[i] != "transaction_hash" && NAMES[i] != "tx_hash"
    {
    }
    NoLookup(NAMES, VALUES, "provider_receipt_data");
    NoLookup(NAMES, VALUES, "transaction_hash");
    NoLookup(NAMES, VALUES, "tx_hash");
  }

  lemma ChainShows()
    ensures ViewOf(CHAIN) == SHOWN
  {
    hide Get, Record;
    Absent();
    NothingElse();
    Target();
    Linked();
    Provider();
    Detector();
  }

  // ---------- the validator accepts it ----------

  /** A lower-case word is its own key. */
  lemma WordKey(lib: Lib, s: string)
    requires KeepsLower(lib) && LowerAscii(s) && s != ""
    ensures Key(lib, Some(Str(s))) == s && Given(lib, Some(Str(s))) && Text(lib, Some(Str(s))) == s
  {
    assert Text(lib, Some(Str(s))) == s;
    assert StripLeft(s) == s && StripRight(s) == s;
  }

  lemma SourceAccepted(lib: Lib)
    requires KeepsLower(lib)
    ensures SourceOk(lib, SHOWN)
  {
    hide KeepsLower, Text, Strip, Record;
    WordKey(lib, "live_rpc");
    NoKey(lib, None);
  }

  lemma IdsAccepted(lib: Lib)
    requires KeepsLower(lib)
    ensures IdsOk(lib, SHOWN)
  {
    hide KeepsLower, Text, Strip, Record;
    WordKey(lib, "w"); WordKey(lib, "t"); WordKey(lib, "x"); WordKey(lib, "e");
    WordKey(lib, "d"); WordKey(lib, "i"); WordKey(lib, "a"); WordKey(lib, "p");
  }

  lemma ActivityAccepted(lib: Lib)
    requires KeepsLower(lib)
    ensures ReceiptOk(Receipt(SHOWN)) && ActivityOk(lib, SHOWN)
  {
    InsideActivity();
    hide Get, KeepsLower, Text, Strip, Key, Record;
    WordKey(lib, "h");
    assert ACTIVITY != [] && RECEIPT != [];
  }

  lemma DetectorAccepted(lib: Lib)
    requires KeepsLower(lib)
    ensures DetectorOk(lib, Some(Str("drain")), Some(Str("high")), RESULT)
  {
    hide KeepsLower, Text, Strip, Key, Record;
    var names, values := ["triggered", "status"], [Bool(true), Str("matched")];
    Lookup(names, values, 0);
    Lookup(names, values, 1);
    hide Get;
    WordKey(lib, "drain");
    WordKey(lib, "high");
    WordKey(lib, "matched");
  }

  lemma LinkageAccepted(lib: Lib)
    ensures LinkageOk(lib, SHOWN)
  {
    InsideLinkage();
    hide Text, Get, Record;
  }

  /** The chain is accepted, and neither proof built from it passes the check. */
  lemma {:induction false} NamelessChainFails(lib: Lib, run: Run)
    requires KeepsLower(lib)
    ensures Validate(lib, Obj(CHAIN)).Some?
    ensures !Passes(lib, Generated(lib, Validated(lib, Obj(CHAIN)), run))
    ensures !Passes(lib, Regenerated(lib, Validated(lib, Obj(CHAIN))))
  {
    hide KeepsLower, Text, Get, ViewOf, SourceOk, IdsOk, ReceiptOk, Receipt, ActivityOk, DetectorOk, LinkageOk,
         Normalize, Passes, Generated, Regenerated, Record;
    SourceAccepted(lib);
    IdsAccepted(lib);
    ActivityAccepted(lib);
    DetectorAccepted(lib);
    LinkageAccepted(lib);
    ChainShows();
    Absent();
    GeneratedProofPasses(lib, Obj(CHAIN), run);
    RegeneratedProofPasses(lib, Obj(CHAIN));
  }
}
