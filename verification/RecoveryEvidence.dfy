/** The campaign that crashes, redelivers and seals the outcome: `src/edge_evidence/recovery.py`. */
module RecoveryEvidence {
  import opened Wrappers
  import opened Libraries
  import opened Events
  import opened Logs
  import opened Ledgers
  import opened Deliveries
  import opened Projection
  import opened Checkpoints
  import opened QualityRules
  import opened Runtimes
  import opened RecoveryCampaigns
  import opened Bundles
  import opened BundleAgreement
  import opened BundleProgram
  import BundleContents

  const SIX_MINUTES: int := 360 * SECOND

  /** `RecoveryCampaignResult`; the metrics are those of the restarted runtime. */
  datatype RecoveryResult = RecoveryResult(
    bundleValid: bool,
    committedBeforeRestart: nat,
    eventCount: nat,
    recoveredStateSha256: string,
    referenceStateSha256: string
  )

  function RecoveryInputs(events: seq<Event>, createdAt: int, seed: int): Inputs
    requires events != []
  {
    Inputs("m6-controlled-recovery", Utc(createdAt), Utc(events[|events| - 1].ingestedAt + SIX_MINUTES),
           DEFAULT_POLICY, [], Some("mqtt-controlled-restart"), Some(seed))
  }

  /** A bundle that tells of this ledger, evaluated six minutes after the last event was first received. */
  ghost predicate SealsRecovery(lib: Library, events: seq<Event>, log: Log, createdAt: int, seed: int, files: Files)
    requires events != []
  {
    exists inputs, c :: BundleContents.Holds(lib, inputs, log, log, files, c)
      && inputs.bundleId == "m6-controlled-recovery" && inputs.createdAt == Utc(createdAt)
      && inputs.asOf == Utc(events[|events| - 1].ingestedAt + 360_000_000)
      && inputs.policy == Policy(60, 60, 3) && inputs.boundary == []
      && inputs.scenario == Some("mqtt-controlled-restart") && inputs.seed == Some(seed)
  }

  lemma RecoveryBundleBuilds(lib: Library, events: seq<Event>, createdAt: int, seed: int, log: Log)
    requires lib.Lawful() && events != [] && LogOk(log)
    ensures var built := Build(lib, RecoveryInputs(events, createdAt, seed), log, log);
            && built.Ok? && Valid(Verify(lib, built.value))
            && SealsRecovery(lib, events, log, createdAt, seed, built.value)
  {
    hide Build, Verify, LogOk, BundleContents.Holds;
    BundleContents.BuiltBundleTells(lib, RecoveryInputs(events, createdAt, seed), log, log);
    var inputs := RecoveryInputs(events, createdAt, seed);
    assert PortableId(inputs.bundleId);
    BuildSucceeds(lib, inputs, log, log);
    BuiltBundleValidIff(lib, inputs, log, log);
  }

  /** `run_recovery_campaign`: however many events and wherever the crash falls, it never finds the
      recovered state different from the reference; its digests are those of documents that tell of the
      recovered ledger, and the bundle it seals tells of that ledger and verifies. */
  method RecoverAndSeal(lib: Library, events: seq<Event>, crashAfter: nat, createdAt: int, seed: int)
    returns (r: Result<RecoveryResult, string>, runtime: MqttIngestionRuntime, files: Files)
    requires lib.Lawful() && LogOk(events) && 1 <= crashAfter < |events|
    ensures r.Ok? && r.value.bundleValid
    ensures r.value.committedBeforeRestart == crashAfter && r.value.eventCount == |events|
    ensures r.value.recoveredStateSha256 == r.value.referenceStateSha256
    ensures fresh(runtime.ledger) && |runtime.ledger.log| == |events|
    ensures forall i | 0 <= i < |events| :: runtime.ledger.log[i] == KeptEvent(events, crashAfter, i)
    ensures exists state :: StateTells(lib, runtime.ledger.log, state)
                            && r.value.recoveredStateSha256 == lib.sha256(lib.encode(state))
    ensures SealsRecovery(lib, events, runtime.ledger.log, createdAt, seed, files)
    ensures runtime.metrics.View() == Counts(|events|, |events| - crashAfter, crashAfter, 0, 0)
  {
    hide LogOk, Stores, StoredRows, StateOf, Build, Verify, BatchLog, StateJson, StateTells, SealsRecovery, KeptEvent;
    var reference, recovered, restarted, committed := RunRecoveryCampaign(lib, events, crashAfter);
    runtime := restarted;
    var expected := Replay(reference);
    var referenceDigest := lib.sha256(lib.encode(StateJson(expected.value)));
    var replayed := Replay(recovered);
    var recoveredDigest := lib.sha256(lib.encode(StateJson(replayed.value)));
    if recoveredDigest != referenceDigest {
      return Err("recovered state does not match uninterrupted reference"), runtime, map[];
    }
    UseValid(recovered);
    ReplayTells(lib, recovered.log);
    RecoveryBundleBuilds(lib, events, createdAt, seed, recovered.log);
    NothingBetween(lib, recovered.log);
    var built := BuildBundle(recovered, RecoveryInputs(events, createdAt, seed), []);
    files := built.value;
    var verification := VerifyBundle(lib, files);
    var count := recovered.Count();
    r := Ok(RecoveryResult(Valid(verification), committed, count, recoveredDigest, referenceDigest));
  }
}
