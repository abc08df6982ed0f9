/** The demonstration bundle of a synthetic campaign: `build_campaign_bundle` in `src/edge_evidence/bundle.py`. */
module CampaignEvidence {
  import opened Wrappers
  import opened JsonValues
  import opened Libraries
  import opened Logs
  import opened Ledgers
  import opened Projection
  import opened Streams
  import opened QualityRules
  import opened Bundles
  import opened BundleAgreement
  import opened BundleProgram
  import BundleContents
  import CampaignMeaning
  import Campaigns

  /** A stream finding as a campaign reports it. */
  function BoundaryFields(f: StreamFinding): Fields {
    map[
      "classifier_version" := Str(CLASSIFIER_VERSION),
      "code" := Str(f.code),
      "event_id" := if f.eventId.Some? then Str(f.eventId.value) else Null,
      "record_index" := Int(f.recordIndex)
    ]
  }

  function BoundaryOf(findings: seq<StreamFinding>): seq<Fields> {
    seq(|findings|, i requires 0 <= i < |findings| => BoundaryFields(findings[i]))
  }

  function ScenarioName(scenario: Campaigns.Scenario): string {
    match scenario
    case Baseline => "baseline"
    case Delayed => "delayed"
    case Duplicate => "duplicate"
    case Reordered => "reordered"
    case Malformed => "malformed"
    case Missing => "missing"
    case Stale => "stale"
    case Frozen => "frozen"
  }

  function CampaignInputs(scenario: Campaigns.Scenario, boundary: seq<StreamFinding>, asOf: int, bundleId: string,
                          createdAt: Instant, seed: int): Inputs
  {
    Inputs(bundleId, createdAt, Utc(asOf), DEFAULT_POLICY, BoundaryOf(boundary), Some(ScenarioName(scenario)),
           Some(seed))
  }

  lemma BoundaryFieldsOk(f: StreamFinding)
    ensures BoundaryOk(BoundaryFields(f)) && Finite(Obj(BoundaryFields(f)))
    ensures "code" in BoundaryFields(f) && BoundaryFields(f)["code"].Str?
  {
  }

  /** The boundary finding a campaign reports for a stream finding. */
  ghost predicate BoundaryTells(d: Fields, f: StreamFinding) {
    && d.Keys == {"classifier_version", "code", "event_id", "record_index"}
    && d["classifier_version"] == Str("1.0") && d["code"] == Str(f.code)
    && d["event_id"] == (if f.eventId.Some? then Str(f.eventId.value) else Null)
    && d["record_index"] == Int(f.recordIndex)
  }

  /** The inputs a campaign's bundle is built with: its scenario's evaluation time, the default thresholds, and
      what the inspector found. */
  ghost predicate InputsTell(scenario: Campaigns.Scenario, log: Log, start: int, boundary: seq<StreamFinding>,
                             bundleId: string, createdAt: Instant, seed: int, inputs: Inputs) {
    && inputs.bundleId == bundleId && inputs.createdAt == createdAt && inputs.policy == Policy(60, 60, 3)
    && inputs.scenario == Some(ScenarioName(scenario)) && inputs.seed == Some(seed)
    && inputs.asOf.Utc? && CampaignMeaning.EvaluatedAt(scenario, log, start, inputs.asOf.micros)
    && |inputs.boundary| == |boundary|
    && forall i | 0 <= i < |boundary| :: BoundaryTells(inputs.boundary[i], boundary[i])
  }

  /** A bundle that tells of the first events of all identities among these records. */
  ghost predicate SealsCampaign(lib: Library, scenario: Campaigns.Scenario, records: seq<Json>, start: int,
                                boundary: seq<StreamFinding>, bundleId: string, createdAt: Instant, seed: int,
                                files: Files) {
    var log := Firsts(EventsIn(lib, records));
    exists inputs, c :: InputsTell(scenario, log, start, boundary, bundleId, createdAt, seed, inputs)
                        && BundleContents.Holds(lib, inputs, log, log, files, c)
  }

  lemma CampaignInputsTell(scenario: Campaigns.Scenario, log: Log, start: int, boundary: seq<StreamFinding>,
                           bundleId: string, createdAt: Instant, seed: int)
    ensures InputsTell(scenario, log, start, boundary, bundleId, createdAt, seed,
              CampaignInputs(scenario, boundary, Campaigns.AsOf(scenario, log, start), bundleId, createdAt, seed))
  {
    hide Campaigns.AsOf, CampaignMeaning.EvaluatedAt, ScenarioName, BoundaryFields, BoundaryTells;
    CampaignMeaning.EvaluationTime(scenario, log, start);
    forall i | 0 <= i < |boundary| ensures BoundaryTells(BoundaryOf(boundary)[i], boundary[i]) {
      BoundaryFieldsTell(boundary[i]);
    }
  }

  lemma BoundaryFieldsTell(f: StreamFinding)
    ensures BoundaryTells(BoundaryFields(f), f)
  {
  }

  /** Whatever the inspector finds, a bundle that carries its findings builds and verifies. */
  lemma InspectedBundleVerifies(lib: Library, scenario: Campaigns.Scenario, boundary: seq<StreamFinding>, asOf: int,
                                bundleId: string, createdAt: Instant, seed: int, log: Log)
    requires lib.Lawful() && LogOk(log) && PortableId(bundleId) && createdAt.Utc?
    ensures var built := Build(lib, CampaignInputs(scenario, boundary, asOf, bundleId, createdAt, seed), log, log);
            built.Ok? && Valid(Verify(lib, built.value))
  {
    hide Build, Verify, LogOk, BoundaryFields, BoundaryOk, Finite, ScenarioName;
    var inputs := CampaignInputs(scenario, boundary, asOf, bundleId, createdAt, seed);
    forall fields: Fields | fields in inputs.boundary
      ensures BoundaryOk(fields) && Finite(Obj(fields)) && "code" in fields && fields["code"].Str?
    {
      var i :| 0 <= i < |boundary| && fields == BoundaryFields(boundary[i]);
      BoundaryFieldsOk(boundary[i]);
    }
    BuildSucceeds(lib, inputs, log, log);
    BuiltBundleValidIff(lib, inputs, log, log);
  }

  /** The bundle of a campaign's ledger: built exactly on a proper id and time, valid, and telling of the
      campaign's records. */
  lemma CampaignBundle(lib: Library, scenario: Campaigns.Scenario, records: seq<Json>, start: int,
                       boundary: seq<StreamFinding>, bundleId: string, createdAt: Instant, seed: int)
    requires lib.Lawful()
    ensures var t := Batch([], EventsIn(lib, records));
            t.Committed? ==>
              var asOf := Campaigns.AsOf(scenario, t.log, start);
              var inputs := CampaignInputs(scenario, boundary, asOf, bundleId, createdAt, seed);
              var built := Build(lib, inputs, t.log, t.log);
              && LogOk(t.log)
              && (built.Ok? <==> PortableId(bundleId) && createdAt.Utc?)
              && (built.Ok? ==> Valid(Verify(lib, built.value))
                                && SealsCampaign(lib, scenario, records, start, boundary, bundleId, createdAt, seed,
                                                 built.value))
  {
    hide LogOk, Build, Verify, StoredRows, Campaigns.AsOf, EventsIn, Batch, PortableId, BundleContents.Holds,
         InputsTell, CampaignInputs, Firsts;
    var t := Batch([], EventsIn(lib, records));
    if t.Committed? {
      var asOf := Campaigns.AsOf(scenario, t.log, start);
      var inputs := CampaignInputs(scenario, boundary, asOf, bundleId, createdAt, seed);
      CampaignMeaning.CommittedIsOk(lib, records);
      Campaigns.FirstsAreCommitted(EventsIn(lib, records));
      CampaignInputsTell(scenario, t.log, start, boundary, bundleId, createdAt, seed);
      BundleContents.BuiltBundleTells(lib, inputs, t.log, t.log);
      if PortableId(bundleId) && createdAt.Utc? {
        InspectedBundleVerifies(lib, scenario, boundary, asOf, bundleId, createdAt, seed, t.log);
      } else {
        InputsAre(scenario, boundary, asOf, bundleId, createdAt, seed);
        BadInputsFail(lib, inputs, t.log);
      }
    }
  }

  lemma InputsAre(scenario: Campaigns.Scenario, boundary: seq<StreamFinding>, asOf: int, bundleId: string,
                  createdAt: Instant, seed: int)
    ensures var inputs := CampaignInputs(scenario, boundary, asOf, bundleId, createdAt, seed);
            inputs.bundleId == bundleId && inputs.createdAt == createdAt
  {
  }

  lemma BadInputsFail(lib: Library, inputs: Inputs, log: Log)
    requires !PortableId(inputs.bundleId) || !inputs.createdAt.Utc?
    ensures Build(lib, inputs, log, log).Err?
  {
  }

  /** `build_campaign_bundle`: it raises exactly when the campaign does, or on a bad id or time; the
      bundle it builds verifies, and tells of the campaign's records. */
  method BuildCampaignBundle(lib: Library, scenario: Campaigns.Scenario, records: seq<Json>, start: int,
                             bundleId: string, createdAt: Instant, seed: int)
    returns (campaign: Result<Campaigns.CampaignResult, LedgerError>, files: Option<Files>)
    requires lib.Lawful()
    ensures campaign == Campaigns.Campaign(lib, scenario, records, start)
    ensures files.Some? <==> campaign.Ok? && PortableId(bundleId) && createdAt.Utc?
    ensures files.Some? ==> Valid(Verify(lib, files.value))
    ensures files.Some? ==> SealsCampaign(lib, scenario, records, start, campaign.value.boundary, bundleId, createdAt,
                                          seed, files.value)
  {
    hide LogOk, Stores, Build, Verify, BatchLog, StoredRows, Campaigns.AsOf, EventsOf, EventsIn, Batch, PortableId,
         BundleContents.Holds, SealsCampaign;
    files := None;
    campaign := Campaigns.RunCampaign(lib, scenario, records, start);
    if campaign.Err? {
      return;
    }
    var ledger := new EventLedger(lib);
    var tally := Campaigns.IngestRecords(ledger, records);
    if tally.Err? {
      return;
    }
    var rows := ledger.ReadEvents();
    var asOf := Campaigns.AsOf(scenario, EventsOf(rows.value), start);
    var inputs := CampaignInputs(scenario, campaign.value.boundary, asOf, bundleId, createdAt, seed);
    ghost var log := ledger.log;
    RowsGiveLog(lib, log);
    CampaignBundle(lib, scenario, records, start, campaign.value.boundary, bundleId, createdAt, seed);
    NothingBetween(lib, log);
    var built := BuildBundle(ledger, inputs, []);
    files := if built.Ok? then Some(built.value) else None;
  }
}
