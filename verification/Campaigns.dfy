/** The synthetic data-quality campaign: `src/edge_evidence/campaign.py`. */
module Campaigns {
  import opened Wrappers
  import opened JsonValues
  import opened Libraries
  import opened Events
  import opened Logs
  import opened Ledgers
  import opened Projection
  import opened Streams
  import opened QualityRules
  import opened QualityEvaluation
  import opened QualityProperties
  import opened FindingIdentity
  import Sorting
  import Text

  datatype Scenario = Baseline | Delayed | Duplicate | Reordered | Malformed | Missing | Stale | Frozen

  datatype CampaignResult = CampaignResult(
    inputCount: nat,
    accepted: nat,
    duplicates: nat,
    invalid: nat,
    detectedCodes: seq<string>,
    boundary: seq<StreamFinding>,
    quality: seq<Finding>
  )

  /** The latest observation, or the simulator's start time for an empty ledger. */
  function LatestObserved(log: Log, start: int): int {
    if log == [] then start
    else if |log| == 1 then log[0].observedAt
    else Streams.Max(LatestObserved(log[..|log| - 1], start), log[|log| - 1].observedAt)
  }

  function AsOf(scenario: Scenario, log: Log, start: int): int {
    LatestObserved(log, start) + (if scenario.Stale? then 120 else 1) * SECOND
  }

  function DetectedCodes(boundary: seq<StreamFinding>, quality: seq<Finding>): seq<string> {
    Text.Sorted((set f | f in boundary :: f.code) + (set f | f in quality :: Code(f.rule)))
  }

  /** What a campaign returns: the conflict that stops ingestion, or the findings and counts. */
  function Campaign(lib: Library, scenario: Scenario, records: seq<Json>,
                    start: int): Result<CampaignResult, LedgerError> {
    EventsInFit(lib, records);
    match Batch([], EventsIn(lib, records))
    case Aborted(conflict) => Err(Conflicting(conflict))
    case Committed(log, receipts) =>
      var boundary := Inspect(lib, 60, records);
      var quality := Evaluate(lib, DEFAULT_POLICY, AsOf(scenario, log, start), StoredRows(lib, log));
      Ok(CampaignResult(|records|, CountAccepted(receipts), |receipts| - CountAccepted(receipts),
                        |records| - |receipts|,
                        DetectedCodes(boundary, quality), boundary, quality))
  }

  lemma EventsInStep(lib: Library, records: seq<Json>, record: Json)
    ensures EventsIn(lib, records + [record])
         == EventsIn(lib, records) + (if FromMapping(lib, record).Ok? then [FromMapping(lib, record).value] else [])
  {
    assert (records + [record])[..|records|] == records;
  }

  lemma {:induction false} EventsInValid(lib: Library, records: seq<Json>)
    ensures AllValid(EventsIn(lib, records))
  {
    if records != [] {
      EventsInValid(lib, records[..|records| - 1]);
      if FromMapping(lib, records[|records| - 1]).Ok? {
        AcceptedIsValid(lib, records[|records| - 1]);
      }
    }
  }

  lemma {:induction false} EventsInFit(lib: Library, records: seq<Json>)
    ensures |EventsIn(lib, records)| <= |records|
  {
    if records != [] {
      EventsInFit(lib, records[..|records| - 1]);
    }
  }

  lemma {:induction false} EventsInPrefix(lib: Library, records: seq<Json>, n: nat)
    requires n <= |records|
    ensures EventsIn(lib, records[..n]) <= EventsIn(lib, records)
  {
    if n == |records| {
      assert records[..n] == records;
    } else {
      var front := records[..|records| - 1];
      assert front[..n] == records[..n];
      EventsInPrefix(lib, front, n);
    }
  }

  lemma CommitStep(log: Log, events: seq<Event>, e: Event)
    requires Batch(log, events).Committed?
    ensures var before, t := Batch(log, events), Batch(log, events + [e]);
            var verdict := Judge(before.log, e);
            && (verdict.Refused? ==> t == Aborted(verdict.conflict))
            && (!verdict.Refused? ==>
                  && t.Committed? && t.log == Append(before.log, e) && |t.receipts| == |before.receipts| + 1
                  && CountAccepted(t.receipts) == CountAccepted(before.receipts) + (if verdict.Fresh? then 1 else 0))
  {
    assert (events + [e])[..|events|] == events;
    var before, t := Batch(log, events), Batch(log, events + [e]);
    if t.Committed? {
      assert t.receipts[..|t.receipts| - 1] == before.receipts;
    }
  }

  lemma AbortsWhole(lib: Library, records: seq<Json>, n: nat)
    requires n <= |records| && Batch([], EventsIn(lib, records[..n])).Aborted?
    ensures Batch([], EventsIn(lib, records)) == Batch([], EventsIn(lib, records[..n]))
  {
    EventsInPrefix(lib, records, n);
    var part, whole := EventsIn(lib, records[..n]), EventsIn(lib, records);
    assert part == whole[..|part|];
    BatchAborts([], whole, |part|);
  }

  /** The counters of the ingestion loop. */
  datatype Tally = Tally(accepted: nat, duplicates: nat, invalid: nat)

  /** What the loop has done after these records. */
  ghost predicate Ingested(lib: Library, records: seq<Json>, log: Log, tally: Tally) {
    var t := Batch([], EventsIn(lib, records));
    && t.Committed? && t.log == log
    && tally.accepted == CountAccepted(t.receipts) && tally.duplicates == |t.receipts| - tally.accepted
    && tally.invalid == |records| - |t.receipts|
  }

  lemma InvalidStep(lib: Library, records: seq<Json>, record: Json, log: Log, tally: Tally)
    requires Ingested(lib, records, log, tally) && FromMapping(lib, record).Err?
    ensures Ingested(lib, records + [record], log, tally.(invalid := tally.invalid + 1))
  {
    hide FromMapping, Batch;
    EventsInStep(lib, records, record);
  }

  lemma IngestStep(lib: Library, records: seq<Json>, record: Json, log: Log, tally: Tally)
    requires Ingested(lib, records, log, tally) && FromMapping(lib, record).Ok?
    ensures var e := FromMapping(lib, record).value;
            var answer := Answer(lib, log, e);
            match answer
            case Err(error) =>
              error.Conflicting? && Batch([], EventsIn(lib, records + [record])) == Aborted(error.conflict)
            case Ok(result) =>
              Ingested(lib, records + [record], Append(log, e),
                if result.status.Accepted? then tally.(accepted := tally.accepted + 1)
                else tally.(duplicates := tally.duplicates + 1))
  {
    hide FromMapping, Batch;
    var e := FromMapping(lib, record).value;
    EventsInStep(lib, records, record);
    CommitStep([], EventsIn(lib, records), e);
    AnswerStatus(lib, log, e);
  }

  lemma NothingIngested(lib: Library)
    ensures Ingested(lib, [], [], Tally(0, 0, 0))
  {
  }

  /** The ingestion loop, stopped by the first conflict. */
  method IngestRecords(ledger: EventLedger, records: seq<Json>) returns (r: Result<Tally, LedgerError>)
    requires ledger.Valid() && ledger.log == []
    modifies ledger
    ensures ledger.Valid()
    ensures r.Ok? ==> Ingested(ledger.lib, records, ledger.log, r.value)
    ensures r.Err? ==> r.error.Conflicting? && Batch([], EventsIn(ledger.lib, records)) == Aborted(r.error.conflict)
  {
    hide FromMapping, Judge, Answer, LogOk, Stores, ValidEvent, Ingested;
    var accepted, duplicates, invalid := 0, 0, 0;
    NothingIngested(ledger.lib);
    for i := 0 to |records|
      invariant ledger.Valid() && Ingested(ledger.lib, records[..i], ledger.log, Tally(accepted, duplicates, invalid))
    {
      var tally := Tally(accepted, duplicates, invalid);
      assert records[..i + 1] == records[..i] + [records[i]];
      match FromMapping(ledger.lib, records[i]) {
        case Err(_) =>
          InvalidStep(ledger.lib, records[..i], records[i], ledger.log, tally);
          invalid := invalid + 1;
        case Ok(event) =>
          AcceptedIsValid(ledger.lib, records[i]);
          IngestStep(ledger.lib, records[..i], records[i], ledger.log, tally);
          var result := ledger.Ingest(Canonicalised(event));
          if result.Err? {
            AbortsWhole(ledger.lib, records, i + 1);
            return Err(result.error);
          }
          if result.value.status.Accepted? {
            accepted := accepted + 1;
          } else {
            duplicates := duplicates + 1;
          }
      }
    }
    assert records[..|records|] == records;
    r := Ok(Tally(accepted, duplicates, invalid));
  }

  /** `run_campaign` on the records of a scenario. */
  method RunCampaign(lib: Library, scenario: Scenario, records: seq<Json>, start: int)
    returns (r: Result<CampaignResult, LedgerError>)
    requires lib.Lawful()
    ensures r == Campaign(lib, scenario, records, start)
  {
    hide Batch, Inspect, LogOk, Stores, Evaluate, StoredRows, DetectedCodes, EventsIn, FinitePayloads, LatestObserved;
    EventsInFit(lib, records);
    var boundary := InspectStream(lib, records, 60);
    var ledger := new EventLedger(lib);
    var tally := IngestRecords(ledger, records);
    if tally.Err? {
      return Err(tally.error);
    }
    var rows := ledger.ReadEvents();
    RowsGiveLog(lib, ledger.log);
    var asOf := AsOf(scenario, EventsOf(rows.value), start);
    UseValid(ledger);
    LedgerPayloadsFinite(lib, ledger.log);
    var quality := EvaluateQuality(lib, rows.value, Utc(asOf), DEFAULT_POLICY);
    r := Ok(CampaignResult(|records|, tally.value.accepted, tally.value.duplicates, tally.value.invalid,
                           DetectedCodes(boundary, quality.value), boundary, quality.value));
  }

  lemma AnswerStatus(lib: Library, log: Log, e: Event)
    ensures var answer, verdict := Answer(lib, log, e), Judge(log, e);
            && (answer.Err? <==> verdict.Refused?)
            && (answer.Err? ==> answer.error == Conflicting(verdict.conflict))
            && (answer.Ok? ==> (answer.value.status.Accepted? <==> verdict.Fresh?))
  {
  }

  // ---- The inspector agrees with the ledger and the evaluator ----

  /** When the ledger takes every valid record, it holds the first event of each identity. */
  lemma {:induction false} FirstsAreCommitted(events: seq<Event>)
    requires Batch([], events).Committed?
    ensures Batch([], events).log == Firsts(events)
  {
    if events != [] {
      var front, e := events[..|events| - 1], events[|events| - 1];
      FirstsAreCommitted(front);
      var before := Firsts(front);
      assert e.eventId in Ids(before) <==> IdIndex(before, e.eventId) < |before| by {
        if e.eventId in Ids(before) {
          var k :| 0 <= k < |before| && before[k].eventId == e.eventId;
        }
      }
    }
  }

  /** A campaign returns exactly when its valid records can share one ledger. */
  lemma CampaignReturnsIff(lib: Library, scenario: Scenario, records: seq<Json>, start: int)
    ensures Campaign(lib, scenario, records, start).Ok?
       <==> PairwiseCompatible(EventsIn(lib, records)) && AllStorable(EventsIn(lib, records))
  {
    hide Evaluate, Inspect, DetectedCodes, StoredRows, Batch;
    EventsInValid(lib, records);
    assert LogOk([]);
    BatchCommitsIff([], EventsIn(lib, records));
    assert [] + EventsIn(lib, records) == EventsIn(lib, records);
  }

  /** The counts of a returned campaign: ingestion counts what the inspector finds, and every record is
      accepted, a duplicate or invalid. */
  lemma CampaignCounts(lib: Library, scenario: Scenario, records: seq<Json>, start: int)
    ensures var campaign := Campaign(lib, scenario, records, start);
            campaign.Ok? ==>
              var r := campaign.value;
              && r.accepted == |Ids(EventsIn(lib, records))|
              && r.duplicates == CountCode(r.boundary, DUPLICATE_EVENT_ID)
              && r.invalid == CountCode(r.boundary, INVALID_EVENT)
              && r.accepted + r.duplicates + r.invalid == r.inputCount == |records|
  {
    hide Evaluate, Inspect, EventsIn, Batch, DetectedCodes, StoredRows;
    if Campaign(lib, scenario, records, start).Ok? {
      var events := EventsIn(lib, records);
      EventsInValid(lib, records);
      BatchCounts([], events);
      FirstsAreCommitted(events);
      RecordsAreClassified(lib, 60, records);
    }
  }

  /** The last event a finding cites: the late one, or the one out of order. */
  ghost function Subjects(findings: seq<Finding>, rule: Rule): set<string> {
    set f | f in findings && f.rule == rule && f.eventIds != [] :: f.eventIds[|f.eventIds| - 1]
  }

  lemma SubjectsSplit(a: seq<Finding>, b: seq<Finding>, rule: Rule)
    ensures Subjects(a + b, rule) == Subjects(a, rule) + Subjects(b, rule)
  {
  }

  lemma OneSubject(lib: Library, rule: Rule, source: string, supporting: seq<StoredEvent>, evidence: Fields,
                   other: Rule)
    requires supporting != []
    ensures Subjects([MakeFinding(lib, rule, source, supporting, evidence)], other)
         == if rule == other then {supporting[|supporting| - 1].event.eventId} else {}
  {
    var f := MakeFinding(lib, rule, source, supporting, evidence);
    assert [f][0] == f;
  }

  lemma OneStored(lib: Library, ordinal: nat, e: Event)
    ensures Stored(lib, ordinal, e).event == e
  {
  }

  lemma StoredEvents(lib: Library, log: Log)
    ensures |StoredRows(lib, log)| == |log| && forall i | 0 <= i < |log| :: StoredRows(lib, log)[i].event == log[i]
  {
  }

  /** Among committed events, `<=` and `<` find the same regressions. */
  lemma LaterRowNotAbove(lib: Library, log: Log, e: Event)
    requires Unique(log + [e])
    ensures RegressionFindings(lib, Highest(StoredRows(lib, log), e.sourceId), Stored(lib, |log| + 1, e)) != []
       <==> NotAbove(log + [e], |log|)
  {
    hide Highest, Stored, RegressionFindings;
    var rows, all := StoredRows(lib, log), log + [e];
    StoredEvents(lib, log);
    assert Stored(lib, |log| + 1, e).event == e by { OneStored(lib, |log| + 1, e); }
    RegressionIff(lib, rows, Stored(lib, |log| + 1, e));
    if NotAbove(all, |log|) {
      var j :| 0 <= j < |log| && all[j].sourceId == e.sourceId && all[j].sourceSequence >= e.sourceSequence;
      assert !SamePosition(all[j], all[|log|]);
      assert rows[j] in rows && rows[j].event == log[j] == all[j];
    }
    if r :| r in rows && r.event.sourceId == e.sourceId && r.event.sourceSequence > e.sourceSequence {
      var j :| 0 <= j < |rows| && rows[j] == r;
      assert all[j] == r.event;
    }
  }

  lemma RowSubjects(lib: Library, policy: Policy, log: Log, e: Event)
    requires Unique(log + [e])
    ensures var found := RowFindings(lib, policy, StoredRows(lib, log), Stored(lib, |log| + 1, e));
            && Subjects(found, SequenceRegression) == (if NotAbove(log + [e], |log|) then {e.eventId} else {})
            && Subjects(found, DelayedArrival)
               == (if e.ingestedAt - e.observedAt > policy.delayThresholdSeconds * SECOND then {e.eventId} else {})
  {
    hide MakeFinding, NotAbove, Highest, StoredRows, Subjects;
    var row, previous := Stored(lib, |log| + 1, e), Highest(StoredRows(lib, log), e.sourceId);
    var delays, regressions := DelayFindings(lib, policy, row), RegressionFindings(lib, previous, row);
    LaterRowNotAbove(lib, log, e);
    NoSubjects(SequenceRegression);
    NoSubjects(DelayedArrival);
    var evidence := map["delay_seconds" := lib.seconds(e.ingestedAt - e.observedAt)];
    OneSubject(lib, DelayedArrival, e.sourceId, [row], evidence, SequenceRegression);
    OneSubject(lib, DelayedArrival, e.sourceId, [row], evidence, DelayedArrival);
    if previous.Some? {
      var sequences := map["current_sequence" := Int(e.sourceSequence),
                           "prior_highest_sequence" := Int(previous.value.event.sourceSequence)];
      OneSubject(lib, SequenceRegression, e.sourceId, [previous.value, row], sequences, SequenceRegression);
      OneSubject(lib, SequenceRegression, e.sourceId, [previous.value, row], sequences, DelayedArrival);
    }
    SubjectsSplit(delays, regressions, SequenceRegression);
    SubjectsSplit(delays, regressions, DelayedArrival);
  }

  lemma NoSubjects(rule: Rule)
    ensures Subjects([], rule) == {}
  {
  }

  lemma {:induction false} AppendSubjects(lib: Library, policy: Policy, log: Log)
    requires Unique(log)
    ensures var found := AppendFindings(lib, policy, StoredRows(lib, log));
            && Subjects(found, SequenceRegression) == OutOfOrder(log)
            && Subjects(found, DelayedArrival) == Late(policy.delayThresholdSeconds, log)
  {
    if log == [] {
      assert StoredRows(lib, log) == [];
    } else {
      hide AppendFindings, RowFindings, Subjects, OutOfOrder, Late, NotAbove;
      var front, e := log[..|log| - 1], log[|log| - 1];
      assert log == front + [e];
      assert StoredRows(lib, log) == StoredRows(lib, front) + [Stored(lib, |log|, e)];
      AppendSubjects(lib, policy, front);
      RowSubjects(lib, policy, front, e);
      AppendStep(lib, policy, StoredRows(lib, front), Stored(lib, |log|, e));
      var before := AppendFindings(lib, policy, StoredRows(lib, front));
      var found := RowFindings(lib, policy, StoredRows(lib, front), Stored(lib, |log|, e));
      SubjectsSplit(before, found, SequenceRegression);
      SubjectsSplit(before, found, DelayedArrival);
      OutOfOrderStep(front, e);
      LateStep(policy.delayThresholdSeconds, front, e);
    }
  }

  lemma NoSourceSubjects(findings: seq<Finding>, ordinals: set<nat>)
    requires Keyed(findings, SOURCE_RULES, ordinals)
    ensures Subjects(findings, SequenceRegression) == {} && Subjects(findings, DelayedArrival) == {}
  {
  }

  lemma SubjectsOfSorted(findings: seq<Finding>, rule: Rule)
    ensures Subjects(Sorting.Sort(ById, findings), rule) == Subjects(findings, rule)
  {
    Sorting.SortMembers(ById, findings);
  }

  /** The evaluator finds regressions and delays of exactly the out-of-order and late events. */
  lemma EvaluationNames(lib: Library, policy: Policy, asOf: int, log: Log)
    requires Unique(log)
    ensures Subjects(Evaluate(lib, policy, asOf, StoredRows(lib, log)), SequenceRegression) == OutOfOrder(log)
    ensures Subjects(Evaluate(lib, policy, asOf, StoredRows(lib, log)), DelayedArrival)
         == Late(policy.delayThresholdSeconds, log)
  {
    hide AppendFindings, AllSourceFindings, Subjects, Keyed, OutOfOrder, Late, StoredRows;
    var rows := StoredRows(lib, log);
    var sources := Text.Sorted(SourceIds(rows));
    var appended, bySource := AppendFindings(lib, policy, rows), AllSourceFindings(lib, policy, asOf, rows, sources);
    AppendSubjects(lib, policy, log);
    LedgerRowsDistinct(lib, log);
    SourcesKeyed(lib, policy, asOf, rows, sources);
    NoSourceSubjects(bySource, OrdinalsFrom(rows, sources));
    SubjectsSplit(appended, bySource, SequenceRegression);
    SubjectsSplit(appended, bySource, DelayedArrival);
    SubjectsOfSorted(AllFindings(lib, policy, asOf, rows), SequenceRegression);
    SubjectsOfSorted(AllFindings(lib, policy, asOf, rows), DelayedArrival);
  }

  /** In a returned campaign the inspector and the evaluator name the same regressed and delayed events. */
  lemma CampaignAgrees(lib: Library, scenario: Scenario, records: seq<Json>, start: int)
    ensures var campaign := Campaign(lib, scenario, records, start);
            campaign.Ok? ==>
              && Named(campaign.value.boundary, SEQUENCE_REGRESSION)
                == Subjects(campaign.value.quality, SequenceRegression)
              && Named(campaign.value.boundary, DELAYED_ARRIVAL) == Subjects(campaign.value.quality, DelayedArrival)
  {
    hide Evaluate, Inspect, EventsIn, Batch, DetectedCodes, StoredRows, Named, Subjects;
    if Campaign(lib, scenario, records, start).Ok? {
      InspectorAgreesWithEvaluator(lib, DEFAULT_POLICY, AsOf(scenario, Batch([], EventsIn(lib, records)).log, start),
                                   records);
    }
  }

  /** The stateless inspector and the ledger-based evaluator name the same regressed and the same
      delayed events, under any one delay threshold. */
  lemma InspectorAgreesWithEvaluator(lib: Library, policy: Policy, asOf: int, records: seq<Json>)
    requires Batch([], EventsIn(lib, records)).Committed?
    ensures var inspected := Inspect(lib, policy.delayThresholdSeconds, records);
            var evaluated := Evaluate(lib, policy, asOf, StoredRows(lib, Batch([], EventsIn(lib, records)).log));
            && Named(inspected, SEQUENCE_REGRESSION) == Subjects(evaluated, SequenceRegression)
            && Named(inspected, DELAYED_ARRIVAL) == Subjects(evaluated, DelayedArrival)
  {
    hide Evaluate, Inspect, Batch, StoredRows, OutOfOrder, Late, Named, Subjects;
    var events := EventsIn(lib, records);
    EventsInValid(lib, records);
    assert LogOk([]);
    BatchRows([], events);
    UseLogOk(Batch([], events).log);
    FirstsAreCommitted(events);
    InspectionNames(lib, policy.delayThresholdSeconds, records);
    EvaluationNames(lib, policy, asOf, Batch([], events).log);
  }
}
