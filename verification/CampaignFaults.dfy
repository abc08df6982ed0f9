/** The faults a campaign injects into baseline records, and that its evaluation detects them:
    `campaign_records` and `run_campaign` in `src/edge_evidence/campaign.py`. */
module CampaignFaults {
  import opened JsonValues
  import opened Libraries
  import opened Events
  import opened Logs
  import opened Ledgers
  import opened Projection
  import opened Streams
  import opened Campaigns
  import opened QualityRules
  import opened QualityProperties
  import opened QualityMeaning
  import HistoricalLedger
  import HistoricalProperties

  /** Records as the generator returns them: objects with a payload. */
  predicate HavePayload(records: seq<Json>) {
    forall r | r in records :: r.Obj? && "payload" in r.fields
  }

  function Pivot(records: seq<Json>): nat {
    |records| / 2
  }

  /** A record with another payload. */
  function Repaid(record: Json, payload: Json): Json
    requires record.Obj?
  {
    Obj(record.fields["payload" := payload])
  }

  /** Baseline records after the campaign's own edit. */
  function Edited(scenario: Scenario, records: seq<Json>): seq<Json>
    requires HavePayload(records) && |records| >= 3
  {
    var p := Pivot(records);
    match scenario
    case Missing => records[..p] + records[p + 1..]
    case Frozen =>
      assert records[p - 1] in records;
      seq(|records|, i requires 0 <= i < |records| =>
        assert records[i] in records;
        if p - 1 <= i <= p + 1 then Repaid(records[i], records[p - 1].fields["payload"]) else records[i])
    case _ => records
  }

  /** The edit in place: pop the pivot, or copy one payload over three neighbours. */
  method EditRecords(scenario: Scenario, generated: seq<Json>) returns (records: seq<Json>)
    requires HavePayload(generated) && |generated| >= 3
    ensures records == Edited(scenario, generated)
  {
    records := generated;
    var pivot := |records| / 2;
    if scenario.Missing? {
      records := records[..pivot] + records[pivot + 1..];
    } else if scenario.Frozen? {
      assert generated[pivot - 1] in generated;
      var repeated := records[pivot - 1].fields["payload"];
      for index := pivot - 1 to pivot + 2
        invariant |records| == |generated|
        invariant forall i | 0 <= i < |records| ::
                    generated[i].Obj?
                    && records[i] == if pivot - 1 <= i < index then Repaid(generated[i], repeated) else generated[i]
      {
        records := records[index := Repaid(records[index], repeated)];
      }
    }
  }

  // ---- Baseline records ----

  /** Events of one source, numbered from zero, observed in that order. */
  ghost predicate Steady(log: Log) {
    && LogOk(log)
    && (forall i | 0 <= i < |log| :: log[i].sourceId == log[0].sourceId && log[i].sourceSequence == i)
    && (forall i, j | 0 <= i < j < |log| :: log[i].observedAt <= log[j].observedAt)
  }

  function Mappings(lib: Library, log: Log): (records: seq<Json>)
    ensures HavePayload(records) && |records| == |log|
  {
    seq(|log|, i requires 0 <= i < |log| => ToMapping(lib, log[i]))
  }

  lemma {:induction false} MappingsValidate(lib: Library, log: Log)
    requires lib.Lawful() && AllValid(log)
    ensures EventsIn(lib, Mappings(lib, log)) == log
  {
    hide FromMapping, ToMapping, ValidEvent;
    if log != [] {
      var front, e := log[..|log| - 1], log[|log| - 1];
      assert e in log;
      MappingsValidate(lib, front);
      MappingRoundTrip(lib, e);
      assert Mappings(lib, log) == Mappings(lib, front) + [ToMapping(lib, e)];
      EventsInStep(lib, Mappings(lib, front), ToMapping(lib, e));
      assert log == front + [e];
    }
  }

  /** A campaign over the mappings of a ledger's events evaluates that ledger. */
  lemma CampaignEvaluates(lib: Library, scenario: Scenario, log: Log, start: int)
    requires lib.Lawful() && LogOk(log)
    ensures var campaign := Campaign(lib, scenario, Mappings(lib, log), start);
            campaign.Ok?
              && campaign.value.quality
                == Evaluate(lib, DEFAULT_POLICY, AsOf(scenario, log, start), StoredRows(lib, log))
  {
    hide Evaluate, Inspect, StoredRows, DetectedCodes, Batch, AsOf, EventsIn, Mappings, AllValid, AllStorable, Unique;
    MappingsValidate(lib, log);
    EmptyLogOk();
    BatchCommitsIff([], log);
    assert [] + log == log;
    UniqueIsCompatible(log);
    assert HistoricalProperties.DistinctEventIds(log) by { UniqueIds(log); }
    HistoricalLedger.AllAccepted(log);
  }

  lemma UniqueIds(log: Log)
    requires Unique(log)
    ensures HistoricalProperties.DistinctEventIds(log)
  {
  }

  // ---- A missing record ----

  function Without(log: Log, p: nat): Log
    requires p < |log|
  {
    log[..p] + log[p + 1..]
  }

  lemma WithoutIsLogOk(log: Log, p: nat)
    requires LogOk(log) && p < |log|
    ensures LogOk(Without(log, p))
  {
    var less := Without(log, p);
    forall i | 0 <= i < |less| ensures less[i] == log[if i < p then i else i + 1] && less[i] in log {
    }
  }

  /** The edited records are those of the ledger without its middle event. */
  lemma MissingRecords(lib: Library, log: Log)
    requires |log| >= 3
    ensures Edited(Missing, Mappings(lib, log)) == Mappings(lib, Without(log, |log| / 2))
  {
    hide ToMapping;
  }

  /** The gap the missing record leaves is detected, with the missing position as its evidence. */
  lemma MissingIsDetected(lib: Library, log: Log, start: int)
    requires lib.Lawful() && Steady(log) && |log| >= 3
    ensures var p := |log| / 2;
            var campaign := Campaign(lib, Missing, Edited(Missing, Mappings(lib, log)), start);
            && campaign.Ok?
            && exists f :: f in campaign.value.quality && f.rule.SequenceGap?
                 && Get(f.evidence, "missing_from") == Get(f.evidence, "missing_to") == Int(p)
                 && f.eventIds == [log[p - 1].eventId, log[p + 1].eventId]
  {
    hide Evaluate, StoredRows, Mappings, LogOk, Campaign, MeansGap, Unique, Without, Gap, Edited, AsOf;
    var p := |log| / 2;
    var less := Without(log, p);
    MissingRecords(lib, log);
    WithoutIsLogOk(log, p);
    CampaignEvaluates(lib, Missing, less, start);
    MissingNeighbours(log, p);
    MissingLeavesGap(log, p);
    UseLogOk(less);
    GapsAreFound(lib, DEFAULT_POLICY, AsOf(Missing, less, start), less, p - 1, p);
    var f :| f in Evaluate(lib, DEFAULT_POLICY, AsOf(Missing, less, start), StoredRows(lib, less))
      && MeansGap(less, f, p - 1, p);
    GapEvidence(less, f, p - 1, p);
  }

  lemma MissingNeighbours(log: Log, p: nat)
    requires 0 < p < |log| - 1
    ensures var less := Without(log, p);
            p < |less| && less[p - 1] == log[p - 1] && less[p] == log[p + 1]
  {
  }

  lemma MissingLeavesGap(log: Log, p: nat)
    requires Steady(log) && 0 < p < |log| - 1
    ensures Gap(Without(log, p), p - 1, p)
  {
    var less := Without(log, p);
    forall e | e in less ensures e.sourceSequence <= p - 1 || p + 1 <= e.sourceSequence {
      var i :| 0 <= i < |less| && less[i] == e;
      assert less[i] == log[if i < p then i else i + 1];
    }
  }

  lemma GapEvidence(log: Log, f: Finding, i: nat, j: nat)
    requires MeansGap(log, f, i, j)
    ensures i < |log| && j < |log| && f.rule.SequenceGap? && f.eventIds == [log[i].eventId, log[j].eventId]
    ensures Get(f.evidence, "missing_from") == Int(log[i].sourceSequence + 1)
    ensures Get(f.evidence, "missing_to") == Int(log[j].sourceSequence - 1)
  {
  }

  // ---- A frozen payload ----

  /** The ledger with one payload over three neighbours. */
  function Freeze(log: Log, p: nat): Log
    requires 0 < p < |log| - 1
  {
    seq(|log|, i requires 0 <= i < |log| =>
      if p - 1 <= i <= p + 1 then log[i].(payload := log[p - 1].payload) else log[i])
  }

  lemma FreezeIsLogOk(log: Log, p: nat)
    requires LogOk(log) && 0 < p < |log| - 1
    ensures LogOk(Freeze(log, p))
  {
    var frozen := Freeze(log, p);
    assert log[p - 1] in log;
    forall i | 0 <= i < |frozen| ensures ValidEvent(frozen[i]) && Storable(frozen[i]) {
      assert log[i] in log;
    }
  }

  lemma RepaidMapping(lib: Library, e: Event, payload: Fields)
    ensures Repaid(ToMapping(lib, e), Obj(payload)) == ToMapping(lib, e.(payload := payload))
    ensures ToFields(lib, e)["payload"] == Obj(e.payload)
  {
  }

  lemma FrozenRecords(lib: Library, log: Log)
    requires |log| >= 3
    ensures Edited(Frozen, Mappings(lib, log)) == Mappings(lib, Freeze(log, |log| / 2))
  {
    hide ToFields, Repaid;
    var p, records := |log| / 2, Mappings(lib, log);
    assert records[p - 1] in records;
    RepaidMapping(lib, log[p - 1], log[p - 1].payload);
    forall i | 0 <= i < |log| ensures Edited(Frozen, records)[i] == Mappings(lib, Freeze(log, p))[i] {
      RepaidMapping(lib, log[i], log[p - 1].payload);
    }
  }

  /** A run of three or more that holds the rows at m, m + 1 and m + 2. */
  predicate Holds(whole: seq<StoredEvent>, m: nat, run: seq<StoredEvent>)
    requires m + 2 < |whole|
  {
    |run| >= 3 && whole[m] in run && whole[m + 1] in run && whole[m + 2] in run
  }

  /** Three neighbours of one payload lie in one maximal run. */
  lemma {:induction false} LongRun(runs: seq<seq<StoredEvent>>, m: nat)
    requires Maximal(runs) && m + 2 < |Concat(runs)|
    requires var whole := Concat(runs);
             whole[m].event.payload == whole[m + 1].event.payload == whole[m + 2].event.payload
    ensures exists run :: run in runs && Holds(Concat(runs), m, run)
  {
    hide Maximal, Holds;
    var front, last := runs[..|runs| - 1], runs[|runs| - 1];
    var before := Concat(front);
    assert Concat(runs) == before + last;
    if m + 2 < |before| {
      FrontIsMaximal(runs);
      assert before[m] == Concat(runs)[m] && before[m + 1] == Concat(runs)[m + 1]
             && before[m + 2] == Concat(runs)[m + 2];
      LongRun(front, m);
      var run :| run in front && Holds(before, m, run);
      HoldsBefore(before, last, m, run);
      assert run in runs;
    } else {
      CutBefore(runs, m);
      HoldsLast(before, last, m);
      assert last in runs;
    }
  }

  lemma HoldsBefore(before: seq<StoredEvent>, last: seq<StoredEvent>, m: nat, run: seq<StoredEvent>)
    requires m + 2 < |before| && Holds(before, m, run)
    ensures Holds(before + last, m, run)
  {
  }

  lemma HoldsLast(before: seq<StoredEvent>, last: seq<StoredEvent>, m: nat)
    requires |before| <= m && m + 2 < |before + last|
    ensures Holds(before + last, m, last)
  {
    var k := m - |before|;
    assert last[k] in last && last[k + 1] in last && last[k + 2] in last;
  }

  lemma FrontIsMaximal(runs: seq<seq<StoredEvent>>)
    requires Maximal(runs) && runs != []
    ensures Maximal(runs[..|runs| - 1])
  {
  }

  /** Equal neighbours do not lie on both sides of the last cut. */
  lemma CutBefore(runs: seq<seq<StoredEvent>>, m: nat)
    requires Maximal(runs) && runs != [] && m + 2 < |Concat(runs)|
    requires |Concat(runs[..|runs| - 1])| <= m + 2
    requires var whole := Concat(runs);
             whole[m].event.payload == whole[m + 1].event.payload == whole[m + 2].event.payload
    ensures m >= |Concat(runs[..|runs| - 1])|
  {
    var whole, last := Concat(runs), runs[|runs| - 1];
    var cut := |Concat(runs[..|runs| - 1])|;
    assert |whole| == cut + |last|;
    LastRunIsSuffix(runs);
    LastRunIsCut(runs);
    assert Uniform(last);
    assert whole[cut] == last[0] && whole[|whole| - 1] == last[|last| - 1];
    assert cut > 0 ==> whole[cut - 1].event.payload != whole[cut].event.payload;
  }

  /** In a steady ledger, production order is append order. */
  lemma SteadyOrder(lib: Library, log: Log)
    requires Steady(log) && log != []
    ensures SameEvents(Produced(StoredRows(lib, log), log[0].sourceId), StoredRows(lib, log))
  {
    hide LogOk, Produced;
    var rows, source := StoredRows(lib, log), log[0].sourceId;
    var ordered := Produced(rows, source);
    UseLogOk(log);
    LedgerRowsDistinct(lib, log);
    ProducedIsStrict(rows, source);
    forall e ensures Has(ordered, e) <==> Has(rows, e) {
      ProducedEvents(lib, log, source, e);
      RowsHaveEvent(lib, log, e);
      if e in log { var i :| 0 <= i < |log| && log[i] == e; }
    }
    StrictOrderIsUnique(ordered, rows);
  }

  lemma RowsHaveEvent(lib: Library, log: Log, e: Event)
    ensures Has(StoredRows(lib, log), e) <==> e in log
  {
    if e in log {
      var i :| 0 <= i < |log| && log[i] == e;
      assert StoredRows(lib, log)[i].event == e;
    }
  }

  lemma FreezeIsSteady(log: Log, p: nat)
    requires Steady(log) && 0 < p < |log| - 1
    ensures Steady(Freeze(log, p))
  {
    FreezeIsLogOk(log, p);
  }

  /** The frozen payload is detected: a finding cites the three records that carry it, and its digest. */
  lemma FrozenIsDetected(lib: Library, log: Log, start: int)
    requires lib.Lawful() && Steady(log) && |log| >= 3
    ensures var p := |log| / 2;
            var campaign := Campaign(lib, Frozen, Edited(Frozen, Mappings(lib, log)), start);
            && campaign.Ok?
            && exists f :: f in campaign.value.quality && f.rule.RepeatedPayload? && |f.eventIds| >= 3
                 && log[p - 1].eventId in f.eventIds && log[p].eventId in f.eventIds && log[p + 1].eventId in f.eventIds
                 && Get(f.evidence, "payload_sha256") == Str(lib.Sha256Text(lib.encodeAscii(Obj(log[p - 1].payload))))
  {
    hide Evaluate, StoredRows, Mappings, LogOk, Campaign, MeansRepeat, Produced, PayloadRuns, SourceIds, Concat,
         Maximal, Freeze, Steady;
    var p := |log| / 2;
    var frozen := Freeze(log, p);
    FrozenRecords(lib, log);
    assert Steady(frozen) && LogOk(frozen) by { FreezeIsSteady(log, p); }
    FrozenEvents(log, p);
    CampaignEvaluates(lib, Frozen, frozen, start);
    SteadyOrder(lib, frozen);
    var source := frozen[0].sourceId;
    var ordered := Produced(StoredRows(lib, frozen), source);
    RunsAreMaximal(ordered);
    FrozenNeighbours(lib, log, p, ordered);
    LongRun(PayloadRuns(ordered), p - 1);
    var run :| run in PayloadRuns(ordered) && Holds(ordered, p - 1, run);
    SourceOfRow(lib, frozen, 0);
    RunsAreFound(lib, DEFAULT_POLICY, AsOf(Frozen, frozen, start), frozen, source, run);
    var f :| f in Evaluate(lib, DEFAULT_POLICY, AsOf(Frozen, frozen, start), StoredRows(lib, frozen))
             && MeansRepeat(lib, DEFAULT_POLICY, frozen, f, run);
    assert Uniform(run) by { RunIsUniform(PayloadRuns(ordered), run); }
    RepeatCites(lib, DEFAULT_POLICY, frozen, f, run, ordered[p - 1]);
    RepeatCites(lib, DEFAULT_POLICY, frozen, f, run, ordered[p]);
    RepeatCites(lib, DEFAULT_POLICY, frozen, f, run, ordered[p + 1]);
  }

  lemma FrozenEvents(log: Log, p: nat)
    requires 0 < p < |log| - 1
    ensures var frozen := Freeze(log, p);
            && |frozen| == |log| && frozen[p - 1] == log[p - 1]
            && frozen[p].eventId == log[p].eventId && frozen[p + 1].eventId == log[p + 1].eventId
  {
  }

  lemma FrozenNeighbours(lib: Library, log: Log, p: nat, ordered: seq<StoredEvent>)
    requires 0 < p < |log| - 1 && SameEvents(ordered, StoredRows(lib, Freeze(log, p)))
    ensures p + 1 < |ordered|
    ensures ordered[p - 1].event.payload == ordered[p].event.payload == ordered[p + 1].event.payload
    ensures forall i | p - 1 <= i <= p + 1 :: ordered[i].event == Freeze(log, p)[i]
  {
  }

  lemma RunIsUniform(runs: seq<seq<StoredEvent>>, run: seq<StoredEvent>)
    requires Maximal(runs) && run in runs
    ensures Uniform(run)
  {
  }

  lemma RepeatCites(lib: Library, policy: Policy, log: Log, f: Finding, run: seq<StoredEvent>, row: StoredEvent)
    requires MeansRepeat(lib, policy, log, f, run) && Uniform(run) && row in run
    ensures f.rule.RepeatedPayload? && |f.eventIds| == |run| && row.event.eventId in f.eventIds
    ensures Get(f.evidence, "payload_sha256") == Str(lib.Sha256Text(lib.encodeAscii(Obj(row.event.payload))))
  {
    var i :| 0 <= i < |run| && run[i] == row;
    assert f.eventIds[i] == row.event.eventId;
  }

  // ---- A stale source ----

  lemma {:induction false} LatestOfSteady(log: Log, start: int)
    requires Steady(log) && log != []
    ensures LatestObserved(log, start) == log[|log| - 1].observedAt
  {
    if |log| > 1 {
      var front := log[..|log| - 1];
      assert Steady(front) by { SteadyFront(log); }
      LatestOfSteady(front, start);
    }
  }

  lemma SteadyFront(log: Log)
    requires Steady(log) && log != []
    ensures Steady(log[..|log| - 1])
  {
    var front := log[..|log| - 1];
    assert forall e | e in front :: e in log;
  }

  /** Evaluated two minutes after its last observation, the source is detected as stale. */
  lemma StaleIsDetected(lib: Library, log: Log, start: int)
    requires lib.Lawful() && Steady(log) && log != []
    ensures var campaign := Campaign(lib, Stale, Mappings(lib, log), start);
            && campaign.Ok?
            && exists f :: f in campaign.value.quality && f.rule.StaleSource? && f.eventIds == [log[|log| - 1].eventId]
  {
    hide Evaluate, StoredRows, Mappings, LogOk, Campaign, MeansStale, LatestObserved, Unique;
    var n, asOf := |log| - 1, AsOf(Stale, log, start);
    CampaignEvaluates(lib, Stale, log, start);
    LatestOfSteady(log, start);
    UseLogOk(log);
    assert IsLatest(log, log[n]);
    StaleSourcesAreFound(lib, DEFAULT_POLICY, asOf, log, n);
    var f :| f in Evaluate(lib, DEFAULT_POLICY, asOf, StoredRows(lib, log))
      && MeansStale(lib, DEFAULT_POLICY, asOf, log, f, n);
    StaleCitesLast(lib, DEFAULT_POLICY, asOf, log, f, n);
  }

  lemma StaleCitesLast(lib: Library, policy: Policy, asOf: int, log: Log, f: Finding, i: nat)
    requires MeansStale(lib, policy, asOf, log, f, i)
    ensures i < |log| && f.rule.StaleSource? && f.eventIds == [log[i].eventId]
  {
  }
}
