/** What the result of a campaign says of its records (`src/edge_evidence/campaign.py:98-149`). */
module CampaignMeaning {
  import opened JsonValues
  import opened Libraries
  import opened Logs
  import opened Ledgers
  import opened Streams
  import opened QualityRules
  import opened QualityMeaning
  import opened Campaigns
  import Text

  /** The time a campaign is evaluated at: two minutes after the latest observation in the stale scenario, a
      second after it in every other one, and that long after the start time if nothing was committed. */
  ghost predicate EvaluatedAt(scenario: Scenario, log: Log, start: int, asOf: int) {
    var age := if scenario.Stale? then 120_000_000 else 1_000_000;
    if log == [] then asOf == start + age
    else
      && (forall e | e in log :: e.observedAt + age <= asOf)
      && (exists e :: e in log && e.observedAt + age == asOf)
  }

  lemma {:induction false} LatestIsGreatest(log: Log, start: int)
    requires log != []
    ensures forall e | e in log :: e.observedAt <= LatestObserved(log, start)
    ensures exists e :: e in log && e.observedAt == LatestObserved(log, start)
  {
    if |log| == 1 {
      assert log[0] in log;
    } else {
      var front, last := log[..|log| - 1], log[|log| - 1];
      LatestIsGreatest(front, start);
      assert log == front + [last] && last in log;
      var e :| e in front && e.observedAt == LatestObserved(front, start);
      assert e in log;
    }
  }

  lemma EvaluationTime(scenario: Scenario, log: Log, start: int)
    ensures EvaluatedAt(scenario, log, start, AsOf(scenario, log, start))
  {
    if log != [] {
      LatestIsGreatest(log, start);
      var e :| e in log && e.observedAt == LatestObserved(log, start);
    }
  }

  /** The detected codes are those of the two kinds of findings, each once, in code-point order. */
  ghost predicate CodesTell(r: CampaignResult) {
    && (forall i, j | 0 <= i < j < |r.detectedCodes| ::
          Text.Leq(r.detectedCodes[i], r.detectedCodes[j]) && r.detectedCodes[i] != r.detectedCodes[j])
    && forall code :: code in r.detectedCodes
                      <==> ((exists f :: f in r.boundary && f.code == code)
                            || (exists f :: f in r.quality && Code(f.rule) == code))
  }

  lemma CodesAre(boundary: seq<StreamFinding>, quality: seq<Finding>, code: string)
    ensures code in DetectedCodes(boundary, quality)
       <==> (exists f :: f in boundary && f.code == code) || (exists f :: f in quality && Code(f.rule) == code)
  {
  }

  /** A returned campaign: its quality findings say what is so of the first events of all identities, all of
      it and nothing else, at the scenario's evaluation time and under the default thresholds; and its codes
      are those of its findings. */
  ghost predicate CampaignTells(lib: Library, scenario: Scenario, records: seq<Json>, start: int, r: CampaignResult) {
    && CodesTell(r)
    && exists asOf :: EvaluatedAt(scenario, Firsts(EventsIn(lib, records)), start, asOf)
                      && Tell(lib, Policy(60, 60, 3), asOf, Firsts(EventsIn(lib, records)), r.quality)
  }

  lemma ReturnedCampaignTells(lib: Library, scenario: Scenario, records: seq<Json>, start: int)
    ensures var campaign := Campaign(lib, scenario, records, start);
            campaign.Ok? ==> CampaignTells(lib, scenario, records, start, campaign.value)
  {
    hide Evaluate, Inspect, EventsIn, Batch, DetectedCodes, StoredRows, Tell, EvaluatedAt, Firsts, AsOf, Code, LogOk;
    var campaign := Campaign(lib, scenario, records, start);
    if campaign.Ok? {
      var events := EventsIn(lib, records);
      CommittedIsOk(lib, records);
      FirstsAreCommitted(events);
      var log := Batch([], events).log;
      EvaluationTime(scenario, log, start);
      EvaluationTells(lib, DEFAULT_POLICY, AsOf(scenario, log, start), log);
      DetectedAreStrict(campaign.value.boundary, campaign.value.quality);
      forall code { CodesAre(campaign.value.boundary, campaign.value.quality, code); }
    }
  }

  lemma DetectedAreStrict(boundary: seq<StreamFinding>, quality: seq<Finding>)
    ensures var codes := DetectedCodes(boundary, quality);
            forall i, j | 0 <= i < j < |codes| :: Text.Leq(codes[i], codes[j]) && codes[i] != codes[j]
  {
  }

  lemma CommittedIsOk(lib: Library, records: seq<Json>)
    ensures var t := Batch([], EventsIn(lib, records)); t.Committed? ==> LogOk(t.log)
  {
    hide EventsIn, Batch;
    EventsInValid(lib, records);
    EmptyLogOk();
    if Batch([], EventsIn(lib, records)).Committed? {
      BatchRows([], EventsIn(lib, records));
    }
  }
}
