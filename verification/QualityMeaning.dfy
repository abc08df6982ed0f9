/** What each quality finding says of the ledger, and that nothing it could say goes unsaid
    (`src/edge_evidence/quality.py`). */
module QualityMeaning {
  import opened JsonValues
  import opened Libraries
  import opened Events
  import opened Logs
  import opened Ledgers
  import opened Projection
  import opened QualityRules
  import opened QualityEvaluation
  import opened QualityProperties
  import Sorting
  import Text

  // ---- Meanings, in terms of committed events alone ----

  predicate CitesOne(log: Log, f: Finding, i: nat)
    requires i < |log|
  {
    f.sourceId == log[i].sourceId && f.ordinals == [i + 1] && f.eventIds == [log[i].eventId]
  }

  predicate CitesTwo(log: Log, f: Finding, i: nat, j: nat)
    requires i < |log| && j < |log|
  {
    && f.sourceId == log[i].sourceId == log[j].sourceId
    && f.ordinals == [i + 1, j + 1] && f.eventIds == [log[i].eventId, log[j].eventId]
  }

  /** DQ-001: event i arrived later than the policy allows. */
  predicate MeansDelay(lib: Library, policy: Policy, log: Log, f: Finding, i: nat) {
    && f.rule.DelayedArrival? && i < |log| && CitesOne(log, f, i) && Delayed(policy, log[i])
    && Get(f.evidence, "delay_seconds") == lib.seconds(log[i].ingestedAt - log[i].observedAt)
  }

  /** DQ-003: event j came after event i, which no earlier event of the source exceeds, and is below it. */
  ghost predicate MeansRegression(log: Log, f: Finding, i: nat, j: nat) {
    && f.rule.SequenceRegression? && i < j < |log| && CitesTwo(log, f, i, j)
    && log[j].sourceSequence < log[i].sourceSequence
    && (forall k | 0 <= k < j && log[k].sourceId == log[j].sourceId :: log[k].sourceSequence <= log[i].sourceSequence)
    && Get(f.evidence, "current_sequence") == Int(log[j].sourceSequence)
    && Get(f.evidence, "prior_highest_sequence") == Int(log[i].sourceSequence)
  }

  /** Nothing of the source lies between events i and j, and something is missing there. */
  ghost predicate Gap(log: Log, i: nat, j: nat) {
    && i < |log| && j < |log| && log[i].sourceId == log[j].sourceId
    && log[i].sourceSequence + 1 < log[j].sourceSequence
    && forall e | e in log && e.sourceId == log[i].sourceId ::
         e.sourceSequence <= log[i].sourceSequence || log[j].sourceSequence <= e.sourceSequence
  }

  /** DQ-002: every position from `missing_from` to `missing_to`, between events i and j, is missing. */
  ghost predicate MeansGap(log: Log, f: Finding, i: nat, j: nat) {
    && f.rule.SequenceGap? && Gap(log, i, j) && CitesTwo(log, f, i, j)
    && Get(f.evidence, "missing_from") == Int(log[i].sourceSequence + 1)
    && Get(f.evidence, "missing_to") == Int(log[j].sourceSequence - 1)
    && Get(f.evidence, "missing_count") == Int(log[j].sourceSequence - log[i].sourceSequence - 1)
  }

  /** DQ-004: a maximal run of one payload, in production order, reaches the policy's length. */
  ghost predicate MeansRepeat(lib: Library, policy: Policy, log: Log, f: Finding, run: seq<StoredEvent>) {
    && f.rule.RepeatedPayload? && run in PayloadRuns(Produced(StoredRows(lib, log), f.sourceId))
    && run != [] && |run| >= policy.frozenRunLength
    && f.ordinals == OrdinalsOf(run) && f.eventIds == IdsOf(run)
    && Get(f.evidence, "run_length") == Int(|run|)
    && Get(f.evidence, "payload_sha256") == Str(lib.Sha256Text(lib.encodeAscii(Obj(run[0].event.payload))))
  }

  /** DQ-005: event i is the latest of its source and older than the policy allows. */
  ghost predicate MeansStale(lib: Library, policy: Policy, asOf: int, log: Log, f: Finding, i: nat) {
    && f.rule.StaleSource? && i < |log| && CitesOne(log, f, i) && IsLatest(log, log[i])
    && asOf - log[i].observedAt > policy.staleAfterSeconds * SECOND
    && Get(f.evidence, "age_seconds") == lib.seconds(asOf - log[i].observedAt)
  }

  ghost predicate Means(lib: Library, policy: Policy, asOf: int, log: Log, f: Finding) {
    match f.rule
    case DelayedArrival => exists i :: MeansDelay(lib, policy, log, f, i)
    case SequenceRegression => exists i, j :: MeansRegression(log, f, i, j)
    case SequenceGap => exists i, j :: MeansGap(log, f, i, j)
    case RepeatedPayload => exists run :: MeansRepeat(lib, policy, log, f, run)
    case StaleSource => exists i :: MeansStale(lib, policy, asOf, log, f, i)
  }

  // ---- Rows and findings ----

  lemma RowAt(lib: Library, log: Log, r: StoredEvent)
    requires r in StoredRows(lib, log)
    ensures 1 <= r.ordinal <= |log| && r.event == log[r.ordinal - 1] && r == StoredRows(lib, log)[r.ordinal - 1]
  {
  }

  lemma {:induction false} AppendMembers(lib: Library, policy: Policy, rows: seq<StoredEvent>, n: nat)
    requires n <= |rows|
    ensures forall f :: f in AppendFindings(lib, policy, rows[..n])
              <==> exists k :: 0 <= k < n && f in RowFindings(lib, policy, rows[..k], rows[k])
  {
    hide RowFindings;
    if n > 0 {
      AppendMembers(lib, policy, rows, n - 1);
      assert rows[..n] == rows[..n - 1] + [rows[n - 1]];
      AppendStep(lib, policy, rows[..n - 1], rows[n - 1]);
    }
  }

  lemma {:induction false} SourceMembers(lib: Library, policy: Policy, asOf: int, rows: seq<StoredEvent>,
                                         sources: seq<string>)
    ensures forall f :: f in AllSourceFindings(lib, policy, asOf, rows, sources)
              <==> exists s :: s in sources && f in SourceFindings(lib, policy, asOf, s, Produced(rows, s))
  {
    hide SourceFindings, Produced;
    if sources != [] {
      var front, source := sources[..|sources| - 1], sources[|sources| - 1];
      SourceMembers(lib, policy, asOf, rows, front);
      assert sources == front + [source];
      SourceStep(lib, policy, asOf, rows, front, source);
    }
  }

  ghost predicate FromRow(lib: Library, policy: Policy, rows: seq<StoredEvent>, f: Finding, k: nat) {
    k < |rows| && f in RowFindings(lib, policy, rows[..k], rows[k])
  }

  ghost predicate FromSource(lib: Library, policy: Policy, asOf: int, rows: seq<StoredEvent>, f: Finding,
                             source: string) {
    source in SourceIds(rows) && f in SourceFindings(lib, policy, asOf, source, Produced(rows, source))
  }

  /** A finding of the evaluation comes from one row, or from one source. */
  lemma EvaluatedFrom(lib: Library, policy: Policy, asOf: int, rows: seq<StoredEvent>, f: Finding)
    ensures f in Evaluate(lib, policy, asOf, rows)
       <==> (exists k :: FromRow(lib, policy, rows, f, k)) || (exists s :: FromSource(lib, policy, asOf, rows, f, s))
  {
    hide AppendFindings, AllSourceFindings, RowFindings, SourceFindings, Produced, SourceIds;
    var sources := Text.Sorted(SourceIds(rows));
    assert rows[..|rows|] == rows;
    AppendMembers(lib, policy, rows, |rows|);
    SourceMembers(lib, policy, asOf, rows, sources);
    Sorting.SortMembers(ById, AllFindings(lib, policy, asOf, rows));
    if f in AppendFindings(lib, policy, rows) {
      var k :| 0 <= k < |rows| && f in RowFindings(lib, policy, rows[..k], rows[k]);
      assert FromRow(lib, policy, rows, f, k);
    }
    if f in AllSourceFindings(lib, policy, asOf, rows, sources) {
      var s :| s in sources && f in SourceFindings(lib, policy, asOf, s, Produced(rows, s));
      assert FromSource(lib, policy, asOf, rows, f, s);
    }
  }

  // ---- Delays and regressions ----

  lemma OneCited(lib: Library, log: Log, rule: Rule, evidence: Fields, i: nat)
    requires i < |log|
    ensures var f := MakeFinding(lib, rule, log[i].sourceId, [Stored(lib, i + 1, log[i])], evidence);
            CitesOne(log, f, i) && f.rule == rule && f.evidence == evidence
  {
  }

  lemma TwoCited(lib: Library, log: Log, rule: Rule, evidence: Fields, i: nat, j: nat)
    requires i < |log| && j < |log| && log[i].sourceId == log[j].sourceId
    ensures var f :=
            MakeFinding(lib, rule, log[i].sourceId, [Stored(lib, i + 1, log[i]), Stored(lib, j + 1, log[j])], evidence);
            CitesTwo(log, f, i, j) && f.rule == rule && f.evidence == evidence
  {
  }

  lemma DelayMeans(lib: Library, policy: Policy, log: Log, k: nat)
    requires k < |log|
    ensures forall f :: f in DelayFindings(lib, policy, StoredRows(lib, log)[k]) ==> MeansDelay(lib, policy, log, f, k)
    ensures Delayed(policy, log[k]) ==> exists f :: f in DelayFindings(lib, policy, StoredRows(lib, log)[k])
  {
    hide MakeFinding;
    var row, e := StoredRows(lib, log)[k], log[k];
    OneCited(lib, log, DelayedArrival, map["delay_seconds" := lib.seconds(e.ingestedAt - e.observedAt)], k);
    if Delayed(policy, e) {
      assert DelayFindings(lib, policy, row)[0] in DelayFindings(lib, policy, row);
    }
  }

  lemma RowsBefore(lib: Library, log: Log, k: nat)
    requires k <= |log|
    ensures |StoredRows(lib, log)| == |log|
    ensures forall n | 0 <= n < k ::
            StoredRows(lib, log)[..k][n] == Stored(lib, n + 1, log[n]) && Stored(lib, n + 1, log[n]).event == log[n]
  {
  }

  lemma HighestRow(lib: Library, log: Log, k: nat) returns (i: nat)
    requires k < |log| && Highest(StoredRows(lib, log)[..k], log[k].sourceId).Some?
    ensures i < k && log[i].sourceId == log[k].sourceId
    ensures Highest(StoredRows(lib, log)[..k], log[k].sourceId).value == Stored(lib, i + 1, log[i])
    ensures forall n | 0 <= n < k && log[n].sourceId == log[k].sourceId ::
            log[n].sourceSequence <= log[i].sourceSequence
  {
    hide Highest, StoredRows, Stored;
    var source := log[k].sourceId;
    RowsBefore(lib, log, k);
    var before := StoredRows(lib, log)[..k];
    HighestIsMaximum(before, source);
    var h := Highest(before, source).value;
    i :| 0 <= i < |before| && before[i] == h;
    forall n | 0 <= n < k && log[n].sourceId == source ensures log[n].sourceSequence <= log[i].sourceSequence {
      assert before[n] in before && before[n].event == log[n];
    }
  }

  lemma RegressionMeans(lib: Library, log: Log, k: nat, f: Finding)
    requires k < |log|
    requires f in RegressionFindings(lib, Highest(StoredRows(lib, log)[..k], log[k].sourceId), StoredRows(lib, log)[k])
    ensures exists i, j :: MeansRegression(log, f, i, j)
  {
    hide MakeFinding, Highest;
    var i := HighestRow(lib, log, k);
    TwoCited(lib, log, SequenceRegression,
             map["current_sequence" := Int(log[k].sourceSequence),
                 "prior_highest_sequence" := Int(log[i].sourceSequence)], i, k);
    assert MeansRegression(log, f, i, k);
  }

  lemma RowMeans(lib: Library, policy: Policy, asOf: int, log: Log, f: Finding, k: nat)
    requires FromRow(lib, policy, StoredRows(lib, log), f, k)
    ensures Means(lib, policy, asOf, log, f)
  {
    hide DelayFindings, RegressionFindings, MeansDelay, MeansRegression, Highest;
    var rows := StoredRows(lib, log);
    if f in DelayFindings(lib, policy, rows[k]) {
      DelayMeans(lib, policy, log, k);
      assert f.rule.DelayedArrival? by { DelayIsDelay(lib, policy, log, f, k); }
    } else {
      RegressionMeans(lib, log, k, f);
      var i, j :| MeansRegression(log, f, i, j);
      assert f.rule.SequenceRegression? by { RegressionIsRegression(log, f, i, j); }
    }
  }

  lemma DelayIsDelay(lib: Library, policy: Policy, log: Log, f: Finding, i: nat)
    requires MeansDelay(lib, policy, log, f, i)
    ensures f.rule.DelayedArrival?
  {
  }

  lemma RegressionIsRegression(log: Log, f: Finding, i: nat, j: nat)
    requires MeansRegression(log, f, i, j)
    ensures f.rule.SequenceRegression?
  {
  }

  // ---- Gaps ----

  lemma {:induction false} GapPairsAre(ordered: seq<StoredEvent>)
    ensures forall p :: p in GapPairs(ordered)
              <==> exists m ::
                0 < m < |ordered| && Missing(ordered[m - 1], ordered[m]) > 0 && p == (ordered[m - 1], ordered[m])
  {
    if |ordered| >= 2 {
      var front, n := ordered[..|ordered| - 1], |ordered| - 1;
      GapPairsAre(front);
      GapPairsStep(ordered);
      hide GapPairs, Missing;
      forall p ensures p in GapPairs(ordered)
                  <==> exists m ::
                    0 < m < |ordered| && Missing(ordered[m - 1], ordered[m]) > 0 && p == (ordered[m - 1], ordered[m]) {
        if p in GapPairs(front) {
          var m :| 0 < m < |front| && Missing(front[m - 1], front[m]) > 0 && p == (front[m - 1], front[m]);
          assert ordered[m - 1] == front[m - 1] && ordered[m] == front[m];
        }
        if m :| 0 < m < |ordered| && Missing(ordered[m - 1], ordered[m]) > 0 && p == (ordered[m - 1], ordered[m]) {
          if m < n {
            assert ordered[m - 1] == front[m - 1] && ordered[m] == front[m];
          }
        }
      }
    }
  }

  lemma NothingBetween(lib: Library, log: Log, source: string, m: nat)
    requires Unique(log) && 0 < m < |Produced(StoredRows(lib, log), source)|
    ensures var ordered := Produced(StoredRows(lib, log), source);
            && ordered[m - 1].event.sourceSequence < ordered[m].event.sourceSequence
            && forall e | e in log && e.sourceId == source ::
                 e.sourceSequence <= ordered[m - 1].event.sourceSequence
                   || ordered[m].event.sourceSequence <= e.sourceSequence
  {
    hide StoredRows, Produced, Unique;
    var ordered := Produced(StoredRows(lib, log), source);
    LedgerRowsDistinct(lib, log);
    ProducedIsStrict(StoredRows(lib, log), source);
    forall e | e in log && e.sourceId == source
      ensures e.sourceSequence <= ordered[m - 1].event.sourceSequence
              || ordered[m].event.sourceSequence <= e.sourceSequence
    {
      ProducedEvents(lib, log, source, e);
      var i :| 0 <= i < |ordered| && ordered[i].event == e;
      assert i < m - 1 ==> ordered[i].event.sourceSequence < ordered[m - 1].event.sourceSequence;
      assert i > m ==> ordered[m].event.sourceSequence < ordered[i].event.sourceSequence;
    }
  }

  /** A row in production order is a row of the ledger. */
  lemma ProducedRow(lib: Library, log: Log, source: string, m: nat) returns (i: nat)
    requires m < |Produced(StoredRows(lib, log), source)|
    ensures i < |log| && log[i].sourceId == source
    ensures Produced(StoredRows(lib, log), source)[m] == Stored(lib, i + 1, log[i])
  {
    hide Produced;
    var ordered := Produced(StoredRows(lib, log), source);
    ProducedMembers(StoredRows(lib, log), source);
    assert ordered[m] in ordered;
    RowAt(lib, log, ordered[m]);
    i := ordered[m].ordinal - 1;
  }

  lemma GapFindingMeans(lib: Library, log: Log, i: nat, j: nat)
    requires Gap(log, i, j)
    ensures var pair := (Stored(lib, i + 1, log[i]), Stored(lib, j + 1, log[j]));
            MeansGap(log, GapFinding(lib, log[i].sourceId, pair), i, j)
  {
    hide MakeFinding;
    TwoCited(lib, log, SequenceGap,
      map["missing_count" := Int(log[j].sourceSequence - log[i].sourceSequence - 1),
          "missing_from" := Int(log[i].sourceSequence + 1),
          "missing_to" := Int(log[j].sourceSequence - 1)], i, j);
  }

  lemma GapsMean(lib: Library, log: Log, source: string, f: Finding)
    requires Unique(log) && f in GapFindings(lib, source, GapPairs(Produced(StoredRows(lib, log), source)))
    ensures exists i, j :: MeansGap(log, f, i, j)
  {
    hide StoredRows, Produced, GapPairs, GapFinding, Stored, Unique, MeansGap;
    var ordered := Produced(StoredRows(lib, log), source);
    var pairs := GapPairs(ordered);
    var k :| 0 <= k < |pairs| && f == GapFinding(lib, source, pairs[k]);
    GapPairsAre(ordered);
    assert pairs[k] in pairs;
    var m :| 0 < m < |ordered| && Missing(ordered[m - 1], ordered[m]) > 0 && pairs[k] == (ordered[m - 1], ordered[m]);
    var i := ProducedRow(lib, log, source, m - 1);
    var j := ProducedRow(lib, log, source, m);
    NothingBetween(lib, log, source, m);
    StoredIs(lib, i + 1, log[i]);
    StoredIs(lib, j + 1, log[j]);
    GapFindingMeans(lib, log, i, j);
  }

  lemma StoredIs(lib: Library, ordinal: nat, e: Event)
    ensures Stored(lib, ordinal, e).event == e && Stored(lib, ordinal, e).ordinal == ordinal
  {
  }

  /** Where there is a gap, its two events are neighbours in production order. */
  lemma GapIsPair(lib: Library, log: Log, i: nat, j: nat)
    requires Unique(log) && Gap(log, i, j)
    ensures var pair := (Stored(lib, i + 1, log[i]), Stored(lib, j + 1, log[j]));
            pair in GapPairs(Produced(StoredRows(lib, log), log[i].sourceId))
  {
    hide StoredRows, Produced, GapPairs, Stored, Unique, Gap;
    GapSources(log, i, j);
    var source := log[i].sourceId;
    var ordered := Produced(StoredRows(lib, log), source);
    var left, right := Stored(lib, i + 1, log[i]), Stored(lib, j + 1, log[j]);
    LedgerRowsDistinct(lib, log);
    ProducedIsStrict(StoredRows(lib, log), source);
    RowIsStored(lib, log, i);
    RowIsStored(lib, log, j);
    StoredIs(lib, i + 1, log[i]);
    StoredIs(lib, j + 1, log[j]);
    var m :| 0 <= m < |ordered| && ordered[m] == left;
    var n :| 0 <= n < |ordered| && ordered[n] == right;
    GapNeighbours(lib, log, i, j, m, n);
    GapPairsAre(ordered);
    assert n - 1 == m;
  }

  lemma GapSources(log: Log, i: nat, j: nat)
    requires Gap(log, i, j)
    ensures i < |log| && j < |log|
    ensures log[i].sourceId == log[j].sourceId && log[i].sourceSequence + 1 < log[j].sourceSequence
  {
  }

  lemma RowIsStored(lib: Library, log: Log, i: nat)
    requires i < |log|
    ensures Stored(lib, i + 1, log[i]) in StoredRows(lib, log)
  {
    assert StoredRows(lib, log)[i] == Stored(lib, i + 1, log[i]);
  }

  lemma GapNeighbours(lib: Library, log: Log, i: nat, j: nat, m: nat, n: nat)
    requires Unique(log) && Gap(log, i, j)
    requires var ordered := Produced(StoredRows(lib, log), log[i].sourceId);
             && m < |ordered| && ordered[m] == Stored(lib, i + 1, log[i])
             && n < |ordered| && ordered[n] == Stored(lib, j + 1, log[j])
    ensures n == m + 1
    ensures Missing(Stored(lib, i + 1, log[i]), Stored(lib, j + 1, log[j])) > 0
  {
    hide StoredRows, Produced, Unique;
    var source := log[i].sourceId;
    var ordered := Produced(StoredRows(lib, log), source);
    LedgerRowsDistinct(lib, log);
    ProducedIsStrict(StoredRows(lib, log), source);
    InOrder(ordered, m, n);
    if m + 1 < n {
      var e := ordered[m + 1].event;
      assert Has(ordered, e);
      InBetween(ordered, m, n);
      ProducedEvents(lib, log, source, e);
    }
  }

  lemma InOrder(ordered: seq<StoredEvent>, m: nat, n: nat)
    requires StrictlyProduced(ordered) && m < |ordered| && n < |ordered|
    requires ordered[m].event.sourceSequence < ordered[n].event.sourceSequence
    ensures m < n
  {
  }

  lemma InBetween(ordered: seq<StoredEvent>, m: nat, n: nat)
    requires StrictlyProduced(ordered) && m + 1 < n < |ordered|
    ensures ordered[m].event.sourceSequence < ordered[m + 1].event.sourceSequence < ordered[n].event.sourceSequence
  {
  }

  // ---- Runs and staleness ----

  lemma RunsMean(lib: Library, policy: Policy, log: Log, source: string, f: Finding)
    requires f in RunFindings(lib, policy, source, PayloadRuns(Produced(StoredRows(lib, log), source)))
    ensures exists run :: MeansRepeat(lib, policy, log, f, run)
  {
    hide StoredRows, Produced, PayloadRuns, IdsOf, OrdinalsOf, Identity, IdentityDigest;
    var runs := PayloadRuns(Produced(StoredRows(lib, log), source));
    RunFindingIff(lib, policy, source, runs);
    var run :| run in runs && run != [] && |run| >= policy.frozenRunLength && f == RunFinding(lib, source, run);
    assert MeansRepeat(lib, policy, log, f, run);
  }

  lemma StaleMeans(lib: Library, policy: Policy, asOf: int, log: Log, source: string, f: Finding)
    requires Unique(log) && f in StaleFindings(lib, policy, asOf, source, Produced(StoredRows(lib, log), source))
    ensures exists i :: MeansStale(lib, policy, asOf, log, f, i)
  {
    hide StoredRows, Produced, MakeFinding, Unique, IsLatest;
    var ordered := Produced(StoredRows(lib, log), source);
    LastProducedIsLatest(lib, log, source);
    var i := ProducedRow(lib, log, source, |ordered| - 1);
    OneCited(lib, log, StaleSource, map["age_seconds" := lib.seconds(asOf - log[i].observedAt)], i);
    assert MeansStale(lib, policy, asOf, log, f, i);
  }

  lemma SourceMeans(lib: Library, policy: Policy, asOf: int, log: Log, f: Finding, source: string)
    requires Unique(log) && FromSource(lib, policy, asOf, StoredRows(lib, log), f, source)
    ensures Means(lib, policy, asOf, log, f)
  {
    hide GapFindings, RunFindings, StaleFindings, GapPairs, PayloadRuns, Produced, StoredRows, SourceIds, Unique,
         MeansGap, MeansRepeat, MeansStale;
    var ordered := Produced(StoredRows(lib, log), source);
    if f in GapFindings(lib, source, GapPairs(ordered)) {
      GapsMean(lib, log, source, f);
      var i, j :| MeansGap(log, f, i, j);
      assert f.rule.SequenceGap? by { GapIsGap(log, f, i, j); }
    } else if f in RunFindings(lib, policy, source, PayloadRuns(ordered)) {
      RunsMean(lib, policy, log, source, f);
      var run :| MeansRepeat(lib, policy, log, f, run);
      assert f.rule.RepeatedPayload? by { RepeatIsRepeat(lib, policy, log, f, run); }
    } else {
      StaleMeans(lib, policy, asOf, log, source, f);
      var i :| MeansStale(lib, policy, asOf, log, f, i);
      assert f.rule.StaleSource? by { StaleIsStale(lib, policy, asOf, log, f, i); }
    }
  }

  lemma GapIsGap(log: Log, f: Finding, i: nat, j: nat)
    requires MeansGap(log, f, i, j)
    ensures f.rule.SequenceGap?
  {
  }

  lemma RepeatIsRepeat(lib: Library, policy: Policy, log: Log, f: Finding, run: seq<StoredEvent>)
    requires MeansRepeat(lib, policy, log, f, run)
    ensures f.rule.RepeatedPayload?
  {
  }

  lemma StaleIsStale(lib: Library, policy: Policy, asOf: int, log: Log, f: Finding, i: nat)
    requires MeansStale(lib, policy, asOf, log, f, i)
    ensures f.rule.StaleSource?
  {
  }

  // ---- Soundness and completeness ----

  /** Whatever the evaluator reports of a ledger is so. */
  lemma FindingsAreTrue(lib: Library, policy: Policy, asOf: int, log: Log, f: Finding)
    requires Unique(log)
    ensures f in Evaluate(lib, policy, asOf, StoredRows(lib, log)) ==> Means(lib, policy, asOf, log, f)
  {
    hide Evaluate, StoredRows, Unique, FromRow, FromSource, Means;
    EvaluatedFrom(lib, policy, asOf, StoredRows(lib, log), f);
    if f in Evaluate(lib, policy, asOf, StoredRows(lib, log)) {
      if k :| FromRow(lib, policy, StoredRows(lib, log), f, k) {
        RowMeans(lib, policy, asOf, log, f, k);
      } else {
        var s :| FromSource(lib, policy, asOf, StoredRows(lib, log), f, s);
        SourceMeans(lib, policy, asOf, log, f, s);
      }
    }
  }

  /** Every late event is reported. */
  lemma DelaysAreFound(lib: Library, policy: Policy, asOf: int, log: Log, i: nat)
    requires i < |log| && Delayed(policy, log[i])
    ensures exists f :: f in Evaluate(lib, policy, asOf, StoredRows(lib, log)) && MeansDelay(lib, policy, log, f, i)
  {
    hide Evaluate, DelayFindings, RegressionFindings, MeansDelay, Delayed, Highest;
    DelayMeans(lib, policy, log, i);
    var rows := StoredRows(lib, log);
    var f :| f in DelayFindings(lib, policy, rows[i]);
    assert FromRow(lib, policy, rows, f, i);
    EvaluatedFrom(lib, policy, asOf, rows, f);
  }

  /** Every event below an earlier one of its source is reported. */
  lemma RegressionsAreFound(lib: Library, policy: Policy, asOf: int, log: Log, i: nat, j: nat)
    requires i < j < |log| && log[i].sourceId == log[j].sourceId && log[j].sourceSequence < log[i].sourceSequence
    ensures exists f, h :: f in Evaluate(lib, policy, asOf, StoredRows(lib, log)) && MeansRegression(log, f, h, j)
  {
    hide Evaluate, DelayFindings, MeansRegression, Highest, MakeFinding;
    var rows := StoredRows(lib, log);
    var previous := Highest(rows[..j], log[j].sourceId);
    assert rows[..j][i] in rows[..j] && rows[..j][i].event == log[i];
    HighestIsMaximum(rows[..j], log[j].sourceId);
    var found := RegressionFindings(lib, previous, rows[j]);
    var h := HighestRow(lib, log, j);
    assert found != [];
    var f := found[0];
    assert f in found;
    TwoCited(lib, log, SequenceRegression,
             map["current_sequence" := Int(log[j].sourceSequence),
                 "prior_highest_sequence" := Int(log[h].sourceSequence)], h, j);
    assert MeansRegression(log, f, h, j) by { RegressionHolds(log, f, h, j); }
    assert FromRow(lib, policy, rows, f, j);
    EvaluatedFrom(lib, policy, asOf, rows, f);
  }

  lemma RegressionHolds(log: Log, f: Finding, h: nat, j: nat)
    requires h < j < |log| && CitesTwo(log, f, h, j) && f.rule.SequenceRegression?
    requires log[j].sourceSequence < log[h].sourceSequence
    requires forall n | 0 <= n < j && log[n].sourceId == log[j].sourceId ::
             log[n].sourceSequence <= log[h].sourceSequence
    requires f.evidence
          == map["current_sequence" := Int(log[j].sourceSequence),
                 "prior_highest_sequence" := Int(log[h].sourceSequence)]
    ensures MeansRegression(log, f, h, j)
  {
  }

  lemma SourceOfRow(lib: Library, log: Log, i: nat)
    requires i < |log|
    ensures log[i].sourceId in SourceIds(StoredRows(lib, log))
  {
    LedgerSources(lib, log);
  }

  /** Every gap between two events of a source is reported. */
  lemma GapsAreFound(lib: Library, policy: Policy, asOf: int, log: Log, i: nat, j: nat)
    requires Unique(log) && Gap(log, i, j)
    ensures exists f :: f in Evaluate(lib, policy, asOf, StoredRows(lib, log)) && MeansGap(log, f, i, j)
  {
    hide Evaluate, StoredRows, Produced, GapPairs, GapFinding, RunFindings, StaleFindings, Unique, MeansGap, SourceIds,
         Gap, Stored;
    GapSources(log, i, j);
    var rows, source := StoredRows(lib, log), log[i].sourceId;
    var pair := (Stored(lib, i + 1, log[i]), Stored(lib, j + 1, log[j]));
    GapIsPair(lib, log, i, j);
    GapFindingMeans(lib, log, i, j);
    var pairs := GapPairs(Produced(rows, source));
    var k :| 0 <= k < |pairs| && pairs[k] == pair;
    var f := GapFindings(lib, source, pairs)[k];
    assert f in GapFindings(lib, source, pairs);
    SourceOfRow(lib, log, i);
    assert FromSource(lib, policy, asOf, rows, f, source);
    EvaluatedFrom(lib, policy, asOf, rows, f);
  }

  /** Every maximal run of one payload that reaches the policy's length is reported. */
  lemma RunsAreFound(lib: Library, policy: Policy, asOf: int, log: Log, source: string, run: seq<StoredEvent>)
    requires source in SourceIds(StoredRows(lib, log)) && run in PayloadRuns(Produced(StoredRows(lib, log), source))
    requires run != [] && |run| >= policy.frozenRunLength
    ensures exists f :: f in Evaluate(lib, policy, asOf, StoredRows(lib, log)) && MeansRepeat(lib, policy, log, f, run)
  {
    hide Evaluate, StoredRows, Produced, GapFindings, GapPairs, PayloadRuns, StaleFindings, SourceIds, IdsOf,
         OrdinalsOf, Identity, IdentityDigest;
    var rows := StoredRows(lib, log);
    var runs, f := PayloadRuns(Produced(rows, source)), RunFinding(lib, source, run);
    RunFindingIff(lib, policy, source, runs);
    assert f in RunFindings(lib, policy, source, runs);
    assert MeansRepeat(lib, policy, log, f, run);
    assert FromSource(lib, policy, asOf, rows, f, source);
    EvaluatedFrom(lib, policy, asOf, rows, f);
  }

  /** Every source whose latest event is too old is reported. */
  lemma StaleSourcesAreFound(lib: Library, policy: Policy, asOf: int, log: Log, i: nat)
    requires Unique(log) && i < |log| && IsLatest(log, log[i])
             && asOf - log[i].observedAt > policy.staleAfterSeconds * SECOND
    ensures exists f ::
            f in Evaluate(lib, policy, asOf, StoredRows(lib, log)) && MeansStale(lib, policy, asOf, log, f, i)
  {
    hide Evaluate, StoredRows, Produced, GapFindings, GapPairs, PayloadRuns, RunFindings, StaleFindings, SourceIds,
         Unique, IsLatest, MeansStale;
    var rows, source := StoredRows(lib, log), log[i].sourceId;
    StaleIffLatestIsOld(lib, policy, asOf, log, source);
    var found := StaleFindings(lib, policy, asOf, source, Produced(rows, source));
    assert found != [] && found[0] in found;
    SourceOfRow(lib, log, i);
    assert FromSource(lib, policy, asOf, rows, found[0], source);
    EvaluatedFrom(lib, policy, asOf, rows, found[0]);
    StaleMeans(lib, policy, asOf, log, source, found[0]);
    var h: nat :| MeansStale(lib, policy, asOf, log, found[0], h);
    StaleCites(lib, policy, asOf, log, found[0], h);
    assert log[h].sourceId == source by { StaleSourceOf(lib, policy, asOf, log, source, found[0]); }
    LatestIsUnique(log, log[h], log[i]);
    IdIndexOf(log, h);
    IdIndexOf(log, i);
  }

  lemma StaleCites(lib: Library, policy: Policy, asOf: int, log: Log, f: Finding, i: nat)
    requires MeansStale(lib, policy, asOf, log, f, i)
    ensures i < |log| && f.sourceId == log[i].sourceId && IsLatest(log, log[i])
  {
  }

  lemma StaleSourceOf(lib: Library, policy: Policy, asOf: int, log: Log, source: string, f: Finding)
    requires f in StaleFindings(lib, policy, asOf, source, Produced(StoredRows(lib, log), source))
    ensures f.sourceId == source
  {
    hide Produced, StoredRows;
  }

  // ---- The evaluation as a whole ----

  ghost predicate DelaysReported(lib: Library, policy: Policy, log: Log, findings: seq<Finding>) {
    forall i | 0 <= i < |log| && log[i].ingestedAt - log[i].observedAt > policy.delayThresholdSeconds * 1_000_000 ::
      exists f :: f in findings && MeansDelay(lib, policy, log, f, i)
  }

  ghost predicate RegressionsReported(log: Log, findings: seq<Finding>) {
    forall i, j | 0 <= i < j < |log| && log[i].sourceId == log[j].sourceId
                  && log[j].sourceSequence < log[i].sourceSequence ::
      exists f, h :: f in findings && MeansRegression(log, f, h, j)
  }

  ghost predicate GapsReported(log: Log, findings: seq<Finding>) {
    forall i, j | 0 <= i < |log| && 0 <= j < |log| && Gap(log, i, j) ::
      exists f :: f in findings && MeansGap(log, f, i, j)
  }

  /** A maximal run of one payload among the events of a source, in production order. */
  ghost predicate RunOf(lib: Library, log: Log, run: seq<StoredEvent>) {
    run != [] && exists source :: source in SourceIds(StoredRows(lib, log))
                                  && run in PayloadRuns(Produced(StoredRows(lib, log), source))
  }

  ghost predicate RunsReported(lib: Library, policy: Policy, log: Log, findings: seq<Finding>) {
    forall run | RunOf(lib, log, run) && |run| >= policy.frozenRunLength ::
      exists f :: f in findings && MeansRepeat(lib, policy, log, f, run)
  }

  ghost predicate StaleReported(lib: Library, policy: Policy, asOf: int, log: Log, findings: seq<Finding>) {
    forall i | 0 <= i < |log| && IsLatest(log, log[i])
               && asOf - log[i].observedAt > policy.staleAfterSeconds * 1_000_000 ::
      exists f :: f in findings && MeansStale(lib, policy, asOf, log, f, i)
  }

  /** Findings that say of a ledger what is so, all of it and nothing else. */
  ghost predicate Tell(lib: Library, policy: Policy, asOf: int, log: Log, findings: seq<Finding>) {
    && (forall f | f in findings :: Means(lib, policy, asOf, log, f))
    && DelaysReported(lib, policy, log, findings) && RegressionsReported(log, findings)
    && GapsReported(log, findings) && RunsReported(lib, policy, log, findings)
    && StaleReported(lib, policy, asOf, log, findings)
  }

  /** The evaluation of a ledger is sound and complete. */
  lemma EvaluationTells(lib: Library, policy: Policy, asOf: int, log: Log)
    requires LogOk(log)
    ensures Tell(lib, policy, asOf, log, Evaluate(lib, policy, asOf, StoredRows(lib, log)))
  {
    hide Evaluate, StoredRows, Means, MeansDelay, MeansRegression, MeansGap, MeansRepeat, MeansStale, Gap, IsLatest,
         Produced, PayloadRuns, SourceIds, LogOk, Unique;
    UseLogOk(log);
    var findings := Evaluate(lib, policy, asOf, StoredRows(lib, log));
    forall f | f in findings ensures Means(lib, policy, asOf, log, f) {
      FindingsAreTrue(lib, policy, asOf, log, f);
    }
    forall i | 0 <= i < |log| && log[i].ingestedAt - log[i].observedAt > policy.delayThresholdSeconds * 1_000_000
      ensures exists f :: f in findings && MeansDelay(lib, policy, log, f, i)
    {
      DelaysAreFound(lib, policy, asOf, log, i);
    }
    forall i, j | 0 <= i < j < |log| && log[i].sourceId == log[j].sourceId
                  && log[j].sourceSequence < log[i].sourceSequence
      ensures exists f, h :: f in findings && MeansRegression(log, f, h, j)
    {
      RegressionsAreFound(lib, policy, asOf, log, i, j);
    }
    forall i, j | 0 <= i < |log| && 0 <= j < |log| && Gap(log, i, j)
      ensures exists f :: f in findings && MeansGap(log, f, i, j)
    {
      GapsAreFound(lib, policy, asOf, log, i, j);
    }
    forall run | RunOf(lib, log, run) && |run| >= policy.frozenRunLength
      ensures exists f :: f in findings && MeansRepeat(lib, policy, log, f, run)
    {
      var source :| source in SourceIds(StoredRows(lib, log))
        && run in PayloadRuns(Produced(StoredRows(lib, log), source));
      RunsAreFound(lib, policy, asOf, log, source, run);
    }
    forall i | 0 <= i < |log| && IsLatest(log, log[i])
               && asOf - log[i].observedAt > policy.staleAfterSeconds * 1_000_000
      ensures exists f :: f in findings && MeansStale(lib, policy, asOf, log, f, i)
    {
      StaleSourcesAreFound(lib, policy, asOf, log, i);
    }
  }
}
