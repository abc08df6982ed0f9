/** The evaluator's loops: `evaluate_quality`. */
module QualityEvaluation {
  import opened Wrappers
  import opened JsonValues
  import opened Libraries
  import opened Logs
  import opened Ledgers
  import opened QualityRules
  import Sorting
  import Text

  lemma SourceIdsGrow(rows: seq<StoredEvent>)
    requires rows != []
    ensures SourceIds(rows) == SourceIds(rows[..|rows| - 1]) + {rows[|rows| - 1].event.sourceId}
  {
    assert rows == rows[..|rows| - 1] + [rows[|rows| - 1]];
  }

  lemma {:induction false} SourceRowsOfAbsentee(rows: seq<StoredEvent>, source: string)
    requires source !in SourceIds(rows)
    ensures SourceRows(rows, source) == [] && Highest(rows, source) == None
  {
    if rows != [] {
      SourceIdsGrow(rows);
      assert rows[|rows| - 1] in rows;
      SourceRowsOfAbsentee(rows[..|rows| - 1], source);
    }
  }

  /** The dictionary of rows by source. */
  ghost predicate Grouped(bySource: map<string, seq<StoredEvent>>, rows: seq<StoredEvent>) {
    bySource.Keys == SourceIds(rows) && forall s | s in bySource :: bySource[s] == SourceRows(rows, s)
  }

  /** The dictionary of running maxima. */
  ghost predicate Tracked(highest: map<string, StoredEvent>, rows: seq<StoredEvent>) {
    forall s :: Highest(rows, s) == Lookup(highest, s)
  }

  function Lookup(highest: map<string, StoredEvent>, source: string): Option<StoredEvent> {
    if source in highest then Some(highest[source]) else None
  }

  lemma GroupedStep(bySource: map<string, seq<StoredEvent>>, rows: seq<StoredEvent>, row: StoredEvent)
    requires Grouped(bySource, rows)
    ensures var source := row.event.sourceId;
            Grouped(bySource[source := (if source in bySource then bySource[source] else []) + [row]], rows + [row])
  {
    assert (rows + [row])[..|rows|] == rows;
    SourceIdsGrow(rows + [row]);
    if row.event.sourceId !in bySource {
      SourceRowsOfAbsentee(rows, row.event.sourceId);
    }
  }

  lemma TrackedStep(highest: map<string, StoredEvent>, rows: seq<StoredEvent>, row: StoredEvent)
    requires Tracked(highest, rows)
    ensures var previous := Lookup(highest, row.event.sourceId);
            Tracked(if previous.None? || row.event.sourceSequence > previous.value.event.sourceSequence
                    then highest[row.event.sourceId := row] else highest, rows + [row])
  {
    assert (rows + [row])[..|rows|] == rows;
    var source, previous := row.event.sourceId, Lookup(highest, row.event.sourceId);
    assert Highest(rows, source) == previous;
    var after := if previous.None? || row.event.sourceSequence > previous.value.event.sourceSequence
                 then highest[source := row] else highest;
    forall s ensures Highest(rows + [row], s) == Lookup(after, s) {
      assert Highest(rows, s) == Lookup(highest, s);
    }
  }

  lemma AppendStep(lib: Library, policy: Policy, rows: seq<StoredEvent>, row: StoredEvent)
    ensures AppendFindings(lib, policy, rows + [row])
         == AppendFindings(lib, policy, rows) + RowFindings(lib, policy, rows, row)
  {
    assert (rows + [row])[..|rows|] == rows;
  }

  /** The pass in append order: group by source, and find delays and regressions. */
  method PassInAppendOrder(lib: Library, policy: Policy, rows: seq<StoredEvent>)
    returns (bySource: map<string, seq<StoredEvent>>, findings: seq<Finding>)
    ensures Grouped(bySource, rows)
    ensures findings == AppendFindings(lib, policy, rows)
  {
    hide Grouped, AppendFindings, DelayFindings, RegressionFindings;
    bySource, findings := map[], [];
    var highest: map<string, StoredEvent> := map[];
    assert Grouped(bySource, []) && AppendFindings(lib, policy, []) == [] by { NothingYet(lib, policy); }
    for i := 0 to |rows|
      invariant Grouped(bySource, rows[..i]) && Tracked(highest, rows[..i])
      invariant findings == AppendFindings(lib, policy, rows[..i])
    {
      var row := rows[i];
      var source := row.event.sourceId;
      var previous := Lookup(highest, source);
      assert rows[..i + 1] == rows[..i] + [row];
      GroupedStep(bySource, rows[..i], row);
      TrackedStep(highest, rows[..i], row);
      AppendStep(lib, policy, rows[..i], row);
      bySource := bySource[source := (if source in bySource then bySource[source] else []) + [row]];
      findings := findings + (DelayFindings(lib, policy, row) + RegressionFindings(lib, previous, row));
      if previous.None? || row.event.sourceSequence > previous.value.event.sourceSequence {
        highest := highest[source := row];
      }
    }
    assert rows[..|rows|] == rows;
  }

  lemma NothingYet(lib: Library, policy: Policy)
    ensures Grouped(map[], []) && AppendFindings(lib, policy, []) == []
  {
  }

  /** The loop over neighbours in production order. */
  method FindGaps(lib: Library, source: string, ordered: seq<StoredEvent>) returns (findings: seq<Finding>)
    ensures findings == GapFindings(lib, source, GapPairs(ordered))
  {
    hide MakeFinding;
    findings := [];
    if ordered == [] {
      return;
    }
    for i := 1 to |ordered|
      invariant findings == GapFindings(lib, source, GapPairs(ordered[..i]))
    {
      assert ordered[..i + 1][..i] == ordered[..i];
      if Missing(ordered[i - 1], ordered[i]) > 0 {
        findings := findings + [GapFinding(lib, source, (ordered[i - 1], ordered[i]))];
      }
    }
    assert ordered[..|ordered|] == ordered;
  }

  ghost predicate FinitePayloads(rows: seq<StoredEvent>) {
    forall r | r in rows :: Finite(Obj(r.event.payload))
  }

  lemma LedgerPayloadsFinite(lib: Library, log: Log)
    requires LogOk(log)
    ensures FinitePayloads(StoredRows(lib, log))
  {
    forall i | 0 <= i < |log| ensures Finite(Obj(StoredRows(lib, log)[i].event.payload)) {
      assert log[i] in log;
    }
  }

  /** The loop that groups equal payloads, comparing their JSON text. */
  method GroupRuns(lib: Library, ordered: seq<StoredEvent>) returns (runs: seq<seq<StoredEvent>>)
    requires lib.Lawful() && FinitePayloads(ordered)
    ensures runs == PayloadRuns(ordered)
  {
    runs := [];
    var currentRun: seq<StoredEvent> := [];
    var priorPayload: Option<string> := None;
    for i := 0 to |ordered|
      invariant PayloadRuns(ordered[..i]) == if currentRun == [] then runs else runs + [currentRun]
      invariant (currentRun == []) == priorPayload.None? == (i == 0)
      invariant currentRun != [] ==> priorPayload == Some(lib.encodeAscii(Obj(currentRun[0].event.payload)))
      invariant currentRun != [] ==> Finite(Obj(currentRun[0].event.payload))
      invariant i == 0 ==> runs == []
    {
      assert ordered[..i + 1][..i] == ordered[..i] && ordered[i] in ordered;
      var payload := lib.encodeAscii(Obj(ordered[i].event.payload));
      if currentRun != [] && payload == priorPayload.value {
        lib.AsciiInjective(Obj(ordered[i].event.payload), Obj(currentRun[0].event.payload));
      }
      if Some(payload) == priorPayload {
        currentRun := currentRun + [ordered[i]];
      } else {
        if currentRun != [] {
          runs := runs + [currentRun];
        }
        currentRun := [ordered[i]];
        priorPayload := Some(payload);
      }
    }
    assert ordered[..|ordered|] == ordered;
    if currentRun != [] {
      runs := runs + [currentRun];
    }
  }

  /** The loop over the runs. */
  method FindRuns(lib: Library, policy: Policy, source: string, runs: seq<seq<StoredEvent>>)
    returns (findings: seq<Finding>)
    requires forall run | run in runs :: run != []
    ensures findings == RunFindings(lib, policy, source, runs)
  {
    hide MakeFinding;
    findings := [];
    for i := 0 to |runs|
      invariant findings == RunFindings(lib, policy, source, runs[..i])
    {
      assert runs[..i + 1][..i] == runs[..i] && runs[i] in runs;
      if |runs[i]| >= policy.frozenRunLength {
        findings := findings + [RunFinding(lib, source, runs[i])];
      }
    }
    assert runs[..|runs|] == runs;
  }

  lemma AddedRunsAreNotEmpty(runs: seq<seq<StoredEvent>>, row: StoredEvent)
    requires forall run | run in runs :: run != []
    ensures forall run | run in AddToRuns(runs, row) :: run != []
  {
    forall run | run in AddToRuns(runs, row) ensures run != [] {
      assert run in runs || |run| > 0;
    }
  }

  lemma {:induction false} RunsAreNotEmpty(ordered: seq<StoredEvent>)
    ensures forall run | run in PayloadRuns(ordered) :: run != []
  {
    if ordered != [] {
      hide AddToRuns;
      RunsAreNotEmpty(ordered[..|ordered| - 1]);
      AddedRunsAreNotEmpty(PayloadRuns(ordered[..|ordered| - 1]), ordered[|ordered| - 1]);
    }
  }

  lemma {:induction false} SourceRowsMembers(rows: seq<StoredEvent>, source: string)
    ensures forall r :: r in SourceRows(rows, source) <==> r in rows && r.event.sourceId == source
  {
    if rows != [] {
      SourceRowsMembers(rows[..|rows| - 1], source);
      assert rows == rows[..|rows| - 1] + [rows[|rows| - 1]];
    }
  }

  lemma ProducedMembers(rows: seq<StoredEvent>, source: string)
    ensures forall r :: r in Produced(rows, source) <==> r in rows && r.event.sourceId == source
  {
    SourceRowsMembers(rows, source);
    Sorting.SortMembers(BySequence, SourceRows(rows, source));
  }

  /** The body of the loop over sources. */
  method FindInSource(lib: Library, policy: Policy, asOf: int, source: string, ordered: seq<StoredEvent>)
    returns (findings: seq<Finding>)
    requires lib.Lawful() && FinitePayloads(ordered)
    ensures findings == SourceFindings(lib, policy, asOf, source, ordered)
  {
    var gaps := FindGaps(lib, source, ordered);
    var runs := GroupRuns(lib, ordered);
    RunsAreNotEmpty(ordered);
    var repeated := FindRuns(lib, policy, source, runs);
    findings := gaps + repeated + StaleFindings(lib, policy, asOf, source, ordered);
  }

  /** `evaluate_quality`: all five rules over stored rows, sorted by finding id. */
  method EvaluateQuality(lib: Library, rows: seq<StoredEvent>, asOf: Instant, policy: Policy)
    returns (r: Result<seq<Finding>, string>)
    requires lib.Lawful() && PolicyOk(policy) && FinitePayloads(rows)
    ensures r == if asOf.NotUtc? then Err("as_of must use UTC") else Ok(Evaluate(lib, policy, asOf.micros, rows))
  {
    hide SourceFindings, AppendFindings, AllSourceFindings, Produced, FinitePayloads, Sorting.Sort, Grouped,
         SourceRows, SourceIds, Evaluate, AllFindings;
    if asOf.NotUtc? {
      return Err("as_of must use UTC");
    }
    var bySource, appendFindings := PassInAppendOrder(lib, policy, rows);
    var sources := Text.Sorted(bySource.Keys);
    assert bySource.Keys == SourceIds(rows) by { GroupedRows(bySource, rows); }
    var sourceFindings: seq<Finding> := [];
    assert AllSourceFindings(lib, policy, asOf.micros, rows, []) == [] by { NoSources(lib, policy, asOf.micros, rows); }
    for i := 0 to |sources|
      invariant sourceFindings == AllSourceFindings(lib, policy, asOf.micros, rows, sources[..i])
    {
      var source := sources[i];
      assert sources[..i + 1] == sources[..i] + [source] && source in sources;
      SourceStep(lib, policy, asOf.micros, rows, sources[..i], source);
      GroupedRows(bySource, rows);
      var ordered := Sorting.Sort(BySequence, bySource[source]);
      OrderedIsProduced(rows, source, ordered);
      var findings := FindInSource(lib, policy, asOf.micros, source, ordered);
      sourceFindings := sourceFindings + findings;
    }
    assert sources[..|sources|] == sources;
    EvaluateParts(lib, policy, asOf.micros, rows);
    r := Ok(Sorting.Sort(ById, appendFindings + sourceFindings));
  }

  lemma GroupedRows(bySource: map<string, seq<StoredEvent>>, rows: seq<StoredEvent>)
    requires Grouped(bySource, rows)
    ensures bySource.Keys == SourceIds(rows) && forall s | s in bySource :: bySource[s] == SourceRows(rows, s)
  {
  }

  lemma EvaluateParts(lib: Library, policy: Policy, asOf: int, rows: seq<StoredEvent>)
    ensures var bySource := AllSourceFindings(lib, policy, asOf, rows, Text.Sorted(SourceIds(rows)));
            Evaluate(lib, policy, asOf, rows) == Sorting.Sort(ById, AppendFindings(lib, policy, rows) + bySource)
  {
  }

  lemma NoSources(lib: Library, policy: Policy, asOf: int, rows: seq<StoredEvent>)
    ensures AllSourceFindings(lib, policy, asOf, rows, []) == []
  {
  }

  lemma SourceStep(lib: Library, policy: Policy, asOf: int, rows: seq<StoredEvent>, sources: seq<string>,
                   source: string)
    ensures AllSourceFindings(lib, policy, asOf, rows, sources + [source])
         == AllSourceFindings(lib, policy, asOf, rows, sources)
            + SourceFindings(lib, policy, asOf, source, Produced(rows, source))
  {
    assert (sources + [source])[..|sources|] == sources;
  }

  lemma OrderedIsProduced(rows: seq<StoredEvent>, source: string, ordered: seq<StoredEvent>)
    requires ordered == Sorting.Sort(BySequence, SourceRows(rows, source))
    requires FinitePayloads(rows)
    ensures ordered == Produced(rows, source) && FinitePayloads(ordered)
  {
    ProducedMembers(rows, source);
  }
}
