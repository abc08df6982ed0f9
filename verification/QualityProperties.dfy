/** What the quality findings of a ledger say, rule by rule (`src/edge_evidence/quality.py`). */
module QualityProperties {
  import opened JsonValues
  import opened Libraries
  import opened Events
  import opened Logs
  import opened Ledgers
  import opened Projection
  import opened QualityRules
  import opened QualityEvaluation
  import Sorting
  import Text

  // ---- Running maxima and regressions (DQ-003) ----

  /** The running maximum is a row of the source that none of its rows exceeds. */
  lemma {:induction false} HighestIsMaximum(rows: seq<StoredEvent>, source: string)
    ensures var h := Highest(rows, source);
            && (h.None? <==> forall r | r in rows :: r.event.sourceId != source)
            && (h.Some? ==> h.value in rows && h.value.event.sourceId == source)
            && (h.Some? ==> forall r | r in rows && r.event.sourceId == source ::
                              r.event.sourceSequence <= h.value.event.sourceSequence)
  {
    if rows != [] {
      HighestIsMaximum(rows[..|rows| - 1], source);
      assert rows == rows[..|rows| - 1] + [rows[|rows| - 1]];
    }
  }

  /** A row gives a DQ-003 finding exactly when an earlier row of its source has a greater sequence. */
  lemma RegressionIff(lib: Library, before: seq<StoredEvent>, row: StoredEvent)
    ensures RegressionFindings(lib, Highest(before, row.event.sourceId), row) != []
        <==> exists r :: r in before && r.event.sourceId == row.event.sourceId
                         && r.event.sourceSequence > row.event.sourceSequence
  {
    HighestIsMaximum(before, row.event.sourceId);
    var h := Highest(before, row.event.sourceId);
    if h.Some? && row.event.sourceSequence < h.value.event.sourceSequence {
      assert h.value in before;
    }
  }

  // ---- Production order ----

  lemma SequenceOrderTotal()
    ensures Sorting.TotalPreorder(BySequence)
  {
  }

  ghost predicate StrictlyProduced(ordered: seq<StoredEvent>) {
    forall i, j | 0 <= i < j < |ordered| :: ordered[i].event.sourceSequence < ordered[j].event.sourceSequence
  }

  ghost predicate DistinctRows(rows: seq<StoredEvent>) {
    forall i, j | 0 <= i < j < |rows| ::
      rows[i].ordinal != rows[j].ordinal && !SamePosition(rows[i].event, rows[j].event)
  }

  lemma LedgerRowsDistinct(lib: Library, log: Log)
    requires Unique(log)
    ensures DistinctRows(StoredRows(lib, log))
  {
    var rows := StoredRows(lib, log);
    forall i, j | 0 <= i < j < |rows|
      ensures rows[i].ordinal != rows[j].ordinal && !SamePosition(rows[i].event, rows[j].event)
    {
      assert rows[i] == Stored(lib, i + 1, log[i]) && rows[j] == Stored(lib, j + 1, log[j]);
    }
  }

  /** A source's rows come out in strictly increasing sequence. */
  lemma ProducedIsStrict(rows: seq<StoredEvent>, source: string)
    requires DistinctRows(rows)
    ensures StrictlyProduced(Produced(rows, source))
    ensures forall r :: r in Produced(rows, source) <==> r in rows && r.event.sourceId == source
  {
    var chosen, ordered := SourceRows(rows, source), Produced(rows, source);
    SequenceOrderTotal();
    Sorting.SortOrdered(BySequence, chosen);
    ProducedMembers(rows, source);
    SourceRowsOnce(rows, source);
    assert multiset(ordered) == multiset(chosen);
    assert forall r :: multiset(ordered)[r] <= 1;
    forall i, j | 0 <= i < j < |ordered|
      ensures ordered[i].event.sourceSequence < ordered[j].event.sourceSequence
    {
      assert BySequence(ordered[i], ordered[j]);
      if ordered[i].event.sourceSequence == ordered[j].event.sourceSequence {
        assert ordered[i] in ordered && ordered[j] in ordered;
        SamePositionSameRow(rows, ordered[i], ordered[j]);
        RepeatsCounted(ordered, i, j);
      }
    }
  }

  lemma SamePositionSameRow(rows: seq<StoredEvent>, a: StoredEvent, b: StoredEvent)
    requires DistinctRows(rows) && a in rows && b in rows && SamePosition(a.event, b.event)
    ensures a == b
  {
    var i :| 0 <= i < |rows| && rows[i] == a;
    var j :| 0 <= j < |rows| && rows[j] == b;
    assert SamePosition(rows[i].event, rows[j].event) && SamePosition(rows[j].event, rows[i].event);
  }

  lemma RepeatsCounted<T>(s: seq<T>, i: nat, j: nat)
    requires i < j < |s| && s[i] == s[j]
    ensures multiset(s)[s[i]] >= 2
  {
    assert s == s[..j] + [s[j]] + s[j + 1..];
    assert s[i] in s[..j];
  }

  lemma {:induction false} SourceRowsOnce(rows: seq<StoredEvent>, source: string)
    requires DistinctRows(rows)
    ensures forall r :: multiset(SourceRows(rows, source))[r] <= 1
  {
    if rows != [] {
      var front, row := rows[..|rows| - 1], rows[|rows| - 1];
      SourceRowsOnce(front, source);
      SourceRowsMembers(front, source);
      forall i | 0 <= i < |front| ensures front[i] != row {
        assert front[i] == rows[i];
      }
      assert row !in front;
      assert row !in SourceRows(front, source);
      assert multiset(SourceRows(front, source))[row] == 0;
    }
  }

  // ---- Gaps (DQ-002) ----

  predicate Covers(pair: (StoredEvent, StoredEvent), p: int) {
    pair.0.event.sourceSequence + 1 <= p <= pair.1.event.sourceSequence - 1
  }

  predicate Present(ordered: seq<StoredEvent>, p: int) {
    exists i | 0 <= i < |ordered| :: ordered[i].event.sourceSequence == p
  }

  ghost predicate CoveredOnce(pairs: seq<(StoredEvent, StoredEvent)>, p: int) {
    exists k | 0 <= k < |pairs| :: Covers(pairs[k], p) && forall l | 0 <= l < |pairs| && l != k :: !Covers(pairs[l], p)
  }

  predicate Uncovered(pairs: seq<(StoredEvent, StoredEvent)>, p: int) {
    forall k | 0 <= k < |pairs| :: !Covers(pairs[k], p)
  }

  function TotalMissing(pairs: seq<(StoredEvent, StoredEvent)>): int {
    if pairs == [] then 0
    else TotalMissing(pairs[..|pairs| - 1]) + Missing(pairs[|pairs| - 1].0, pairs[|pairs| - 1].1)
  }

  function First(ordered: seq<StoredEvent>): int
    requires ordered != []
  {
    ordered[0].event.sourceSequence
  }

  function Last(ordered: seq<StoredEvent>): int
    requires ordered != []
  {
    ordered[|ordered| - 1].event.sourceSequence
  }

  lemma {:induction false} GapsWithin(ordered: seq<StoredEvent>)
    requires StrictlyProduced(ordered) && ordered != []
    ensures forall k | 0 <= k < |GapPairs(ordered)| ::
              var pair := GapPairs(ordered)[k];
              First(ordered) <= pair.0.event.sourceSequence < pair.1.event.sourceSequence <= Last(ordered)
  {
    if |ordered| >= 2 {
      GapsWithin(ordered[..|ordered| - 1]);
    }
  }

  /** Between a source's least and greatest sequence, a position is in exactly one gap interval if no
      row has it, and in none if a row has it. */
  lemma {:induction false} GapsPartitionMissing(ordered: seq<StoredEvent>, p: int)
    requires StrictlyProduced(ordered) && ordered != [] && First(ordered) <= p <= Last(ordered)
    ensures Present(ordered, p) ==> Uncovered(GapPairs(ordered), p)
    ensures !Present(ordered, p) ==> CoveredOnce(GapPairs(ordered), p)
  {
    var n := |ordered| - 1;
    if n == 0 {
      assert ordered[0].event.sourceSequence == p;
    } else {
      var front, left, right := ordered[..n], ordered[n - 1], ordered[n];
      var before, pairs := GapPairs(front), GapPairs(ordered);
      assert StrictlyProduced(front);
      GapsWithin(front);
      assert Last(front) == left.event.sourceSequence && First(front) == First(ordered);
      if p <= Last(front) {
        GapsPartitionMissing(front, p);
        PresentBefore(ordered, p);
        if !Present(front, p) {
          var k :| 0 <= k < |before| && Covers(before[k], p)
            && forall l | 0 <= l < |before| && l != k :: !Covers(before[l], p);
          assert pairs[k] == before[k];
          forall l | 0 <= l < |pairs| && l != k ensures !Covers(pairs[l], p) {
            if l < |before| { assert pairs[l] == before[l]; }
          }
        }
      } else {
        assert Uncovered(before, p);
        if p < right.event.sourceSequence {
          assert !Present(ordered, p);
          var k := |before|;
          assert pairs == before + [(left, right)];
          assert Covers(pairs[k], p) && forall l | 0 <= l < |pairs| && l != k :: !Covers(pairs[l], p);
        } else {
          assert ordered[n].event.sourceSequence == p;
          assert forall l | 0 <= l < |pairs| :: l < |before| ==> pairs[l] == before[l];
        }
      }
    }
  }

  lemma PresentBefore(ordered: seq<StoredEvent>, p: int)
    requires StrictlyProduced(ordered) && |ordered| >= 2 && p <= Last(ordered[..|ordered| - 1])
    ensures Present(ordered, p) <==> Present(ordered[..|ordered| - 1], p)
  {
    var front := ordered[..|ordered| - 1];
    if Present(ordered, p) {
      var i :| 0 <= i < |ordered| && ordered[i].event.sourceSequence == p;
      assert i < |front| && front[i] == ordered[i];
    }
    if Present(front, p) {
      var i :| 0 <= i < |front| && front[i].event.sourceSequence == p;
      assert ordered[i] == front[i];
    }
  }

  /** The missing counts add up to the span of the source less its rows. */
  lemma {:induction false} MissingCountsAddUp(ordered: seq<StoredEvent>)
    requires StrictlyProduced(ordered) && ordered != []
    ensures TotalMissing(GapPairs(ordered)) == Last(ordered) - First(ordered) + 1 - |ordered|
  {
    var n := |ordered| - 1;
    if n > 0 {
      var front := ordered[..n];
      assert StrictlyProduced(front);
      MissingCountsAddUp(front);
      if Missing(ordered[n - 1], ordered[n]) > 0 {
        assert GapPairs(ordered)[..|GapPairs(ordered)| - 1] == GapPairs(front);
      } else {
        assert Missing(ordered[n - 1], ordered[n]) == 0;
        assert GapPairs(ordered) == GapPairs(front);
      }
    }
  }

  // ---- Payload runs (DQ-004) ----

  function Concat(runs: seq<seq<StoredEvent>>): seq<StoredEvent> {
    if runs == [] then [] else Concat(runs[..|runs| - 1]) + runs[|runs| - 1]
  }

  predicate Uniform(run: seq<StoredEvent>) {
    run != [] && forall i | 0 <= i < |run| :: run[i].event.payload == run[0].event.payload
  }

  /** Each run has one payload, and neighbouring runs have different ones. */
  predicate Maximal(runs: seq<seq<StoredEvent>>) {
    && (forall k | 0 <= k < |runs| :: Uniform(runs[k]))
    && (forall k | 0 < k < |runs| :: Changes(runs[k - 1], runs[k]))
  }

  predicate Changes(run: seq<StoredEvent>, next: seq<StoredEvent>) {
    run != [] && next != [] && run[0].event.payload != next[0].event.payload
  }

  /** The grouped rows are the rows in production order, cut at each change of payload. */
  lemma {:induction false} RunsAreMaximal(ordered: seq<StoredEvent>)
    ensures Concat(PayloadRuns(ordered)) == ordered && Maximal(PayloadRuns(ordered))
  {
    if ordered != [] {
      var front, row := ordered[..|ordered| - 1], ordered[|ordered| - 1];
      RunsAreMaximal(front);
      AddToRunsMaximal(PayloadRuns(front), row);
      assert ordered == front + [row];
    }
  }

  lemma AddToRunsMaximal(runs: seq<seq<StoredEvent>>, row: StoredEvent)
    requires Maximal(runs)
    ensures Maximal(AddToRuns(runs, row)) && Concat(AddToRuns(runs, row)) == Concat(runs) + [row]
  {
    hide Concat;
    if runs != [] {
      var front, run := runs[..|runs| - 1], runs[|runs| - 1];
      assert runs == front + [run] && Uniform(run);
      if run[0].event.payload == row.event.payload {
        hide Maximal;
        LengthenLast(front, run, row);
      } else {
        AddRun(runs, row);
      }
    } else {
      AddRun(runs, row);
    }
  }

  lemma AddRun(runs: seq<seq<StoredEvent>>, row: StoredEvent)
    requires Maximal(runs)
    requires runs != [] ==> Changes(runs[|runs| - 1], [row])
    ensures Maximal(runs + [[row]]) && Concat(runs + [[row]]) == Concat(runs) + [row]
  {
    hide Concat, Uniform, Changes;
    var after := runs + [[row]];
    ConcatSnoc(runs, [row]);
    OneIsUniform(row);
    forall k | 0 <= k < |after| ensures Uniform(after[k]) {
      if k < |runs| { assert after[k] == runs[k]; }
    }
    forall k | 0 < k < |after| ensures Changes(after[k - 1], after[k]) {
      assert after[k - 1] == runs[k - 1];
      if k < |runs| { assert after[k] == runs[k]; }
    }
  }

  lemma OneIsUniform(row: StoredEvent)
    ensures Uniform([row])
  {
  }

  lemma ConcatSnoc(runs: seq<seq<StoredEvent>>, run: seq<StoredEvent>)
    ensures Concat(runs + [run]) == Concat(runs) + run
  {
    assert (runs + [run])[..|runs|] == runs;
  }

  lemma LengthenLast(front: seq<seq<StoredEvent>>, run: seq<StoredEvent>, row: StoredEvent)
    requires Maximal(front + [run]) && run != [] && run[0].event.payload == row.event.payload
    ensures Maximal(front + [run + [row]]) && Concat(front + [run + [row]]) == Concat(front + [run]) + [row]
  {
    hide Concat;
    ConcatSnoc(front, run);
    ConcatSnoc(front, run + [row]);
    var before, after := front + [run], front + [run + [row]];
    assert before[|front|] == run && Uniform(run) && Uniform(run + [row]);
    hide Uniform;
    forall k | 0 <= k < |after| ensures Uniform(after[k]) {
      if k < |front| { assert after[k] == before[k]; }
    }
    forall k | 0 < k < |after| ensures Changes(after[k - 1], after[k]) {
      assert after[k - 1] == before[k - 1] && Changes(before[k - 1], before[k]);
      if k < |front| { assert after[k] == before[k]; }
    }
  }

  /** There is only one such division of a row sequence. */
  lemma {:induction false} MaximalRunsAreUnique(runs: seq<seq<StoredEvent>>, other: seq<seq<StoredEvent>>)
    requires Maximal(runs) && Maximal(other) && Concat(runs) == Concat(other)
    ensures runs == other
  {
    if runs == [] || other == [] {
      EmptyConcat(runs);
      EmptyConcat(other);
    } else {
      var a, b := runs[|runs| - 1], other[|other| - 1];
      LastRunsAgree(runs, other);
      assert Concat(runs)[..|Concat(runs)| - |a|] == Concat(runs[..|runs| - 1]);
      assert Concat(other)[..|Concat(other)| - |b|] == Concat(other[..|other| - 1]);
      MaximalRunsAreUnique(runs[..|runs| - 1], other[..|other| - 1]);
    }
  }

  lemma EmptyConcat(runs: seq<seq<StoredEvent>>)
    requires Maximal(runs)
    ensures runs == [] <==> Concat(runs) == []
  {
  }

  /** The last run starts where the last stretch of equal payloads starts. */
  lemma LastRunsAgree(runs: seq<seq<StoredEvent>>, other: seq<seq<StoredEvent>>)
    requires Maximal(runs) && Maximal(other) && Concat(runs) == Concat(other) && runs != [] && other != []
    ensures runs[|runs| - 1] == other[|other| - 1]
  {
    var a, b, whole := runs[|runs| - 1], other[|other| - 1], Concat(runs);
    LastRunIsSuffix(runs);
    LastRunIsSuffix(other);
    if |a| < |b| {
      InsideRun(whole, b, |a|);
      LastRunIsCut(runs);
    } else if |b| < |a| {
      InsideRun(whole, a, |b|);
      LastRunIsCut(other);
    }
  }

  lemma InsideRun(whole: seq<StoredEvent>, run: seq<StoredEvent>, k: nat)
    requires 0 < k < |run| <= |whole| && run == whole[|whole| - |run|..] && Uniform(run)
    ensures whole[|whole| - k - 1].event.payload == whole[|whole| - 1].event.payload
  {
    assert whole[|whole| - k - 1] == run[|run| - k - 1] && whole[|whole| - 1] == run[|run| - 1];
  }

  lemma LastRunIsSuffix(runs: seq<seq<StoredEvent>>)
    requires Maximal(runs) && runs != []
    ensures var run, whole := runs[|runs| - 1], Concat(runs);
            |run| <= |whole| && run == whole[|whole| - |run|..]
  {
  }

  lemma LastRunIsCut(runs: seq<seq<StoredEvent>>)
    requires Maximal(runs) && runs != []
    ensures var run, whole := runs[|runs| - 1], Concat(runs);
            |run| < |whole| ==> whole[|whole| - |run| - 1].event.payload != whole[|whole| - 1].event.payload
  {
    if |runs| > 1 {
      var n := |runs| - 1;
      var front := runs[..n];
      var previous := front[n - 1];
      assert Concat(front) == Concat(front[..n - 1]) + previous;
      assert previous[|previous| - 1].event.payload == previous[0].event.payload;
    } else {
      assert Concat(runs[..0]) == [];
    }
  }

  /** A DQ-004 finding exists for exactly the maximal runs that reach the policy's length. */
  lemma {:induction false} RunFindingIff(lib: Library, policy: Policy, source: string, runs: seq<seq<StoredEvent>>)
    ensures forall f :: f in RunFindings(lib, policy, source, runs)
              <==> exists run ::
                run in runs && run != [] && |run| >= policy.frozenRunLength && f == RunFinding(lib, source, run)
  {
    hide RunFinding;
    if runs != [] {
      RunFindingIff(lib, policy, source, runs[..|runs| - 1]);
      assert runs == runs[..|runs| - 1] + [runs[|runs| - 1]];
    }
  }

  // ---- Arrival order ----

  /** A finding without its ledger ordinals and the id that binds them. */
  datatype View = View(rule: Rule, sourceId: string, eventIds: seq<string>, evidence: Fields)

  function ViewOf(f: Finding): View {
    View(f.rule, f.sourceId, f.eventIds, f.evidence)
  }

  ghost function ViewSet(findings: seq<Finding>): set<View> {
    set f | f in findings && !f.rule.SequenceRegression? :: ViewOf(f)
  }

  ghost predicate SameEvents(a: seq<StoredEvent>, b: seq<StoredEvent>) {
    |a| == |b| && forall i | 0 <= i < |a| :: a[i].event == b[i].event
  }

  ghost predicate SameViews(a: seq<Finding>, b: seq<Finding>) {
    |a| == |b| && forall i | 0 <= i < |a| :: ViewOf(a[i]) == ViewOf(b[i])
  }

  lemma FindingView(lib: Library, rule: Rule, source: string, a: seq<StoredEvent>, b: seq<StoredEvent>,
                    evidence: Fields)
    requires SameEvents(a, b)
    ensures ViewOf(MakeFinding(lib, rule, source, a, evidence)) == ViewOf(MakeFinding(lib, rule, source, b, evidence))
  {
    assert IdsOf(a) == IdsOf(b);
  }

  ghost predicate SamePairs(a: seq<(StoredEvent, StoredEvent)>, b: seq<(StoredEvent, StoredEvent)>) {
    |a| == |b| && forall i | 0 <= i < |a| :: a[i].0.event == b[i].0.event && a[i].1.event == b[i].1.event
  }

  lemma GapPairsStep(ordered: seq<StoredEvent>)
    requires |ordered| >= 2
    ensures var n := |ordered| - 1;
            GapPairs(ordered) == if Missing(ordered[n - 1], ordered[n]) > 0
                                 then GapPairs(ordered[..n]) + [(ordered[n - 1], ordered[n])]
                                 else GapPairs(ordered[..n])
  {
  }

  lemma {:induction false} GapPairsFollowEvents(a: seq<StoredEvent>, b: seq<StoredEvent>)
    requires SameEvents(a, b)
    ensures SamePairs(GapPairs(a), GapPairs(b))
  {
    if |a| >= 2 {
      hide GapPairs;
      var n := |a| - 1;
      GapPairsFollowEvents(a[..n], b[..n]);
      GapPairsStep(a);
      GapPairsStep(b);
    }
  }

  lemma GapViews(lib: Library, source: string, a: seq<(StoredEvent, StoredEvent)>, b: seq<(StoredEvent, StoredEvent)>)
    requires SamePairs(a, b)
    ensures SameViews(GapFindings(lib, source, a), GapFindings(lib, source, b))
  {
    hide MakeFinding;
    forall i | 0 <= i < |a| ensures ViewOf(GapFindings(lib, source, a)[i]) == ViewOf(GapFindings(lib, source, b)[i]) {
      FindingView(lib, SequenceGap, source, [a[i].0, a[i].1], [b[i].0, b[i].1],
        map["missing_count" := Int(Missing(a[i].0, a[i].1)),
            "missing_from" := Int(a[i].0.event.sourceSequence + 1),
            "missing_to" := Int(a[i].1.event.sourceSequence - 1)]);
    }
  }

  ghost predicate SameRuns(a: seq<seq<StoredEvent>>, b: seq<seq<StoredEvent>>) {
    |a| == |b| && forall k | 0 <= k < |a| :: SameEvents(a[k], b[k])
  }

  lemma {:induction false} RunsFollowEvents(a: seq<StoredEvent>, b: seq<StoredEvent>)
    requires SameEvents(a, b)
    ensures SameRuns(PayloadRuns(a), PayloadRuns(b))
  {
    if a != [] {
      RunsFollowEvents(a[..|a| - 1], b[..|b| - 1]);
      AddToRunsFollows(PayloadRuns(a[..|a| - 1]), PayloadRuns(b[..|b| - 1]), a[|a| - 1], b[|b| - 1]);
    }
  }

  lemma AddToRunsFollows(a: seq<seq<StoredEvent>>, b: seq<seq<StoredEvent>>, row: StoredEvent, other: StoredEvent)
    requires SameRuns(a, b) && row.event == other.event
    ensures SameRuns(AddToRuns(a, row), AddToRuns(b, other))
  {
    if a != [] {
      assert SameEvents(a[|a| - 1], b[|b| - 1]);
      assert SameEvents(a[|a| - 1] + [row], b[|b| - 1] + [other]);
    }
    assert SameEvents([row], [other]);
  }

  lemma {:induction false} RunViews(lib: Library, policy: Policy, source: string, a: seq<seq<StoredEvent>>,
                                    b: seq<seq<StoredEvent>>)
    requires SameRuns(a, b)
    ensures SameViews(RunFindings(lib, policy, source, a), RunFindings(lib, policy, source, b))
  {
    hide MakeFinding;
    if a != [] {
      var x, y := a[|a| - 1], b[|b| - 1];
      RunViews(lib, policy, source, a[..|a| - 1], b[..|b| - 1]);
      assert SameEvents(x, y);
      if x != [] {
        FindingView(lib, RepeatedPayload, source, x, y,
          map["payload_sha256" := Str(lib.Sha256Text(lib.encodeAscii(Obj(x[0].event.payload)))),
              "run_length" := Int(|x|)]);
      }
    }
  }

  /** For one source, DQ-002, DQ-004 and DQ-005 depend on its events alone. */
  lemma SourceViews(lib: Library, policy: Policy, asOf: int, source: string, a: seq<StoredEvent>, b: seq<StoredEvent>)
    requires SameEvents(a, b)
    ensures SameViews(SourceFindings(lib, policy, asOf, source, a), SourceFindings(lib, policy, asOf, source, b))
  {
    hide GapFindings, RunFindings, MakeFinding;
    GapPairsFollowEvents(a, b);
    GapViews(lib, source, GapPairs(a), GapPairs(b));
    RunsFollowEvents(a, b);
    RunViews(lib, policy, source, PayloadRuns(a), PayloadRuns(b));
    if a != [] {
      var age := asOf - a[|a| - 1].event.observedAt;
      FindingView(lib, StaleSource, source, [a[|a| - 1]], [b[|b| - 1]], map["age_seconds" := lib.seconds(age)]);
    }
    assert SameViews(StaleFindings(lib, policy, asOf, source, a), StaleFindings(lib, policy, asOf, source, b));
  }

  predicate Has(rows: seq<StoredEvent>, e: Event) {
    exists i | 0 <= i < |rows| :: rows[i].event == e
  }

  /** In production order, equal sets of distinct events are equal sequences. */
  lemma {:induction false} StrictOrderIsUnique(a: seq<StoredEvent>, b: seq<StoredEvent>)
    requires StrictlyProduced(a) && StrictlyProduced(b) && forall e :: Has(a, e) <==> Has(b, e)
    ensures SameEvents(a, b)
  {
    if a == [] || b == [] {
      EmptyOrHas(a);
      EmptyOrHas(b);
    } else {
      var m, n := |a| - 1, |b| - 1;
      assert Has(a, a[m].event) && Has(b, b[n].event);
      LastIsGreatest(a, b[n].event);
      LastIsGreatest(b, a[m].event);
      HeldAtLast(b, a[m].event);
      forall e ensures Has(a[..m], e) <==> Has(b[..n], e) {
        WithoutLast(a, e);
        WithoutLast(b, e);
      }
      StrictOrderIsUnique(a[..m], b[..n]);
    }
  }

  lemma EmptyOrHas(rows: seq<StoredEvent>)
    ensures rows == [] || exists e :: Has(rows, e)
  {
    if rows != [] { assert Has(rows, rows[0].event); }
  }

  lemma LastIsGreatest(rows: seq<StoredEvent>, e: Event)
    requires StrictlyProduced(rows) && Has(rows, e)
    ensures e.sourceSequence <= rows[|rows| - 1].event.sourceSequence
  {
  }

  lemma HeldAtLast(rows: seq<StoredEvent>, e: Event)
    requires StrictlyProduced(rows) && Has(rows, e) && e.sourceSequence >= rows[|rows| - 1].event.sourceSequence
    ensures e == rows[|rows| - 1].event
  {
  }

  lemma WithoutLast(rows: seq<StoredEvent>, e: Event)
    requires StrictlyProduced(rows) && rows != []
    ensures Has(rows[..|rows| - 1], e) <==> Has(rows, e) && e != rows[|rows| - 1].event
  {
    var n := |rows| - 1;
    if Has(rows, e) && e != rows[n].event {
      var i :| 0 <= i < |rows| && rows[i].event == e;
      assert rows[..n][i].event == e;
    }
    if Has(rows[..n], e) {
      var i :| 0 <= i < n && rows[..n][i].event == e;
      assert rows[i].event == e && rows[i].event.sourceSequence < rows[n].event.sourceSequence;
    }
  }

  lemma ProducedEvents(lib: Library, log: Log, source: string, e: Event)
    requires Unique(log)
    ensures Has(Produced(StoredRows(lib, log), source), e) <==> e in log && e.sourceId == source
  {
    hide StoredRows, Produced, Unique, StrictlyProduced, DistinctRows;
    var rows := StoredRows(lib, log);
    var ordered := Produced(rows, source);
    LedgerRowsDistinct(lib, log);
    ProducedIsStrict(rows, source);
    RowOfEvent(lib, log, e);
    if e in log && e.sourceId == source {
      var r :| r in rows && r.event == e;
      assert r in ordered;
    }
    if Has(ordered, e) {
      var i :| 0 <= i < |ordered| && ordered[i].event == e;
      assert ordered[i] in ordered;
    }
  }

  lemma RowOfEvent(lib: Library, log: Log, e: Event)
    ensures e in log <==> exists r :: r in StoredRows(lib, log) && r.event == e
  {
    var rows := StoredRows(lib, log);
    if e in log {
      var k :| 0 <= k < |log| && log[k] == e;
      assert rows[k] in rows;
    }
  }

  lemma ProducedIgnoresArrival(lib: Library, log: Log, other: Log, source: string)
    requires Unique(log) && Unique(other) && forall x :: x in log <==> x in other
    ensures SameEvents(Produced(StoredRows(lib, log), source), Produced(StoredRows(lib, other), source))
  {
    var a, b := Produced(StoredRows(lib, log), source), Produced(StoredRows(lib, other), source);
    LedgerRowsDistinct(lib, log);
    LedgerRowsDistinct(lib, other);
    ProducedIsStrict(StoredRows(lib, log), source);
    ProducedIsStrict(StoredRows(lib, other), source);
    forall e ensures Has(a, e) <==> Has(b, e) {
      ProducedEvents(lib, log, source, e);
      ProducedEvents(lib, other, source, e);
    }
    StrictOrderIsUnique(a, b);
  }

  /** On a ledger, the DQ-002 findings of a source are the gap intervals, one finding each: a position
      between its extremes is in exactly one of them if no committed event has it, else in none. */
  lemma LedgerGaps(lib: Library, log: Log, source: string, p: int)
    requires Unique(log) && Produced(StoredRows(lib, log), source) != []
    requires var ordered := Produced(StoredRows(lib, log), source); First(ordered) <= p <= Last(ordered)
    ensures var pairs := GapPairs(Produced(StoredRows(lib, log), source));
            && |GapFindings(lib, source, pairs)| == |pairs|
            && if exists e :: e in log && e.sourceId == source && e.sourceSequence == p
               then Uncovered(pairs, p) else CoveredOnce(pairs, p)
  {
    hide StoredRows, Produced, GapPairs, Uncovered, CoveredOnce;
    var ordered := Produced(StoredRows(lib, log), source);
    LedgerRowsDistinct(lib, log);
    ProducedIsStrict(StoredRows(lib, log), source);
    GapsPartitionMissing(ordered, p);
    if e :| e in log && e.sourceId == source && e.sourceSequence == p {
      ProducedEvents(lib, log, source, e);
    }
    if Present(ordered, p) {
      var i :| 0 <= i < |ordered| && ordered[i].event.sourceSequence == p;
      ProducedEvents(lib, log, source, ordered[i].event);
    }
  }

  /** The last row in production order holds the latest event of the source. */
  lemma LastProducedIsLatest(lib: Library, log: Log, source: string)
    requires Unique(log)
    ensures var ordered := Produced(StoredRows(lib, log), source);
            && (ordered != [] ==>
                IsLatest(log, ordered[|ordered| - 1].event) && ordered[|ordered| - 1].event.sourceId == source)
            && (ordered == [] ==> forall e | e in log :: e.sourceId != source)
  {
    hide StoredRows, Produced, Unique;
    var ordered := Produced(StoredRows(lib, log), source);
    LedgerRowsDistinct(lib, log);
    ProducedIsStrict(StoredRows(lib, log), source);
    forall e ensures Has(ordered, e) <==> e in log && e.sourceId == source {
      ProducedEvents(lib, log, source, e);
    }
    if ordered != [] {
      var latest := ordered[|ordered| - 1].event;
      assert Has(ordered, latest);
      forall x | x in log && x.sourceId == source ensures x.sourceSequence <= latest.sourceSequence {
        LastIsGreatest(ordered, x);
      }
    }
  }

  /** A source is stale (DQ-005) exactly when its latest event, the one the projector keeps, is too old. */
  lemma StaleIffLatestIsOld(lib: Library, policy: Policy, asOf: int, log: Log, source: string)
    requires Unique(log)
    ensures StaleFindings(lib, policy, asOf, source, Produced(StoredRows(lib, log), source)) != []
        <==> exists e ::
          IsLatest(log, e) && e.sourceId == source && asOf - e.observedAt > policy.staleAfterSeconds * SECOND
  {
    hide StoredRows, Produced, Unique, IsLatest;
    var ordered := Produced(StoredRows(lib, log), source);
    LastProducedIsLatest(lib, log, source);
    forall e | IsLatest(log, e) && e.sourceId == source ensures ordered != [] && e == ordered[|ordered| - 1].event {
      LatestIsMember(log, e);
      LatestIsUnique(log, e, ordered[|ordered| - 1].event);
    }
  }

  lemma LatestIsMember(events: seq<Event>, e: Event)
    requires IsLatest(events, e)
    ensures e in events
  {
  }

  lemma {:induction false} AllSourceViews(lib: Library, policy: Policy, asOf: int, log: Log, other: Log,
                                          sources: seq<string>)
    requires Unique(log) && Unique(other) && forall x :: x in log <==> x in other
    ensures SameViews(AllSourceFindings(lib, policy, asOf, StoredRows(lib, log), sources),
                      AllSourceFindings(lib, policy, asOf, StoredRows(lib, other), sources))
  {
    hide SourceFindings, Produced, StoredRows, ViewOf;
    if sources != [] {
      var front, source := sources[..|sources| - 1], sources[|sources| - 1];
      AllSourceViews(lib, policy, asOf, log, other, front);
      ProducedIgnoresArrival(lib, log, other, source);
      SourceViews(lib, policy, asOf, source, Produced(StoredRows(lib, log), source),
                  Produced(StoredRows(lib, other), source));
    }
  }

  ghost function DelayView(lib: Library, e: Event): View {
    View(DelayedArrival, e.sourceId, [e.eventId], map["delay_seconds" := lib.seconds(e.ingestedAt - e.observedAt)])
  }

  lemma {:induction false} AppendViews(lib: Library, policy: Policy, rows: seq<StoredEvent>)
    ensures forall v :: v in ViewSet(AppendFindings(lib, policy, rows))
              <==> exists r :: r in rows && Delayed(policy, r.event) && v == DelayView(lib, r.event)
  {
    hide Delayed, Highest;
    if rows != [] {
      var front, row := rows[..|rows| - 1], rows[|rows| - 1];
      AppendViews(lib, policy, front);
      assert rows == front + [row];
      RowViews(lib, policy, front, row);
      assert ViewSet(AppendFindings(lib, policy, rows))
          == ViewSet(AppendFindings(lib, policy, front)) + ViewSet(RowFindings(lib, policy, front, row));
    }
  }

  lemma RowViews(lib: Library, policy: Policy, before: seq<StoredEvent>, row: StoredEvent)
    ensures ViewSet(RowFindings(lib, policy, before, row))
         == if Delayed(policy, row.event) then {DelayView(lib, row.event)} else {}
  {
    hide Delayed, Highest;
    var findings := RowFindings(lib, policy, before, row);
    if Delayed(policy, row.event) {
      assert IdsOf([row]) == [row.event.eventId];
      assert findings[0] in findings;
    }
  }

  /** Every finding but a regression is independent of arrival order: ledgers with the same events
      give the same rules, sources, events and evidence. */
  lemma FindingsIgnoreArrivalOrder(lib: Library, policy: Policy, asOf: int, log: Log, other: Log)
    requires LogOk(log) && LogOk(other) && forall x :: x in log <==> x in other
    ensures ViewSet(Evaluate(lib, policy, asOf, StoredRows(lib, log)))
         == ViewSet(Evaluate(lib, policy, asOf, StoredRows(lib, other)))
  {
    hide LogOk, AppendFindings, AllSourceFindings, StoredRows, SourceIds;
    assert Unique(log) && Unique(other) by { UseLogOk(log); UseLogOk(other); }
    var a, b := StoredRows(lib, log), StoredRows(lib, other);
    SameSources(lib, log, other);
    AllSourceViews(lib, policy, asOf, log, other, Text.Sorted(SourceIds(a)));
    EvaluateViews(lib, policy, asOf, a);
    EvaluateViews(lib, policy, asOf, b);
    SameViewSets(AllSourceFindings(lib, policy, asOf, a, Text.Sorted(SourceIds(a))),
                 AllSourceFindings(lib, policy, asOf, b, Text.Sorted(SourceIds(a))));
    AppendViewsAgree(lib, policy, log, other);
  }

  lemma SameSources(lib: Library, log: Log, other: Log)
    requires forall x :: x in log <==> x in other
    ensures SourceIds(StoredRows(lib, log)) == SourceIds(StoredRows(lib, other))
  {
    LedgerSources(lib, log);
    LedgerSources(lib, other);
  }

  lemma LedgerSources(lib: Library, log: Log)
    ensures SourceIds(StoredRows(lib, log)) == set e | e in log :: e.sourceId
  {
    var rows := StoredRows(lib, log);
    forall i | 0 <= i < |log| ensures log[i].sourceId in SourceIds(rows) {
      assert rows[i] in rows;
    }
  }

  lemma EvaluateViews(lib: Library, policy: Policy, asOf: int, rows: seq<StoredEvent>)
    ensures ViewSet(Evaluate(lib, policy, asOf, rows))
         == ViewSet(AppendFindings(lib, policy, rows))
            + ViewSet(AllSourceFindings(lib, policy, asOf, rows, Text.Sorted(SourceIds(rows))))
  {
    hide AppendFindings, AllSourceFindings;
    Sorting.SortMembers(ById, AllFindings(lib, policy, asOf, rows));
  }

  lemma SameViewSets(a: seq<Finding>, b: seq<Finding>)
    requires SameViews(a, b)
    ensures ViewSet(a) == ViewSet(b)
  {
    forall i | 0 <= i < |a|
      ensures !a[i].rule.SequenceRegression? ==> ViewOf(a[i]) in ViewSet(b) && ViewOf(b[i]) in ViewSet(a)
    {
      assert ViewOf(a[i]) == ViewOf(b[i]) && b[i] in b && a[i] in a;
    }
  }

  lemma AppendViewsAgree(lib: Library, policy: Policy, log: Log, other: Log)
    requires forall x :: x in log <==> x in other
    ensures ViewSet(AppendFindings(lib, policy, StoredRows(lib, log)))
         == ViewSet(AppendFindings(lib, policy, StoredRows(lib, other)))
  {
    hide AppendFindings, Delayed;
    AppendViews(lib, policy, StoredRows(lib, log));
    AppendViews(lib, policy, StoredRows(lib, other));
    RowsFollowEvents(lib, log, other);
    RowsFollowEvents(lib, other, log);
  }

  lemma RowsFollowEvents(lib: Library, log: Log, other: Log)
    requires forall x | x in log :: x in other
    ensures forall r | r in StoredRows(lib, log) :: exists t :: t in StoredRows(lib, other) && t.event == r.event
  {
    forall i | 0 <= i < |log| ensures exists t :: t in StoredRows(lib, other) && t.event == log[i] {
      assert log[i] in log;
      var j :| 0 <= j < |other| && other[j] == log[i];
      assert StoredRows(lib, other)[j] in StoredRows(lib, other);
    }
  }
}
