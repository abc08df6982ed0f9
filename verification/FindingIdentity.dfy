/** What identifies a quality finding, and what rows it stands on: the identity document determines the
    finding, no two findings of an evaluation share one, and the output is in canonical order
    (`src/edge_evidence/quality.py`). */
module FindingIdentity {
  import opened JsonValues
  import opened Libraries
  import opened Logs
  import opened Ledgers
  import opened QualityRules
  import opened QualityEvaluation
  import opened QualityProperties
  import Sorting
  import Text

  // ---- Evidence: every finding is made from rows of its source ----

  ghost predicate SupportedBy(lib: Library, rows: seq<StoredEvent>, f: Finding, supporting: seq<StoredEvent>) {
    && supporting != []
    && (forall r | r in supporting :: r in rows && r.event.sourceId == f.sourceId)
    && Finite(Obj(f.evidence))
    && f == MakeFinding(lib, f.rule, f.sourceId, supporting, f.evidence)
  }

  /** Some rows of the finding's source explain its events, ordinals and identity. */
  ghost predicate Supported(lib: Library, rows: seq<StoredEvent>, f: Finding) {
    exists supporting :: SupportedBy(lib, rows, f, supporting)
  }

  ghost predicate AllSupported(lib: Library, rows: seq<StoredEvent>, findings: seq<Finding>) {
    forall f | f in findings :: Supported(lib, rows, f)
  }

  lemma MadeIsSupported(lib: Library, rows: seq<StoredEvent>, rule: Rule, source: string, supporting: seq<StoredEvent>,
                        evidence: Fields)
    requires supporting != [] && Finite(Obj(evidence))
    requires forall r | r in supporting :: r in rows && r.event.sourceId == source
    ensures Supported(lib, rows, MakeFinding(lib, rule, source, supporting, evidence))
  {
    assert SupportedBy(lib, rows, MakeFinding(lib, rule, source, supporting, evidence), supporting);
  }

  lemma DelaySupported(lib: Library, policy: Policy, rows: seq<StoredEvent>, row: StoredEvent)
    requires lib.Lawful() && row in rows
    ensures AllSupported(lib, rows, DelayFindings(lib, policy, row))
  {
    hide MakeFinding, Supported;
    var e := row.event;
    if Delayed(policy, e) {
      lib.TimeRoundTrip(e.ingestedAt - e.observedAt);
      MadeIsSupported(lib, rows, DelayedArrival, e.sourceId, [row],
                      map["delay_seconds" := lib.seconds(e.ingestedAt - e.observedAt)]);
    }
  }

  lemma RegressionSupported(lib: Library, rows: seq<StoredEvent>, before: seq<StoredEvent>, row: StoredEvent)
    requires row in rows && forall r | r in before :: r in rows
    ensures AllSupported(lib, rows, RegressionFindings(lib, Highest(before, row.event.sourceId), row))
  {
    hide MakeFinding, Supported;
    var previous := Highest(before, row.event.sourceId);
    HighestIsMaximum(before, row.event.sourceId);
    if previous.Some? {
      MadeIsSupported(lib, rows, SequenceRegression, row.event.sourceId, [previous.value, row],
        map["current_sequence" := Int(row.event.sourceSequence),
            "prior_highest_sequence" := Int(previous.value.event.sourceSequence)]);
    }
  }

  lemma {:induction false} AppendSupported(lib: Library, policy: Policy, rows: seq<StoredEvent>, n: nat)
    requires lib.Lawful() && n <= |rows|
    ensures AllSupported(lib, rows, AppendFindings(lib, policy, rows[..n]))
  {
    hide Supported, DelayFindings, RegressionFindings, Highest;
    if n > 0 {
      assert rows[..n][..n - 1] == rows[..n - 1];
      AppendSupported(lib, policy, rows, n - 1);
      DelaySupported(lib, policy, rows, rows[n - 1]);
      RegressionSupported(lib, rows, rows[..n - 1], rows[n - 1]);
    }
  }

  lemma {:induction false} GapPairsMembers(ordered: seq<StoredEvent>)
    ensures forall p | p in GapPairs(ordered) :: p.0 in ordered && p.1 in ordered
  {
    if |ordered| >= 2 {
      GapPairsMembers(ordered[..|ordered| - 1]);
    }
  }

  ghost predicate Of(rows: seq<StoredEvent>, source: string, some: seq<StoredEvent>) {
    forall r | r in some :: r in rows && r.event.sourceId == source
  }

  lemma GapsSupported(lib: Library, rows: seq<StoredEvent>, source: string, ordered: seq<StoredEvent>)
    requires Of(rows, source, ordered)
    ensures AllSupported(lib, rows, GapFindings(lib, source, GapPairs(ordered)))
  {
    hide MakeFinding, Supported, GapPairs;
    GapPairsMembers(ordered);
    forall p | p in GapPairs(ordered) ensures Supported(lib, rows, GapFinding(lib, source, p)) {
      MadeIsSupported(lib, rows, SequenceGap, source, [p.0, p.1],
        map["missing_count" := Int(Missing(p.0, p.1)),
            "missing_from" := Int(p.0.event.sourceSequence + 1),
            "missing_to" := Int(p.1.event.sourceSequence - 1)]);
    }
  }

  lemma {:induction false} RunsSupported(lib: Library, policy: Policy, rows: seq<StoredEvent>, source: string,
                                         runs: seq<seq<StoredEvent>>)
    requires Of(rows, source, Concat(runs))
    ensures AllSupported(lib, rows, RunFindings(lib, policy, source, runs))
  {
    hide MakeFinding, Supported;
    if runs != [] {
      var run := runs[|runs| - 1];
      RunsSupported(lib, policy, rows, source, runs[..|runs| - 1]);
      if run != [] {
        MadeIsSupported(lib, rows, RepeatedPayload, source, run,
          map["payload_sha256" := Str(lib.Sha256Text(lib.encodeAscii(Obj(run[0].event.payload)))),
              "run_length" := Int(|run|)]);
      }
    }
  }

  lemma StaleSupported(lib: Library, policy: Policy, asOf: int, rows: seq<StoredEvent>, source: string,
                       ordered: seq<StoredEvent>)
    requires lib.Lawful() && Of(rows, source, ordered)
    ensures AllSupported(lib, rows, StaleFindings(lib, policy, asOf, source, ordered))
  {
    hide MakeFinding, Supported;
    if ordered != [] {
      var latest := ordered[|ordered| - 1];
      lib.TimeRoundTrip(asOf - latest.event.observedAt);
      MadeIsSupported(lib, rows, StaleSource, source, [latest],
                      map["age_seconds" := lib.seconds(asOf - latest.event.observedAt)]);
    }
  }

  lemma SourceSupported(lib: Library, policy: Policy, asOf: int, rows: seq<StoredEvent>, source: string,
                        ordered: seq<StoredEvent>)
    requires lib.Lawful() && Of(rows, source, ordered)
    ensures AllSupported(lib, rows, SourceFindings(lib, policy, asOf, source, ordered))
  {
    hide Supported, GapFindings, RunFindings, StaleFindings, PayloadRuns, Concat;
    GapsSupported(lib, rows, source, ordered);
    RunsAreMaximal(ordered);
    RunsSupported(lib, policy, rows, source, PayloadRuns(ordered));
    StaleSupported(lib, policy, asOf, rows, source, ordered);
  }

  lemma {:induction false} SourcesSupported(lib: Library, policy: Policy, asOf: int, rows: seq<StoredEvent>,
                                            sources: seq<string>)
    requires lib.Lawful()
    ensures AllSupported(lib, rows, AllSourceFindings(lib, policy, asOf, rows, sources))
  {
    hide Supported, SourceFindings, Produced;
    if sources != [] {
      var source := sources[|sources| - 1];
      SourcesSupported(lib, policy, asOf, rows, sources[..|sources| - 1]);
      ProducedMembers(rows, source);
      SourceSupported(lib, policy, asOf, rows, source, Produced(rows, source));
    }
  }

  /** Every finding of an evaluation is made from rows of its own source, and identified by them. */
  lemma FindingsAreSupported(lib: Library, policy: Policy, asOf: int, rows: seq<StoredEvent>)
    requires lib.Lawful()
    ensures AllSupported(lib, rows, Evaluate(lib, policy, asOf, rows))
    ensures AllSupported(lib, rows, AllFindings(lib, policy, asOf, rows))
  {
    hide Supported, AppendFindings, AllSourceFindings;
    assert rows[..|rows|] == rows;
    AppendSupported(lib, policy, rows, |rows|);
    SourcesSupported(lib, policy, asOf, rows, Text.Sorted(SourceIds(rows)));
    Sorting.SortMembers(ById, AllFindings(lib, policy, asOf, rows));
  }

  /** A finding of a ledger pairs each ordinal with the event committed there. */
  ghost predicate Resolves(log: Log, f: Finding) {
    && |f.ordinals| == |f.eventIds|
    && forall i | 0 <= i < |f.ordinals| ::
       1 <= f.ordinals[i] <= |log| && log[f.ordinals[i] - 1].eventId == f.eventIds[i]
  }

  lemma FindingsResolve(lib: Library, policy: Policy, asOf: int, log: Log, f: Finding)
    requires lib.Lawful() && f in Evaluate(lib, policy, asOf, StoredRows(lib, log))
    ensures Resolves(log, f)
  {
    var rows := StoredRows(lib, log);
    FindingsAreSupported(lib, policy, asOf, rows);
    var supporting :| SupportedBy(lib, rows, f, supporting);
    SupportResolves(lib, log, f, supporting);
  }

  lemma SupportResolves(lib: Library, log: Log, f: Finding, supporting: seq<StoredEvent>)
    requires SupportedBy(lib, StoredRows(lib, log), f, supporting)
    ensures Resolves(log, f)
  {
    forall i | 0 <= i < |supporting|
      ensures 1 <= supporting[i].ordinal <= |log|
              && log[supporting[i].ordinal - 1].eventId == supporting[i].event.eventId
    {
      assert supporting[i] in StoredRows(lib, log);
    }
  }

  // ---- Keys: a rule finds at most once against a given last row ----

  ghost predicate Keyed(findings: seq<Finding>, rules: set<Rule>, ordinals: set<nat>) {
    && (forall i | 0 <= i < |findings| ::
        findings[i].ordinals != [] && findings[i].rule in rules && LastOrdinal(findings[i]) in ordinals)
    && (forall i, j | 0 <= i < j < |findings| ::
        findings[i].rule != findings[j].rule || LastOrdinal(findings[i]) != LastOrdinal(findings[j]))
  }

  function LastOrdinal(f: Finding): nat
    requires f.ordinals != []
  {
    f.ordinals[|f.ordinals| - 1]
  }

  lemma KeyedConcat(a: seq<Finding>, b: seq<Finding>, rulesA: set<Rule>, rulesB: set<Rule>, ordinalsA: set<nat>,
                    ordinalsB: set<nat>)
    requires Keyed(a, rulesA, ordinalsA) && Keyed(b, rulesB, ordinalsB)
    requires rulesA !! rulesB || ordinalsA !! ordinalsB
    ensures Keyed(a + b, rulesA + rulesB, ordinalsA + ordinalsB)
  {
    var all := a + b;
    forall i, j | 0 <= i < j < |all| ensures all[i].rule != all[j].rule || LastOrdinal(all[i]) != LastOrdinal(all[j]) {
      if i < |a| <= j {
        assert a[i].rule in rulesA && b[j - |a|].rule in rulesB;
        assert LastOrdinal(a[i]) in ordinalsA && LastOrdinal(b[j - |a|]) in ordinalsB;
      }
    }
  }

  lemma KeyedWeaken(a: seq<Finding>, rules: set<Rule>, ordinals: set<nat>, moreRules: set<Rule>, moreOrdinals: set<nat>)
    requires Keyed(a, rules, ordinals) && rules <= moreRules && ordinals <= moreOrdinals
    ensures Keyed(a, moreRules, moreOrdinals)
  {
  }

  lemma KeyedOne(lib: Library, rule: Rule, source: string, supporting: seq<StoredEvent>, evidence: Fields)
    requires supporting != []
    ensures Keyed([MakeFinding(lib, rule, source, supporting, evidence)], {rule},
                  {supporting[|supporting| - 1].ordinal})
  {
  }

  ghost function OrdinalSet(rows: seq<StoredEvent>): set<nat> {
    set r | r in rows :: r.ordinal
  }

  ghost predicate DistinctOrdinals(rows: seq<StoredEvent>) {
    forall i, j | 0 <= i < j < |rows| :: rows[i].ordinal != rows[j].ordinal
  }

  lemma OrdinalSetSplit(front: seq<StoredEvent>, back: seq<StoredEvent>)
    requires DistinctOrdinals(front + back)
    ensures OrdinalSet(front + back) == OrdinalSet(front) + OrdinalSet(back)
    ensures OrdinalSet(front) !! OrdinalSet(back)
    ensures DistinctOrdinals(front) && DistinctOrdinals(back)
  {
    var all := front + back;
    forall i | 0 <= i < |front| ensures front[i].ordinal !in OrdinalSet(back) {
      assert all[i] == front[i];
      assert forall j | 0 <= j < |back| :: all[|front| + j] == back[j];
    }
    forall i, j | 0 <= i < j < |back| ensures back[i].ordinal != back[j].ordinal {
      assert all[|front| + i] == back[i] && all[|front| + j] == back[j];
    }
    assert forall i | 0 <= i < |front| :: all[i] == front[i];
  }

  const APPEND_RULES := {DelayedArrival, SequenceRegression}
  const SOURCE_RULES := {SequenceGap, RepeatedPayload, StaleSource}

  lemma RowKeyed(lib: Library, policy: Policy, before: seq<StoredEvent>, row: StoredEvent)
    ensures Keyed(RowFindings(lib, policy, before, row), APPEND_RULES, {row.ordinal})
  {
    hide MakeFinding, Keyed, Highest;
    var e, previous := row.event, Highest(before, row.event.sourceId);
    KeyedNone({DelayedArrival}, {row.ordinal});
    KeyedNone({SequenceRegression}, {row.ordinal});
    KeyedOne(lib, DelayedArrival, e.sourceId, [row], map["delay_seconds" := lib.seconds(e.ingestedAt - e.observedAt)]);
    if previous.Some? {
      KeyedOne(lib, SequenceRegression, e.sourceId, [previous.value, row],
        map["current_sequence" := Int(e.sourceSequence),
            "prior_highest_sequence" := Int(previous.value.event.sourceSequence)]);
    }
    KeyedConcat(DelayFindings(lib, policy, row), RegressionFindings(lib, previous, row),
      {DelayedArrival}, {SequenceRegression}, {row.ordinal}, {row.ordinal});
    assert {DelayedArrival} + {SequenceRegression} == APPEND_RULES && {row.ordinal} + {row.ordinal} == {row.ordinal};
  }

  lemma KeyedNone(rules: set<Rule>, ordinals: set<nat>)
    ensures Keyed([], rules, ordinals)
  {
  }

  lemma {:induction false} AppendKeyed(lib: Library, policy: Policy, rows: seq<StoredEvent>)
    requires DistinctOrdinals(rows)
    ensures Keyed(AppendFindings(lib, policy, rows), APPEND_RULES, OrdinalSet(rows))
  {
    hide RowFindings;
    if rows != [] {
      hide Keyed, DistinctOrdinals;
      var front, row := rows[..|rows| - 1], rows[|rows| - 1];
      assert rows == front + [row];
      OrdinalSetSplit(front, [row]);
      assert OrdinalSet([row]) == {row.ordinal};
      AppendKeyed(lib, policy, front);
      RowKeyed(lib, policy, front, row);
      KeyedConcat(AppendFindings(lib, policy, front), RowFindings(lib, policy, front, row),
        APPEND_RULES, APPEND_RULES, OrdinalSet(front), OrdinalSet([row]));
      assert APPEND_RULES + APPEND_RULES == APPEND_RULES;
    }
  }

  lemma GapFindingsSnoc(lib: Library, source: string, pairs: seq<(StoredEvent, StoredEvent)>,
                        pair: (StoredEvent, StoredEvent))
    ensures GapFindings(lib, source, pairs + [pair])
         == GapFindings(lib, source, pairs) + [GapFinding(lib, source, pair)]
  {
    hide GapFinding;
  }

  lemma GapKeyed(lib: Library, source: string, left: StoredEvent, right: StoredEvent)
    ensures Keyed([GapFinding(lib, source, (left, right))], {SequenceGap}, {right.ordinal})
  {
    hide MakeFinding, Keyed;
    KeyedOne(lib, SequenceGap, source, [left, right],
      map["missing_count" := Int(Missing(left, right)),
          "missing_from" := Int(left.event.sourceSequence + 1),
          "missing_to" := Int(right.event.sourceSequence - 1)]);
  }

  lemma {:induction false} GapsKeyed(lib: Library, source: string, ordered: seq<StoredEvent>)
    requires DistinctOrdinals(ordered)
    ensures Keyed(GapFindings(lib, source, GapPairs(ordered)), {SequenceGap}, OrdinalSet(ordered))
  {
    if |ordered| < 2 {
      assert GapPairs(ordered) == [];
    } else {
      hide Keyed, DistinctOrdinals, GapPairs, GapFindings, GapFinding;
      var n := |ordered| - 1;
      var front, left, right := ordered[..n], ordered[n - 1], ordered[n];
      assert ordered == front + [right];
      OrdinalSetSplit(front, [right]);
      assert OrdinalSet([right]) == {right.ordinal};
      GapsKeyed(lib, source, front);
      GapPairsStep(ordered);
      var before := GapFindings(lib, source, GapPairs(front));
      if Missing(left, right) > 0 {
        GapKeyed(lib, source, left, right);
        GapFindingsSnoc(lib, source, GapPairs(front), (left, right));
        KeyedConcat(before, [GapFinding(lib, source, (left, right))], {SequenceGap}, {SequenceGap}, OrdinalSet(front),
                    OrdinalSet([right]));
      } else {
        KeyedWeaken(before, {SequenceGap}, OrdinalSet(front), {SequenceGap}, OrdinalSet(ordered));
      }
    }
  }

  lemma {:induction false} RunsKeyed(lib: Library, policy: Policy, source: string, runs: seq<seq<StoredEvent>>)
    requires DistinctOrdinals(Concat(runs))
    ensures Keyed(RunFindings(lib, policy, source, runs), {RepeatedPayload}, OrdinalSet(Concat(runs)))
  {
    hide MakeFinding;
    if runs != [] {
      hide Keyed, DistinctOrdinals;
      var front, run := runs[..|runs| - 1], runs[|runs| - 1];
      OrdinalSetSplit(Concat(front), run);
      RunsKeyed(lib, policy, source, front);
      var before := RunFindings(lib, policy, source, front);
      if run != [] && |run| >= policy.frozenRunLength {
        KeyedOne(lib, RepeatedPayload, source, run,
          map["payload_sha256" := Str(lib.Sha256Text(lib.encodeAscii(Obj(run[0].event.payload)))),
              "run_length" := Int(|run|)]);
        KeyedWeaken([RunFinding(lib, source, run)], {RepeatedPayload}, {run[|run| - 1].ordinal}, {RepeatedPayload},
                    OrdinalSet(run));
        KeyedConcat(before, [RunFinding(lib, source, run)], {RepeatedPayload}, {RepeatedPayload},
                    OrdinalSet(Concat(front)), OrdinalSet(run));
      } else {
        KeyedWeaken(before, {RepeatedPayload}, OrdinalSet(Concat(front)), {RepeatedPayload}, OrdinalSet(Concat(runs)));
      }
    }
  }

  lemma StaleKeyed(lib: Library, policy: Policy, asOf: int, source: string, ordered: seq<StoredEvent>)
    ensures Keyed(StaleFindings(lib, policy, asOf, source, ordered), {StaleSource}, OrdinalSet(ordered))
  {
    if ordered != [] {
      assert ordered[|ordered| - 1] in ordered;
    }
  }

  lemma SourceKeyed(lib: Library, policy: Policy, asOf: int, source: string, ordered: seq<StoredEvent>)
    requires DistinctOrdinals(ordered)
    ensures Keyed(SourceFindings(lib, policy, asOf, source, ordered), SOURCE_RULES, OrdinalSet(ordered))
  {
    hide Keyed, GapFindings, RunFindings, StaleFindings, GapPairs, PayloadRuns, Concat, OrdinalSet, DistinctOrdinals;
    var ordinals := OrdinalSet(ordered);
    GapsKeyed(lib, source, ordered);
    RunsAreMaximal(ordered);
    RunsKeyed(lib, policy, source, PayloadRuns(ordered));
    StaleKeyed(lib, policy, asOf, source, ordered);
    var gaps := GapFindings(lib, source, GapPairs(ordered));
    var repeated := RunFindings(lib, policy, source, PayloadRuns(ordered));
    KeyedConcat(gaps, repeated, {SequenceGap}, {RepeatedPayload}, ordinals, ordinals);
    KeyedConcat(gaps + repeated, StaleFindings(lib, policy, asOf, source, ordered),
      {SequenceGap} + {RepeatedPayload}, {StaleSource}, ordinals + ordinals, ordinals);
    assert {SequenceGap} + {RepeatedPayload} + {StaleSource} == SOURCE_RULES
           && ordinals + ordinals + ordinals == ordinals;
  }

  ghost function OrdinalsFrom(rows: seq<StoredEvent>, sources: seq<string>): set<nat> {
    set r | r in rows && r.event.sourceId in sources :: r.ordinal
  }

  lemma ProducedOrdinals(rows: seq<StoredEvent>, sources: seq<string>, source: string)
    requires DistinctRows(rows) && source !in sources
    ensures var ordered := Produced(rows, source);
            && DistinctOrdinals(ordered)
            && OrdinalsFrom(rows, sources) !! OrdinalSet(ordered)
            && OrdinalsFrom(rows, sources + [source]) == OrdinalsFrom(rows, sources) + OrdinalSet(ordered)
  {
    hide Produced;
    var ordered := Produced(rows, source);
    ProducedIsStrict(rows, source);
    forall a, b | a in rows && b in rows && a.ordinal == b.ordinal ensures a == b {
      var i :| 0 <= i < |rows| && rows[i] == a;
      var j :| 0 <= j < |rows| && rows[j] == b;
      assert !(i < j) && !(j < i);
    }
    forall i, j | 0 <= i < j < |ordered| ensures ordered[i].ordinal != ordered[j].ordinal {
      assert ordered[i] in ordered && ordered[j] in ordered;
      assert ordered[i].event.sourceSequence < ordered[j].event.sourceSequence;
    }
  }

  lemma {:induction false} SourcesKeyed(lib: Library, policy: Policy, asOf: int, rows: seq<StoredEvent>,
                                        sources: seq<string>)
    requires DistinctRows(rows) && forall i, j | 0 <= i < j < |sources| :: sources[i] != sources[j]
    ensures Keyed(AllSourceFindings(lib, policy, asOf, rows, sources), SOURCE_RULES, OrdinalsFrom(rows, sources))
  {
    hide SourceFindings, Produced, DistinctRows, OrdinalsFrom, OrdinalSet;
    if sources != [] {
      hide Keyed;
      var front, source := sources[..|sources| - 1], sources[|sources| - 1];
      assert sources == front + [source];
      SourcesKeyed(lib, policy, asOf, rows, front);
      ProducedOrdinals(rows, front, source);
      SourceKeyed(lib, policy, asOf, source, Produced(rows, source));
      KeyedConcat(AllSourceFindings(lib, policy, asOf, rows, front),
                  SourceFindings(lib, policy, asOf, source, Produced(rows, source)),
        SOURCE_RULES, SOURCE_RULES, OrdinalsFrom(rows, front), OrdinalSet(Produced(rows, source)));
      assert SOURCE_RULES + SOURCE_RULES == SOURCE_RULES;
    }
  }

  /** Over distinct rows, no two findings share both rule and last ordinal. */
  lemma FindingsAreKeyed(lib: Library, policy: Policy, asOf: int, rows: seq<StoredEvent>)
    requires DistinctRows(rows)
    ensures exists rules, ordinals :: Keyed(AllFindings(lib, policy, asOf, rows), rules, ordinals)
  {
    hide Keyed, AppendFindings, AllSourceFindings;
    var sources := Text.Sorted(SourceIds(rows));
    assert DistinctOrdinals(rows);
    AppendKeyed(lib, policy, rows);
    SourcesKeyed(lib, policy, asOf, rows, sources);
    KeyedConcat(AppendFindings(lib, policy, rows), AllSourceFindings(lib, policy, asOf, rows, sources),
      APPEND_RULES, SOURCE_RULES, OrdinalSet(rows), OrdinalsFrom(rows, sources));
    assert Keyed(AllFindings(lib, policy, asOf, rows), APPEND_RULES + SOURCE_RULES,
                 OrdinalSet(rows) + OrdinalsFrom(rows, sources));
  }

  // ---- Identities ----

  function IdentityOf(f: Finding): Json {
    Identity(f.rule, f.sourceId, f.eventIds, f.ordinals, f.evidence)
  }

  /** The byte strings whose digests are the finding ids. */
  ghost function IdentityTexts(lib: Library, findings: seq<Finding>): iset<Bytes> {
    iset f | f in findings :: IdentityBytes(lib, IdentityOf(f))
  }

  lemma StringsFinite(s: seq<string>)
    ensures Finite(Strings(s))
  {
  }

  lemma NumbersFinite(s: seq<nat>)
    ensures Finite(Numbers(s))
  {
    forall i | 0 <= i < |s| ensures Finite(Numbers(s).items[i]) {
      assert Numbers(s).items[i] == Int(s[i]);
    }
  }

  lemma IdentityFinite(f: Finding)
    requires Finite(Obj(f.evidence))
    ensures Finite(IdentityOf(f))
  {
    StringsFinite(f.eventIds);
    NumbersFinite(f.ordinals);
  }

  lemma NumbersInjective(a: seq<nat>, b: seq<nat>)
    requires Numbers(a) == Numbers(b)
    ensures a == b
  {
    assert |a| == |Numbers(a).items| == |Numbers(b).items| == |b|;
    forall i | 0 <= i < |a| ensures a[i] == b[i] {
      assert Numbers(a).items[i] == Numbers(b).items[i];
    }
  }

  lemma StringsInjective(a: seq<string>, b: seq<string>)
    requires Strings(a) == Strings(b)
    ensures a == b
  {
    assert |a| == |Strings(a).items| == |Strings(b).items| == |b|;
    forall i | 0 <= i < |a| ensures a[i] == b[i] {
      assert Strings(a).items[i] == Strings(b).items[i];
    }
  }

  /** What each value of an identity document is. */
  lemma IdentityValues(f: Finding)
    ensures IdentityOf(f).Obj?
    ensures var x := IdentityOf(f).fields;
            && {"code", "ledger_ordinals", "event_ids", "evidence", "source_id"} <= x.Keys
            && x["code"] == Str(Code(f.rule)) && x["ledger_ordinals"] == Numbers(f.ordinals)
            && x["event_ids"] == Strings(f.eventIds) && x["evidence"] == Obj(f.evidence)
            && x["source_id"] == Str(f.sourceId)
  {
    hide Code, RuleId, Strings, Numbers;
  }

  lemma CodesDistinct(a: Rule, b: Rule)
    requires Code(a) == Code(b)
    ensures a == b
  {
  }

  /** An identity document binds the rule, the source, the evidence references and the evidence values. */
  lemma IdentityBinds(f: Finding, g: Finding)
    requires IdentityOf(f) == IdentityOf(g)
    ensures f.rule == g.rule && f.sourceId == g.sourceId && f.eventIds == g.eventIds
    ensures f.ordinals == g.ordinals && f.evidence == g.evidence
  {
    hide IdentityOf, Code, Strings, Numbers;
    IdentityValues(f);
    IdentityValues(g);
    CodesDistinct(f.rule, g.rule);
    NumbersInjective(f.ordinals, g.ordinals);
    StringsInjective(f.eventIds, g.eventIds);
  }

  /** Absent a hash collision, findings made from ledger rows with the same id are the same finding. */
  lemma FindingIdBinds(lib: Library, rows: seq<StoredEvent>, other: seq<StoredEvent>, f: Finding, g: Finding)
    requires lib.Lawful() && Supported(lib, rows, f) && Supported(lib, other, g)
    requires NoCollision(lib, iset{IdentityBytes(lib, IdentityOf(f)), IdentityBytes(lib, IdentityOf(g))})
    ensures f.findingId == g.findingId <==> f == g
  {
    hide Supported, IdentityOf, IdentityBytes;
    SupportedIdentity(lib, rows, f);
    SupportedIdentity(lib, other, g);
    if f.findingId == g.findingId {
      IdentityBytesInjective(lib, IdentityOf(f), IdentityOf(g));
      IdentityBinds(f, g);
    }
  }

  lemma IdentityBytesInjective(lib: Library, a: Json, b: Json)
    requires lib.Lawful() && Finite(a) && Finite(b) && IdentityBytes(lib, a) == IdentityBytes(lib, b)
    ensures a == b
  {
    lib.TextRoundTrip(lib.encodeAscii(a));
    lib.TextRoundTrip(lib.encodeAscii(b));
    lib.AsciiInjective(a, b);
  }

  lemma SupportedIdentity(lib: Library, rows: seq<StoredEvent>, f: Finding)
    requires Supported(lib, rows, f)
    ensures f.findingId == lib.sha256(IdentityBytes(lib, IdentityOf(f))) && Finite(IdentityOf(f))
  {
    var supporting :| SupportedBy(lib, rows, f, supporting);
    IdentityFinite(f);
  }

  ghost predicate DistinctIds(findings: seq<Finding>) {
    forall i, j | 0 <= i < j < |findings| :: findings[i].findingId != findings[j].findingId
  }

  /** Absent hash collisions among the findings' identities, all finding ids are distinct. */
  lemma FindingIdsDistinct(lib: Library, policy: Policy, asOf: int, rows: seq<StoredEvent>)
    requires lib.Lawful() && DistinctRows(rows)
    requires NoCollision(lib, IdentityTexts(lib, AllFindings(lib, policy, asOf, rows)))
    ensures DistinctIds(AllFindings(lib, policy, asOf, rows))
  {
    hide AllFindings, Supported, IdentityOf, IdentityBytes;
    var findings := AllFindings(lib, policy, asOf, rows);
    FindingsAreSupported(lib, policy, asOf, rows);
    FindingsAreKeyed(lib, policy, asOf, rows);
    var rules, ordinals :| Keyed(findings, rules, ordinals);
    forall i, j | 0 <= i < j < |findings| ensures findings[i].findingId != findings[j].findingId {
      var f, g := findings[i], findings[j];
      assert f in findings && g in findings;
      SupportedIdentity(lib, rows, f);
      SupportedIdentity(lib, rows, g);
      if f.findingId == g.findingId {
        assert IdentityBytes(lib, IdentityOf(f)) == IdentityBytes(lib, IdentityOf(g));
        IdentityBytesInjective(lib, IdentityOf(f), IdentityOf(g));
        IdentityBinds(f, g);
      }
    }
  }

  ghost predicate StrictById(findings: seq<Finding>) {
    forall i, j | 0 <= i < j < |findings| ::
      ById(findings[i], findings[j]) && findings[i].findingId != findings[j].findingId
  }

  function FindingIds(findings: seq<Finding>): seq<string> {
    seq(|findings|, i requires 0 <= i < |findings| => findings[i].findingId)
  }

  lemma IdOrderTotal()
    ensures Sorting.TotalPreorder(ById)
  {
    forall a: Finding, b: Finding ensures ById(a, b) || ById(b, a) {
      Text.LeqTotal(a.findingId, b.findingId);
    }
    forall a: Finding, b: Finding, c: Finding | ById(a, b) && ById(b, c) ensures ById(a, c) {
      Text.LeqTransitive(a.findingId, b.findingId, c.findingId);
    }
  }

  lemma {:induction false} DistinctOnce(findings: seq<Finding>)
    requires DistinctIds(findings)
    ensures forall f :: multiset(findings)[f] <= 1
  {
    if findings != [] {
      var front, last := findings[..|findings| - 1], findings[|findings| - 1];
      DistinctOnce(front);
      assert findings == front + [last];
      assert last !in front;
    }
  }

  lemma SortStrict(findings: seq<Finding>)
    requires DistinctIds(findings)
    ensures StrictById(Sorting.Sort(ById, findings))
  {
    var sorted := Sorting.Sort(ById, findings);
    IdOrderTotal();
    Sorting.SortOrdered(ById, findings);
    Sorting.SortMembers(ById, findings);
    DistinctOnce(findings);
    assert multiset(sorted) == multiset(findings);
    forall i, j | 0 <= i < j < |sorted| ensures sorted[i].findingId != sorted[j].findingId {
      assert sorted[i] in findings && sorted[j] in findings;
      if sorted[i].findingId == sorted[j].findingId {
        assert sorted[i] == sorted[j];
        RepeatsCounted(sorted, i, j);
      }
    }
  }

  lemma SameIdSameFinding(findings: seq<Finding>, f: Finding, g: Finding)
    requires StrictById(findings) && f in findings && g in findings && f.findingId == g.findingId
    ensures f == g
  {
  }

  /** A set of findings has at most one strictly sorted form. */
  lemma StrictFormIsUnique(findings: seq<Finding>, other: seq<Finding>)
    requires StrictById(findings) && StrictById(other) && forall f :: f in findings <==> f in other
    ensures findings == other
  {
    var a, b := FindingIds(findings), FindingIds(other);
    assert Text.StrictlyIncreasing(a) && Text.StrictlyIncreasing(b);
    forall x ensures x in a <==> x in b {
      if x in a {
        var i :| 0 <= i < |a| && a[i] == x;
        assert findings[i] in other;
        var j :| 0 <= j < |other| && other[j] == findings[i];
        assert b[j] == x;
      }
      if x in b {
        var i :| 0 <= i < |b| && b[i] == x;
        assert other[i] in findings;
        var j :| 0 <= j < |findings| && findings[j] == other[i];
        assert a[j] == x;
      }
    }
    Text.SortedIsUnique(a, b);
    forall i | 0 <= i < |findings| ensures findings[i] == other[i] {
      assert a[i] == b[i] && findings[i] in other;
      SameIdSameFinding(other, findings[i], other[i]);
    }
  }

  /** The evaluator's output is the one strictly sorted sequence of its finding set. */
  lemma OutputIsCanonical(lib: Library, policy: Policy, asOf: int, log: Log, other: seq<Finding>)
    requires lib.Lawful() && LogOk(log)
    requires var findings := AllFindings(lib, policy, asOf, StoredRows(lib, log));
             && NoCollision(lib, IdentityTexts(lib, findings))
             && StrictById(other) && forall f :: f in other <==> f in findings
    ensures StrictById(Evaluate(lib, policy, asOf, StoredRows(lib, log)))
    ensures Evaluate(lib, policy, asOf, StoredRows(lib, log)) == other
  {
    hide AllFindings, LogOk, Supported, StrictById;
    var rows := StoredRows(lib, log);
    UseLogOk(log);
    LedgerRowsDistinct(lib, log);
    FindingIdsDistinct(lib, policy, asOf, rows);
    SortStrict(AllFindings(lib, policy, asOf, rows));
    Sorting.SortMembers(ById, AllFindings(lib, policy, asOf, rows));
    StrictFormIsUnique(Evaluate(lib, policy, asOf, rows), other);
  }
}
