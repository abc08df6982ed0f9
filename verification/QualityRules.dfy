/** The evidence-quality rules as functions of the ledger rows: `src/edge_evidence/quality.py`. */
module QualityRules {
  import opened Wrappers
  import opened JsonValues
  import opened Libraries
  import opened Events
  import opened Ledgers
  import Sorting
  import Text

  const POLICY_VERSION := "1.0"

  datatype Rule = DelayedArrival | SequenceGap | SequenceRegression | RepeatedPayload | StaleSource

  datatype Policy = Policy(delayThresholdSeconds: int, staleAfterSeconds: int, frozenRunLength: int)

  const DEFAULT_POLICY := Policy(60, 60, 3)

  /** What the policy's own validation guarantees. */
  predicate PolicyOk(p: Policy) {
    p.delayThresholdSeconds >= 0 && p.staleAfterSeconds >= 0 && p.frozenRunLength >= 2
  }

  datatype Finding = Finding(
    findingId: string,
    rule: Rule,
    sourceId: string,
    eventIds: seq<string>,
    ordinals: seq<nat>,
    evidence: Fields
  )

  function Code(rule: Rule): string {
    match rule
    case DelayedArrival => "delayed_arrival"
    case SequenceGap => "source_sequence_gap"
    case SequenceRegression => "source_sequence_regression"
    case RepeatedPayload => "repeated_payload_run"
    case StaleSource => "stale_source"
  }

  function RuleId(rule: Rule): string {
    match rule
    case DelayedArrival => "DQ-001"
    case SequenceGap => "DQ-002"
    case SequenceRegression => "DQ-003"
    case RepeatedPayload => "DQ-004"
    case StaleSource => "DQ-005"
  }

  function IdsOf(rows: seq<StoredEvent>): seq<string> {
    seq(|rows|, i requires 0 <= i < |rows| => rows[i].event.eventId)
  }

  function OrdinalsOf(rows: seq<StoredEvent>): seq<nat> {
    seq(|rows|, i requires 0 <= i < |rows| => rows[i].ordinal)
  }

  function Strings(s: seq<string>): Json {
    Arr(seq(|s|, i requires 0 <= i < |s| => Str(s[i])))
  }

  function Numbers(s: seq<nat>): Json {
    Arr(seq(|s|, i requires 0 <= i < |s| => Int(s[i])))
  }

  /** The seven values a finding's identity binds. */
  function IdentityDocument(code: Json, eventIds: Json, evidence: Json, ordinals: Json,
                            ruleId: Json, ruleVersion: Json, sourceId: Json): Json {
    Obj(map[
      "code" := code,
      "event_ids" := eventIds,
      "evidence" := evidence,
      "ledger_ordinals" := ordinals,
      "rule_id" := ruleId,
      "rule_version" := ruleVersion,
      "source_id" := sourceId
    ])
  }

  function Identity(rule: Rule, sourceId: string, eventIds: seq<string>, ordinals: seq<nat>, evidence: Fields): Json {
    IdentityDocument(Str(Code(rule)), Strings(eventIds), Obj(evidence), Numbers(ordinals),
                     Str(RuleId(rule)), Str(POLICY_VERSION), Str(sourceId))
  }

  function IdentityBytes(lib: Library, identity: Json): Bytes {
    lib.utf8(lib.encodeAscii(identity))
  }

  /** `finding_identity_digest` of an identity document. */
  function IdentityDigest(lib: Library, identity: Json): string {
    lib.sha256(IdentityBytes(lib, identity))
  }

  /** `_finding`. */
  function MakeFinding(lib: Library, rule: Rule, sourceId: string, supporting: seq<StoredEvent>,
                       evidence: Fields): Finding {
    var ids, ordinals := IdsOf(supporting), OrdinalsOf(supporting);
    Finding(IdentityDigest(lib, Identity(rule, sourceId, ids, ordinals, evidence)), rule, sourceId, ids, ordinals,
            evidence)
  }

  /** The row of greatest sequence among the earlier rows of a source. */
  function Highest(rows: seq<StoredEvent>, source: string): Option<StoredEvent> {
    if rows == [] then None
    else
      var before, row := Highest(rows[..|rows| - 1], source), rows[|rows| - 1];
      if row.event.sourceId != source then before
      else if before.None? || row.event.sourceSequence > before.value.event.sourceSequence then Some(row)
      else before
  }

  predicate Delayed(policy: Policy, e: Event) {
    e.ingestedAt - e.observedAt > policy.delayThresholdSeconds * SECOND
  }

  /** DQ-001 and DQ-003 for one row, given the rows before it. */
  function RowFindings(lib: Library, policy: Policy, before: seq<StoredEvent>, row: StoredEvent): seq<Finding> {
    DelayFindings(lib, policy, row) + RegressionFindings(lib, Highest(before, row.event.sourceId), row)
  }

  function DelayFindings(lib: Library, policy: Policy, row: StoredEvent): seq<Finding> {
    var e := row.event;
    if Delayed(policy, e)
    then [MakeFinding(lib, DelayedArrival, e.sourceId, [row],
                      map["delay_seconds" := lib.seconds(e.ingestedAt - e.observedAt)])]
    else []
  }

  function RegressionFindings(lib: Library, previous: Option<StoredEvent>, row: StoredEvent): seq<Finding> {
    if previous.Some? && row.event.sourceSequence < previous.value.event.sourceSequence
    then [MakeFinding(lib, SequenceRegression, row.event.sourceId, [previous.value, row],
                      map["current_sequence" := Int(row.event.sourceSequence),
                          "prior_highest_sequence" := Int(previous.value.event.sourceSequence)])]
    else []
  }

  function AppendFindings(lib: Library, policy: Policy, rows: seq<StoredEvent>): seq<Finding> {
    if rows == [] then []
    else
      var front := rows[..|rows| - 1];
      AppendFindings(lib, policy, front) + RowFindings(lib, policy, front, rows[|rows| - 1])
  }

  function SourceIds(rows: seq<StoredEvent>): set<string> {
    set r | r in rows :: r.event.sourceId
  }

  function SourceRows(rows: seq<StoredEvent>, source: string): seq<StoredEvent> {
    if rows == [] then []
    else
      SourceRows(rows[..|rows| - 1], source)
      + (if rows[|rows| - 1].event.sourceId == source then [rows[|rows| - 1]] else [])
  }

  predicate BySequence(a: StoredEvent, b: StoredEvent) {
    a.event.sourceSequence <= b.event.sourceSequence
  }

  /** A source's rows in production order. */
  function Produced(rows: seq<StoredEvent>, source: string): seq<StoredEvent> {
    Sorting.Sort(BySequence, SourceRows(rows, source))
  }

  /** Neighbours in production order with positions missing between them. */
  function GapPairs(ordered: seq<StoredEvent>): seq<(StoredEvent, StoredEvent)> {
    if |ordered| < 2 then []
    else
      var n := |ordered| - 1;
      GapPairs(ordered[..n])
      + (if Missing(ordered[n - 1], ordered[n]) > 0 then [(ordered[n - 1], ordered[n])] else [])
  }

  function Missing(left: StoredEvent, right: StoredEvent): int {
    right.event.sourceSequence - left.event.sourceSequence - 1
  }

  function GapFinding(lib: Library, source: string, pair: (StoredEvent, StoredEvent)): Finding {
    MakeFinding(lib, SequenceGap, source, [pair.0, pair.1],
                map["missing_count" := Int(Missing(pair.0, pair.1)),
                    "missing_from" := Int(pair.0.event.sourceSequence + 1),
                    "missing_to" := Int(pair.1.event.sourceSequence - 1)])
  }

  function GapFindings(lib: Library, source: string, pairs: seq<(StoredEvent, StoredEvent)>): seq<Finding> {
    seq(|pairs|, i requires 0 <= i < |pairs| => GapFinding(lib, source, pairs[i]))
  }

  /** Consecutive rows of equal payload, grouped. */
  function PayloadRuns(ordered: seq<StoredEvent>): seq<seq<StoredEvent>> {
    if ordered == [] then []
    else
      AddToRuns(PayloadRuns(ordered[..|ordered| - 1]), ordered[|ordered| - 1])
  }

  function AddToRuns(runs: seq<seq<StoredEvent>>, row: StoredEvent): seq<seq<StoredEvent>> {
    if runs != [] && runs[|runs| - 1] != [] && runs[|runs| - 1][0].event.payload == row.event.payload
    then runs[..|runs| - 1] + [runs[|runs| - 1] + [row]]
    else runs + [[row]]
  }

  function RunFinding(lib: Library, source: string, run: seq<StoredEvent>): Finding
    requires run != []
  {
    MakeFinding(lib, RepeatedPayload, source, run,
                map["payload_sha256" := Str(lib.Sha256Text(lib.encodeAscii(Obj(run[0].event.payload)))),
                    "run_length" := Int(|run|)])
  }

  function RunFindings(lib: Library, policy: Policy, source: string, runs: seq<seq<StoredEvent>>): seq<Finding> {
    if runs == [] then []
    else
      var run := runs[|runs| - 1];
      RunFindings(lib, policy, source, runs[..|runs| - 1])
      + (if |run| >= policy.frozenRunLength && run != [] then [RunFinding(lib, source, run)] else [])
  }

  function StaleFindings(lib: Library, policy: Policy, asOf: int, source: string,
                         ordered: seq<StoredEvent>): seq<Finding> {
    if ordered == [] then []
    else
      var latest := ordered[|ordered| - 1];
      var age := asOf - latest.event.observedAt;
      if age > policy.staleAfterSeconds * SECOND
      then [MakeFinding(lib, StaleSource, source, [latest], map["age_seconds" := lib.seconds(age)])]
      else []
  }

  /** DQ-002, DQ-004 and DQ-005 for one source. */
  function SourceFindings(lib: Library, policy: Policy, asOf: int, source: string,
                          ordered: seq<StoredEvent>): seq<Finding> {
    GapFindings(lib, source, GapPairs(ordered))
    + RunFindings(lib, policy, source, PayloadRuns(ordered))
    + StaleFindings(lib, policy, asOf, source, ordered)
  }

  function AllSourceFindings(lib: Library, policy: Policy, asOf: int, rows: seq<StoredEvent>,
                             sources: seq<string>): seq<Finding> {
    if sources == [] then []
    else
      var source := sources[|sources| - 1];
      AllSourceFindings(lib, policy, asOf, rows, sources[..|sources| - 1])
      + SourceFindings(lib, policy, asOf, source, Produced(rows, source))
  }

  function AllFindings(lib: Library, policy: Policy, asOf: int, rows: seq<StoredEvent>): seq<Finding> {
    AppendFindings(lib, policy, rows) + AllSourceFindings(lib, policy, asOf, rows, Text.Sorted(SourceIds(rows)))
  }

  predicate ById(a: Finding, b: Finding) {
    Text.Leq(a.findingId, b.findingId)
  }

  /** What `evaluate_quality` returns. */
  function Evaluate(lib: Library, policy: Policy, asOf: int, rows: seq<StoredEvent>): seq<Finding> {
    Sorting.Sort(ById, AllFindings(lib, policy, asOf, rows))
  }
}
