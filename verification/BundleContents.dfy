/** What the files of a built bundle say, of the ledger and of the inputs (`src/edge_evidence/bundle.py:184-279`). */
module BundleContents {
  import opened Wrappers
  import opened JsonValues
  import opened Libraries
  import opened Events
  import opened Logs
  import opened Ledgers
  import opened Projection
  import opened Checkpoints
  import opened QualityRules
  import opened QualityMeaning
  import opened Bundles
  import opened BundleAgreement
  import Sorting
  import Text

  // ---- Documents ----

  /** The document of one committed event: its ordinal, its mapping, and the digest of the mapping's text. */
  ghost predicate RowTells(lib: Library, d: Json, ordinal: nat, e: Event) {
    && d.Obj? && d.fields.Keys == {"content_sha256", "event", "ordinal"}
    && d.fields["ordinal"] == Int(ordinal)
    && FromMapping(lib, d.fields["event"]) == Ok(e)
    && d.fields["content_sha256"] == Str(lib.sha256(lib.encode(d.fields["event"])))
  }

  predicate RuleTells(rule: Rule, id: Json, code: Json) {
    match rule
    case DelayedArrival => id == Str("DQ-001") && code == Str("delayed_arrival")
    case SequenceGap => id == Str("DQ-002") && code == Str("source_sequence_gap")
    case SequenceRegression => id == Str("DQ-003") && code == Str("source_sequence_regression")
    case RepeatedPayload => id == Str("DQ-004") && code == Str("repeated_payload_run")
    case StaleSource => id == Str("DQ-005") && code == Str("stale_source")
  }

  /** The document of one finding. */
  ghost predicate FindingTells(d: Json, f: Finding) {
    && d.Obj?
    && d.fields.Keys == {"code", "event_ids", "evidence", "finding_id", "interpretation", "ledger_ordinals", "rule_id",
                         "rule_version", "severity", "source_id"}
    && RuleTells(f.rule, d.fields["rule_id"], d.fields["code"])
    && Texts(d.fields["event_ids"], f.eventIds) && Integers(d.fields["ledger_ordinals"], f.ordinals)
    && d.fields["evidence"] == Obj(f.evidence) && d.fields["finding_id"] == Str(f.findingId)
    && d.fields["source_id"] == Str(f.sourceId)
    && d.fields["rule_version"] == Str("1.0") && d.fields["severity"] == Str("warning")
  }

  predicate Texts(j: Json, s: seq<string>) {
    j.Arr? && |j.items| == |s| && forall i | 0 <= i < |s| :: j.items[i] == Str(s[i])
  }

  predicate Integers(j: Json, s: seq<nat>) {
    j.Arr? && |j.items| == |s| && forall i | 0 <= i < |s| :: j.items[i] == Int(s[i])
  }

  ghost predicate PolicyTells(d: Json, p: Policy) {
    && d.Obj?
    && d.fields.Keys == {"delay_threshold_seconds", "frozen_run_length", "stale_after_seconds", "version"}
    && d.fields["delay_threshold_seconds"] == Int(p.delayThresholdSeconds)
    && d.fields["frozen_run_length"] == Int(p.frozenRunLength)
    && d.fields["stale_after_seconds"] == Int(p.staleAfterSeconds)
    && d.fields["version"] == Str("1.0")
  }

  /** The run document: what was asked for, what was counted, and the versions. */
  ghost predicate RunTells(lib: Library, d: Json, inputs: Inputs, events: nat, findings: nat, boundary: nat,
                           state: Json) {
    && d.Obj? && RunAsked(lib, d.fields, inputs) && RunCounted(lib, d.fields, events, findings, boundary, state)
    && RunVersions(d.fields)
    && d.fields.Keys == {"boundary_finding_count", "bundle_id", "bundle_version", "created_at", "evaluated_as_of",
                         "event_contract_version", "event_count", "ledger_schema_version", "projector_version",
                         "quality_finding_count", "quality_policy_version", "scenario", "seed", "state_sha256",
                         "system_version"}
  }

  ghost predicate RunAsked(lib: Library, d: Fields, inputs: Inputs) {
    && {"bundle_id", "created_at", "evaluated_as_of", "scenario", "seed"} <= d.Keys
    && inputs.createdAt.Utc? && inputs.asOf.Utc?
    && d["bundle_id"] == Str(inputs.bundleId)
    && ReadsAs(lib, d["created_at"], inputs.createdAt.micros) && ReadsAs(lib, d["evaluated_as_of"], inputs.asOf.micros)
    && d["scenario"] == (if inputs.scenario.Some? then Str(inputs.scenario.value) else Null)
    && d["seed"] == (if inputs.seed.Some? then Int(inputs.seed.value) else Null)
  }

  ghost predicate RunCounted(lib: Library, d: Fields, events: nat, findings: nat, boundary: nat, state: Json) {
    && {"event_count", "quality_finding_count", "boundary_finding_count", "state_sha256"} <= d.Keys
    && d["event_count"] == Int(events) && d["quality_finding_count"] == Int(findings)
    && d["boundary_finding_count"] == Int(boundary)
    && d["state_sha256"] == Str(lib.sha256(lib.encode(state)))
  }

  ghost predicate RunVersions(d: Fields) {
    && {"bundle_version", "event_contract_version", "ledger_schema_version", "projector_version",
        "quality_policy_version", "system_version"} <= d.Keys
    && d["bundle_version"] == d["event_contract_version"] == d["projector_version"] == d["quality_policy_version"]
      == Str("1.0")
    && d["ledger_schema_version"] == Int(1) && d["system_version"] == Str("0.2.0.dev0")
  }

  // ---- Files ----

  /** The documents behind the files of a bundle. */
  datatype Contents = Contents(
    ledger: seq<Json>,
    quality: seq<Json>,
    findings: seq<Finding>,
    boundary: seq<Json>,
    policy: Json,
    run: Json,
    state: Json,
    manifest: Json
  )

  const NAMES := {
    "boundary_findings.jsonl", "checksums.sha256", "ledger_events.jsonl", "manifest.json", "policy.json",
    "quality_findings.jsonl", "report.md", "run.json", "state.json"
  }

  /** Each file is the canonical text of its documents; the report is that of the run and all finding codes. */
  ghost predicate Writes(lib: Library, files: Files, c: Contents) {
    && files.Keys == NAMES
    && files["ledger_events.jsonl"] == JsonlBytes(lib, c.ledger)
    && files["quality_findings.jsonl"] == JsonlBytes(lib, c.quality)
    && files["boundary_findings.jsonl"] == JsonlBytes(lib, c.boundary)
    && files["policy.json"] == lib.JsonLine(c.policy)
    && files["run.json"] == lib.JsonLine(c.run)
    && files["state.json"] == lib.JsonLine(c.state)
    && files["manifest.json"] == lib.JsonLine(c.manifest)
    && (forall d | d in c.boundary :: d.Obj?) && (forall d | d in c.quality :: d.Obj?)
    && lib.report(c.run, Codes(c.boundary) + Codes(c.quality)) == Some(files["report.md"])
  }

  ghost predicate LedgerTells(lib: Library, log: Log, documents: seq<Json>) {
    |documents| == |log| && forall i | 0 <= i < |log| :: RowTells(lib, documents[i], i + 1, log[i])
  }

  /** The quality documents are those of findings that say of the ledger what is so, all of it and nothing else. */
  ghost predicate QualityTells(lib: Library, inputs: Inputs, log: Log, documents: seq<Json>, findings: seq<Finding>) {
    && |documents| == |findings| && (forall i | 0 <= i < |findings| :: FindingTells(documents[i], findings[i]))
    && inputs.asOf.Utc? && Tell(lib, inputs.policy, inputs.asOf.micros, log, findings)
  }

  /** The boundary documents are the findings handed in, each as often, in the order of their text. */
  ghost predicate BoundaryTells(lib: Library, inputs: Inputs, documents: seq<Json>) {
    && (exists given: seq<Json> :: multiset(documents) == multiset(given) && Objects(given, inputs.boundary))
    && forall i, j | 0 <= i < j < |documents| ::
         Text.Leq(lib.encodeAscii(documents[i]), lib.encodeAscii(documents[j]))
  }

  predicate Objects(documents: seq<Json>, fields: seq<Fields>) {
    |documents| == |fields| && forall i | 0 <= i < |fields| :: documents[i] == Obj(fields[i])
  }

  /** The manifest lists the seven payload files with their sizes, digests and media types. */
  ghost predicate ManifestTells(lib: Library, inputs: Inputs, files: Files, d: Json) {
    && d.Obj? && d.fields.Keys == {"artifacts", "bundle_id", "bundle_version"}
    && d.fields["bundle_id"] == Str(inputs.bundleId) && d.fields["bundle_version"] == Str("1.0")
    && d.fields["artifacts"].Obj?
    && d.fields["artifacts"].fields.Keys == NAMES - {"manifest.json", "checksums.sha256"}
    && forall name | name in d.fields["artifacts"].fields.Keys && name in files ::
         EntryTells(lib, name, files[name], d.fields["artifacts"].fields[name])
  }

  ghost predicate EntryTells(lib: Library, name: string, content: Bytes, d: Json) {
    && d.Obj? && d.fields.Keys == {"bytes", "media_type", "sha256"}
    && d.fields["bytes"] == Int(|content|) && d.fields["sha256"] == Str(lib.sha256(content))
    && d.fields["media_type"]
       == Str(if name == "report.md" then "text/markdown; charset=utf-8"
              else if name in {"boundary_findings.jsonl", "ledger_events.jsonl", "quality_findings.jsonl"}
              then "application/x-ndjson" else "application/json")
  }

  /** The files of a bundle tell of the ledger at the first read, of its replay at the second, and of the inputs. */
  ghost predicate Holds(lib: Library, inputs: Inputs, first: Log, second: Log, files: Files, c: Contents) {
    && Writes(lib, files, c)
    && LedgerTells(lib, first, c.ledger)
    && QualityTells(lib, inputs, first, c.quality, c.findings)
    && BoundaryTells(lib, inputs, c.boundary)
    && PolicyTells(c.policy, inputs.policy)
    && StateTells(lib, second, c.state)
    && RunTells(lib, c.run, inputs, |first|, |c.findings|, |c.boundary|, c.state)
    && ManifestTells(lib, inputs, files, c.manifest)
  }

  // ---- The builder's documents ----

  lemma RowDocumentTells(lib: Library, ordinal: nat, e: Event)
    requires lib.Lawful() && ValidEvent(e)
    ensures RowTells(lib, LedgerDocument(lib, Stored(lib, ordinal, e)), ordinal, e)
  {
    hide ToMapping, FromMapping, ValidEvent;
    MappingRoundTrip(lib, e);
    var d := LedgerDocument(lib, Stored(lib, ordinal, e));
    assert d.fields.Keys == {"content_sha256", "event", "ordinal"};
  }

  lemma RowsTell(lib: Library, log: Log)
    requires lib.Lawful() && LogOk(log)
    ensures LedgerTells(lib, log, LedgerDocuments(lib, StoredRows(lib, log)))
  {
    hide RowTells, LedgerDocument, ValidEvent, Stored;
    forall i | 0 <= i < |log| ensures RowTells(lib, LedgerDocuments(lib, StoredRows(lib, log))[i], i + 1, log[i]) {
      assert log[i] in log;
      RowDocumentTells(lib, i + 1, log[i]);
    }
  }

  lemma FindingDocumentTells(f: Finding)
    ensures FindingTells(QualityDocument(f), f)
  {
    hide QualityDocument;
    QualityFields(f);
    SeverityIs(f);
  }

  lemma SeverityIs(f: Finding)
    ensures QualityDocument(f).Obj? && "severity" in QualityDocument(f).fields
            && QualityDocument(f).fields["severity"] == Str("warning")
  {
    hide Code, RuleId, Interpretation, Strings, Numbers;
  }

  lemma FindingsTell(lib: Library, inputs: Inputs, log: Log)
    requires LogOk(log) && inputs.asOf.Utc?
    ensures var findings := Evaluate(lib, inputs.policy, inputs.asOf.micros, StoredRows(lib, log));
            QualityTells(lib, inputs, log, QualityDocuments(findings), findings)
  {
    hide Evaluate, StoredRows, Tell, FindingTells, QualityDocument, LogOk;
    EvaluationTells(lib, inputs.policy, inputs.asOf.micros, log);
    var findings := Evaluate(lib, inputs.policy, inputs.asOf.micros, StoredRows(lib, log));
    forall i | 0 <= i < |findings| ensures FindingTells(QualityDocuments(findings)[i], findings[i]) {
      FindingDocumentTells(findings[i]);
    }
  }

  lemma PolicyDocumentTells(p: Policy)
    ensures PolicyTells(PolicyDocument(p), p)
  {
  }

  lemma {:induction false} RunDocumentTells(lib: Library, inputs: Inputs, events: nat, findings: nat, boundary: nat,
                                            state: Json)
    requires lib.Lawful() && inputs.createdAt.Utc? && inputs.asOf.Utc?
    ensures RunTells(lib, RunDocument(lib, inputs, events, findings, boundary, lib.sha256(lib.encode(state))),
                     inputs, events, findings, boundary, state)
  {
    hide RunAsked, RunCounted, RunVersions;
    lib.TimeRoundTrip(inputs.createdAt.micros);
    lib.TimeRoundTrip(inputs.asOf.micros);
    RunDocumentAsked(lib, inputs, events, findings, boundary, lib.sha256(lib.encode(state)));
    RunDocumentCounted(lib, inputs, events, findings, boundary, state);
    RunDocumentVersions(lib, inputs, events, findings, boundary, lib.sha256(lib.encode(state)));
    RunDocumentKeys(lib, inputs, events, findings, boundary, lib.sha256(lib.encode(state)));
  }

  lemma RunDocumentKeys(lib: Library, inputs: Inputs, events: nat, findings: nat, boundary: nat, digest: string)
    requires inputs.createdAt.Utc? && inputs.asOf.Utc?
    ensures RunDocument(lib, inputs, events, findings, boundary, digest).fields.Keys
         == {"boundary_finding_count", "bundle_id", "bundle_version", "created_at", "evaluated_as_of",
             "event_contract_version", "event_count", "ledger_schema_version", "projector_version",
             "quality_finding_count", "quality_policy_version", "scenario", "seed", "state_sha256", "system_version"}
  {
  }

  lemma RunDocumentAsked(lib: Library, inputs: Inputs, events: nat, findings: nat, boundary: nat, digest: string)
    requires inputs.createdAt.Utc? && inputs.asOf.Utc?
    requires lib.parseUtc(lib.formatUtc(inputs.createdAt.micros)) == Ok(inputs.createdAt.micros)
    requires lib.parseUtc(lib.formatUtc(inputs.asOf.micros)) == Ok(inputs.asOf.micros)
    ensures RunAsked(lib, RunDocument(lib, inputs, events, findings, boundary, digest).fields, inputs)
  {
  }

  lemma RunDocumentCounted(lib: Library, inputs: Inputs, events: nat, findings: nat, boundary: nat, state: Json)
    requires inputs.createdAt.Utc? && inputs.asOf.Utc?
    ensures RunCounted(lib, RunDocument(lib, inputs, events, findings, boundary, lib.sha256(lib.encode(state))).fields,
                       events, findings, boundary, state)
  {
  }

  lemma RunDocumentVersions(lib: Library, inputs: Inputs, events: nat, findings: nat, boundary: nat, digest: string)
    requires inputs.createdAt.Utc? && inputs.asOf.Utc?
    ensures RunVersions(RunDocument(lib, inputs, events, findings, boundary, digest).fields)
  {
    var d := RunDocument(lib, inputs, events, findings, boundary, digest).fields;
    assert d["bundle_version"] == Str("1.0") && d["event_contract_version"] == Str("1.0");
    assert d["projector_version"] == Str("1.0") && d["quality_policy_version"] == Str("1.0");
  }

  lemma ByTextOrders(lib: Library)
    ensures Sorting.TotalPreorder(ByText(lib))
  {
    var leq := ByText(lib);
    forall a, b ensures leq(a, b) || leq(b, a) {
      Text.LeqTotal(lib.encodeAscii(a), lib.encodeAscii(b));
    }
    forall a, b, c | leq(a, b) && leq(b, c) ensures leq(a, c) {
      Text.LeqTransitive(lib.encodeAscii(a), lib.encodeAscii(b), lib.encodeAscii(c));
    }
  }

  lemma SortedTells(lib: Library, inputs: Inputs)
    ensures BoundaryTells(lib, inputs, SortedBoundary(lib, inputs.boundary))
  {
    hide Sorting.Sort, Sorting.TotalPreorder, Text.Leq;
    var documents := BoundaryDocuments(inputs.boundary);
    var sorted := Sorting.Sort(ByText(lib), documents);
    ByTextOrders(lib);
    Sorting.SortOrdered(ByText(lib), documents);
    assert multiset(sorted) == multiset(documents) && Objects(documents, inputs.boundary);
    forall i, j | 0 <= i < j < |sorted| ensures Text.Leq(lib.encodeAscii(sorted[i]), lib.encodeAscii(sorted[j])) {
      assert ByText(lib)(sorted[i], sorted[j]);
    }
  }

  // ---- The builder's files ----

  lemma NamesAre()
    ensures Names(EXPECTED) == NAMES
    ensures Names(PAYLOADS) == NAMES - {"manifest.json", "checksums.sha256"}
  {
    hide FileName;
    forall a ensures FileName(a) in NAMES && (a in PAYLOADS ==> FileName(a) !in {"manifest.json", "checksums.sha256"}) {
      NameIs(a);
    }
    forall name | name in NAMES ensures name in Names(EXPECTED) {
      NameOf(name);
    }
    forall name | name in NAMES - {"manifest.json", "checksums.sha256"} ensures name in Names(PAYLOADS) {
      NameOf(name);
    }
  }

  lemma NameIs(a: Artifact)
    ensures FileName(a) in NAMES
    ensures a in PAYLOADS ==> FileName(a) !in {"manifest.json", "checksums.sha256"}
  {
    assert a in PAYLOADS ==> !a.Manifest? && !a.ChecksumFile?;
  }

  /** Each name of the contract is that of an artifact. */
  lemma NameOf(name: string)
    requires name in NAMES
    ensures exists a :: a in EXPECTED && FileName(a) == name
    ensures name !in {"manifest.json", "checksums.sha256"} ==> exists a :: a in PAYLOADS && FileName(a) == name
  {
    var a := if name == "boundary_findings.jsonl" then BoundaryFindings
             else if name == "ledger_events.jsonl" then LedgerEvents
             else if name == "policy.json" then PolicyFile
             else if name == "quality_findings.jsonl" then QualityFindings
             else if name == "report.md" then Report
             else if name == "run.json" then RunFile
             else if name == "state.json" then StateFile
             else if name == "manifest.json" then Manifest
             else ChecksumFile;
    AllExpected(a);
    assert FileName(a) == name;
    if !a.Manifest? && !a.ChecksumFile? {
      assert a in PAYLOADS;
    }
  }

  lemma FilesWrite(lib: Library, parts: Parts, findings: seq<Finding>)
    requires forall d | d in parts.boundary + parts.quality :: d.Obj?
    requires lib.report(parts.run, Codes(parts.boundary) + Codes(parts.quality)) == Some(parts.report)
    ensures Writes(lib, FilesOf(lib, parts),
                   Contents(parts.ledger, parts.quality, findings, parts.boundary, parts.policy, parts.run, parts.state,
                            ManifestDocument(lib, parts)))
  {
    hide FilesOf, ManifestDocument, JsonlBytes, Codes, Names, FileContent, FileName;
    FileAt(lib, parts, LedgerEvents);
    FileAt(lib, parts, QualityFindings);
    FileAt(lib, parts, BoundaryFindings);
    FileAt(lib, parts, PolicyFile);
    FileAt(lib, parts, RunFile);
    FileAt(lib, parts, StateFile);
    FileAt(lib, parts, Report);
    FileAt(lib, parts, Manifest);
    ContentsAre(lib, parts);
  }

  lemma FileAt(lib: Library, parts: Parts, a: Artifact)
    ensures var files := FilesOf(lib, parts);
            files.Keys == NAMES && FileName(a) in files && files[FileName(a)] == FileContent(lib, parts, a)
  {
    hide FilesOf, FileContent;
    NamesAre();
    AllExpected(a);
    FilesHold(lib, parts, a);
  }

  lemma ContentsAre(lib: Library, parts: Parts)
    ensures FileName(LedgerEvents) == "ledger_events.jsonl" && FileName(QualityFindings) == "quality_findings.jsonl"
    ensures FileName(BoundaryFindings) == "boundary_findings.jsonl" && FileName(PolicyFile) == "policy.json"
    ensures FileName(RunFile) == "run.json" && FileName(StateFile) == "state.json"
    ensures FileName(Report) == "report.md" && FileName(Manifest) == "manifest.json"
    ensures FileContent(lib, parts, LedgerEvents) == JsonlBytes(lib, parts.ledger)
    ensures FileContent(lib, parts, QualityFindings) == JsonlBytes(lib, parts.quality)
    ensures FileContent(lib, parts, BoundaryFindings) == JsonlBytes(lib, parts.boundary)
    ensures FileContent(lib, parts, PolicyFile) == lib.JsonLine(parts.policy)
    ensures FileContent(lib, parts, RunFile) == lib.JsonLine(parts.run)
    ensures FileContent(lib, parts, StateFile) == lib.JsonLine(parts.state)
    ensures FileContent(lib, parts, Report) == parts.report
    ensures FileContent(lib, parts, Manifest) == lib.JsonLine(ManifestDocument(lib, parts))
  {
    hide JsonlBytes, ManifestDocument;
  }

  lemma ManifestOfFiles(lib: Library, inputs: Inputs, parts: Parts)
    requires parts.bundleId == inputs.bundleId
    ensures ManifestTells(lib, inputs, FilesOf(lib, parts), ManifestDocument(lib, parts))
  {
    hide FilesOf, PayloadContent, EntryTells, ManifestEntry, FileName;
    NamesAre();
    var d := ManifestDocument(lib, parts);
    ManifestFields(lib, parts);
    var artifacts := d.fields["artifacts"].fields;
    var files := FilesOf(lib, parts);
    forall name | name in artifacts.Keys && name in files ensures EntryTells(lib, name, files[name], artifacts[name]) {
      var a := Named(name);
      FilesHold(lib, parts, a);
      PayloadName(a, name);
      assert files[name] == PayloadContent(lib, parts, a);
      EntryIs(lib, a, name, files[name]);
    }
  }

  lemma ManifestFields(lib: Library, parts: Parts)
    ensures var d := ManifestDocument(lib, parts).fields;
            && d.Keys == {"artifacts", "bundle_id", "bundle_version"}
            && d["bundle_id"] == Str(parts.bundleId) && d["bundle_version"] == Str("1.0")
            && d["artifacts"].Obj? && d["artifacts"].fields.Keys == Names(PAYLOADS)
            && Names(PAYLOADS) <= Names(EXPECTED)
            && forall name | name in Names(PAYLOADS) ::
                 d["artifacts"].fields[name] == ManifestEntry(lib, Named(name), PayloadContent(lib, parts, Named(name)))
  {
    hide PayloadContent, ManifestEntry, FileName, Named;
    SealedNames();
  }

  lemma PayloadName(a: Artifact, name: string)
    requires FileName(a) == name && name in NAMES - {"manifest.json", "checksums.sha256"}
    ensures !a.Manifest? && !a.ChecksumFile?
  {
  }

  lemma EntryIs(lib: Library, a: Artifact, name: string, content: Bytes)
    requires FileName(a) == name && !a.Manifest? && !a.ChecksumFile?
    ensures EntryTells(lib, name, content, ManifestEntry(lib, a, content))
  {
    var d := ManifestEntry(lib, a, content);
    assert d.fields.Keys == {"bytes", "media_type", "sha256"};
    match a
    case BoundaryFindings =>
    case LedgerEvents =>
    case PolicyFile =>
    case QualityFindings =>
    case Report =>
    case RunFile =>
    case StateFile =>
    case _ =>
  }

  // ---- Built bundles ----

  /** Every bundle that is built tells what it should: the rows of the ledger as first read, the findings
      that are so of those rows and no others, the replay of the second read, the inputs, and the files. */
  lemma BuiltBundleTells(lib: Library, inputs: Inputs, first: Log, second: Log)
    requires lib.Lawful() && LogOk(first) && LogOk(second)
    ensures var built := Build(lib, inputs, first, second);
            built.Ok? ==> exists c :: Holds(lib, inputs, first, second, built.value, c)
  {
    hide Evaluate, StateOf, StateJson, StoredRows, FilesOf, SortedBoundary, QualityDocument, QualityDocuments,
         RunDocument, LogOk, Finite, LedgerDocuments, PolicyDocument, ManifestDocument, Codes, Writes, LedgerTells,
         QualityTells, BoundaryTells, PolicyTells, StateTells, RunTells, ManifestTells, PortableId;
    if Build(lib, inputs, first, second).Ok? {
      var rows := StoredRows(lib, first);
      var state, findings := StateOf(lib, StoredRows(lib, second)),
                             Evaluate(lib, inputs.policy, inputs.asOf.micros, rows);
      var parts := PartsOf(lib, inputs, rows, state, findings).value;
      assert Build(lib, inputs, first, second).value == FilesOf(lib, parts);
      RowsTell(lib, first);
      FindingsTell(lib, inputs, first);
      SortedTells(lib, inputs);
      PolicyDocumentTells(inputs.policy);
      ReplayTells(lib, second);
      StoredRowsCount(lib, first);
      RunDocumentTells(lib, inputs, |first|, |findings|, |parts.boundary|, StateJson(state));
      BoundaryMembers(lib, inputs.boundary);
      QualityCodes(findings);
      FilesWrite(lib, parts, findings);
      ManifestOfFiles(lib, inputs, parts);
      assert Holds(lib, inputs, first, second, FilesOf(lib, parts),
                   Contents(parts.ledger, parts.quality, findings, parts.boundary, parts.policy, parts.run, parts.state,
                            ManifestDocument(lib, parts)));
    }
  }

  lemma StoredRowsCount(lib: Library, log: Log)
    ensures |StoredRows(lib, log)| == |log|
  {
  }
}
