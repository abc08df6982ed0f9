/** Evidence bundles, their builder and their independent verifier: `src/edge_evidence/bundle.py`. */
module Bundles {
  import opened Wrappers
  import opened JsonValues
  import opened Libraries
  import opened Events
  import opened Logs
  import opened Ledgers
  import opened Projection
  import opened Checkpoints
  import opened QualityRules
  import C = Checksums
  import Sorting
  import Text

  const BUNDLE_VERSION := "1.0"
  const SYSTEM_VERSION := "0.2.0.dev0"
  const LEDGER_SCHEMA_VERSION := 1
  const CLASSIFIER_VERSION := "1.0"

  datatype Artifact =
    | BoundaryFindings | LedgerEvents | PolicyFile | QualityFindings | Report | RunFile | StateFile
    | Manifest | ChecksumFile

  function FileName(a: Artifact): string {
    match a
    case BoundaryFindings => "boundary_findings.jsonl"
    case LedgerEvents => "ledger_events.jsonl"
    case PolicyFile => "policy.json"
    case QualityFindings => "quality_findings.jsonl"
    case Report => "report.md"
    case RunFile => "run.json"
    case StateFile => "state.json"
    case Manifest => "manifest.json"
    case ChecksumFile => "checksums.sha256"
  }

  function MediaType(a: Artifact): string {
    match a
    case Report => "text/markdown; charset=utf-8"
    case BoundaryFindings => "application/x-ndjson"
    case LedgerEvents => "application/x-ndjson"
    case QualityFindings => "application/x-ndjson"
    case _ => "application/json"
  }

  const PAYLOADS := [BoundaryFindings, LedgerEvents, PolicyFile, QualityFindings, Report, RunFile, StateFile]
  const SEALED := PAYLOADS + [Manifest]
  const EXPECTED := SEALED + [ChecksumFile]

  lemma AllExpected(a: Artifact)
    ensures a in EXPECTED
  {
    assert EXPECTED[..7] == PAYLOADS && EXPECTED[7] == Manifest && EXPECTED[8] == ChecksumFile;
    match a
    case BoundaryFindings => assert EXPECTED[0] == a;
    case LedgerEvents => assert EXPECTED[1] == a;
    case PolicyFile => assert EXPECTED[2] == a;
    case QualityFindings => assert EXPECTED[3] == a;
    case Report => assert EXPECTED[4] == a;
    case RunFile => assert EXPECTED[5] == a;
    case StateFile => assert EXPECTED[6] == a;
    case Manifest =>
    case ChecksumFile =>
  }

  function Names(artifacts: seq<Artifact>): set<string> {
    set a | a in artifacts :: FileName(a)
  }

  /** A bundle directory: the names of its regular files and their contents. */
  type Files = map<string, Bytes>

  // ---- Building ----

  /** What `build_bundle` is called with, besides the ledger. */
  datatype Inputs = Inputs(
    bundleId: string,
    createdAt: Instant,
    asOf: Instant,
    policy: Policy,
    boundary: seq<Fields>,
    scenario: Option<string>,
    seed: Option<int>
  )

  /** The exceptions the builder raises. */
  datatype BuildError = InvalidBundleId | NotUtcTime | MissingCode | UnsortableCodes | NonFiniteNumber

  function LedgerDocument(lib: Library, row: StoredEvent): Json {
    Obj(map[
      "content_sha256" := Str(row.contentSha256),
      "event" := ToMapping(lib, row.event),
      "ordinal" := Int(row.ordinal)
    ])
  }

  function LedgerDocuments(lib: Library, rows: seq<StoredEvent>): seq<Json> {
    seq(|rows|, i requires 0 <= i < |rows| => LedgerDocument(lib, rows[i]))
  }

  function Interpretation(rule: Rule): string {
    match rule
    case DelayedArrival => "Arrival exceeded the configured evidence delay."
    case SequenceRegression => "Append arrival order regressed in source sequence."
    case SequenceGap => "One or more source positions lack evidence."
    case RepeatedPayload => "Repeated values require review; sensor failure is not inferred."
    case StaleSource => "No recent observation exists at the evaluation time."
  }

  /** `QualityFinding.to_mapping`. */
  function QualityDocument(f: Finding): Json {
    Obj(map[
      "code" := Str(Code(f.rule)),
      "event_ids" := Strings(f.eventIds),
      "evidence" := Obj(f.evidence),
      "finding_id" := Str(f.findingId),
      "interpretation" := Str(Interpretation(f.rule)),
      "ledger_ordinals" := Numbers(f.ordinals),
      "rule_id" := Str(RuleId(f.rule)),
      "rule_version" := Str(POLICY_VERSION),
      "severity" := Str("warning"),
      "source_id" := Str(f.sourceId)
    ])
  }

  function QualityDocuments(findings: seq<Finding>): seq<Json> {
    seq(|findings|, i requires 0 <= i < |findings| => QualityDocument(findings[i]))
  }

  function PolicyDocument(p: Policy): Json {
    Obj(map[
      "delay_threshold_seconds" := Int(p.delayThresholdSeconds),
      "frozen_run_length" := Int(p.frozenRunLength),
      "stale_after_seconds" := Int(p.staleAfterSeconds),
      "version" := Str(POLICY_VERSION)
    ])
  }

  /** The run document: identity, times, versions and counts. */
  function RunDocument(lib: Library, inputs: Inputs, events: nat, findings: nat, boundary: nat,
                       stateSha256: string): Json
    requires inputs.createdAt.Utc? && inputs.asOf.Utc?
  {
    Obj(map[
      "boundary_finding_count" := Int(boundary),
      "bundle_id" := Str(inputs.bundleId),
      "bundle_version" := Str(BUNDLE_VERSION),
      "created_at" := Str(lib.formatUtc(inputs.createdAt.micros)),
      "evaluated_as_of" := Str(lib.formatUtc(inputs.asOf.micros)),
      "event_contract_version" := Str(SCHEMA_VERSION),
      "event_count" := Int(events),
      "ledger_schema_version" := Int(LEDGER_SCHEMA_VERSION),
      "projector_version" := Str(PROJECTOR_VERSION),
      "quality_finding_count" := Int(findings),
      "quality_policy_version" := Str(POLICY_VERSION),
      "scenario" := (match inputs.scenario case Some(s) => Str(s) case None => Null),
      "seed" := (match inputs.seed case Some(n) => Int(n) case None => Null),
      "state_sha256" := Str(stateSha256),
      "system_version" := Str(SYSTEM_VERSION)
    ])
  }

  /** `_jsonl_bytes`: one canonical line per document. */
  function JsonlBytes(lib: Library, documents: seq<Json>): Bytes {
    if documents == [] then [] else lib.JsonLine(documents[0]) + JsonlBytes(lib, documents[1..])
  }

  /** The documents a bundle seals. */
  datatype Parts = Parts(
    bundleId: string,
    boundary: seq<Json>,
    ledger: seq<Json>,
    policy: Json,
    quality: seq<Json>,
    report: Bytes,
    run: Json,
    state: Json
  )

  function PayloadContent(lib: Library, parts: Parts, a: Artifact): Bytes {
    match a
    case BoundaryFindings => JsonlBytes(lib, parts.boundary)
    case LedgerEvents => JsonlBytes(lib, parts.ledger)
    case PolicyFile => lib.JsonLine(parts.policy)
    case QualityFindings => JsonlBytes(lib, parts.quality)
    case Report => parts.report
    case RunFile => lib.JsonLine(parts.run)
    case StateFile => lib.JsonLine(parts.state)
    case _ => []
  }

  function ManifestEntry(lib: Library, a: Artifact, content: Bytes): Json {
    Obj(map[
      "bytes" := Int(|content|),
      "media_type" := Str(MediaType(a)),
      "sha256" := Str(lib.sha256(content))
    ])
  }

  lemma FileNamesDistinct(a: Artifact, b: Artifact)
    ensures FileName(a) == FileName(b) <==> a == b
  {
  }

  /** The artifact of a file name of the contract. */
  function Named(name: string): (a: Artifact)
    requires name in Names(EXPECTED)
    ensures a in EXPECTED && FileName(a) == name
  {
    assert forall a, b | FileName(a) == FileName(b) :: a == b by {
      forall a, b | FileName(a) == FileName(b) ensures a == b { FileNamesDistinct(a, b); }
    }
    var a :| a in EXPECTED && FileName(a) == name;
    a
  }

  lemma SealedNames()
    ensures Names(PAYLOADS) <= Names(SEALED) <= Names(EXPECTED)
  {
    assert forall a | a in PAYLOADS :: a in SEALED;
    assert forall a | a in SEALED :: a in EXPECTED;
  }

  function ManifestDocument(lib: Library, parts: Parts): (m: Json)
    ensures m.Obj?
  {
    SealedNames();
    Obj(map[
      "artifacts" := Obj(map name | name in Names(PAYLOADS) ::
                           ManifestEntry(lib, Named(name), PayloadContent(lib, parts, Named(name)))),
      "bundle_id" := Str(parts.bundleId),
      "bundle_version" := Str(BUNDLE_VERSION)
    ])
  }

  function SealedContent(lib: Library, parts: Parts, a: Artifact): Bytes {
    if a.Manifest? then lib.JsonLine(ManifestDocument(lib, parts)) else PayloadContent(lib, parts, a)
  }

  function ChecksumEntries(lib: Library, parts: Parts): C.Entries {
    SealedNames();
    map name | name in Names(SEALED) :: lib.sha256(SealedContent(lib, parts, Named(name)))
  }

  function FileContent(lib: Library, parts: Parts, a: Artifact): Bytes {
    if a.ChecksumFile? then lib.utf8(C.Render(ChecksumEntries(lib, parts))) else SealedContent(lib, parts, a)
  }

  /** The nine files of a sealed bundle. */
  function FilesOf(lib: Library, parts: Parts): Files {
    map name | name in Names(EXPECTED) :: FileContent(lib, parts, Named(name))
  }

  predicate PortableId(s: string) {
    s != "" && C.Portable(s)
  }

  function Codes(documents: seq<Json>): seq<Json>
    requires forall d | d in documents :: d.Obj?
  {
    seq(|documents|, i requires 0 <= i < |documents| =>
      assert documents[i] in documents; Get(documents[i].fields, "code"))
  }

  /** Comparison of documents by their JSON text. */
  function ByText(lib: Library): (Json, Json) -> bool {
    (a, b) => Text.Leq(lib.encodeAscii(a), lib.encodeAscii(b))
  }

  function BoundaryDocuments(boundary: seq<Fields>): seq<Json> {
    seq(|boundary|, i requires 0 <= i < |boundary| => Obj(boundary[i]))
  }

  /** The boundary findings in the order of their JSON text. */
  function SortedBoundary(lib: Library, boundary: seq<Fields>): seq<Json> {
    Sorting.Sort(ByText(lib), BoundaryDocuments(boundary))
  }

  lemma BoundaryMembers(lib: Library, boundary: seq<Fields>)
    ensures forall d :: d in SortedBoundary(lib, boundary) <==> d.Obj? && d.fields in boundary
  {
    var documents := BoundaryDocuments(boundary);
    Sorting.SortMembers(ByText(lib), documents);
    forall fields | fields in boundary ensures Obj(fields) in documents {
      var i :| 0 <= i < |boundary| && boundary[i] == fields;
      assert documents[i] == Obj(fields);
    }
  }

  /** The documents of a run over some rows, a projected state and their findings. */
  function PartsOf(lib: Library, inputs: Inputs, rows: seq<StoredEvent>, state: State,
                   findings: seq<Finding>): Result<Parts, BuildError>
    requires inputs.createdAt.Utc? && inputs.asOf.Utc?
  {
    var boundary, quality := SortedBoundary(lib, inputs.boundary), QualityDocuments(findings);
    BoundaryMembers(lib, inputs.boundary);
    if exists fields | fields in inputs.boundary :: "code" !in fields then Err(MissingCode)
    else
      var run := RunDocument(lib, inputs, |rows|, |findings|, |boundary|, lib.sha256(lib.encode(StateJson(state))));
      if exists d | d in boundary :: !Finite(d) then Err(NonFiniteNumber)
      else
        match lib.report(run, Codes(boundary) + Codes(quality))
        case None => Err(UnsortableCodes)
        case Some(report) =>
          Ok(Parts(inputs.bundleId, boundary, LedgerDocuments(lib, rows), PolicyDocument(inputs.policy), quality,
                   report, run, StateJson(state)))
  }

  /** `build_bundle`, given the ledger at its first read and at its second. */
  function Build(lib: Library, inputs: Inputs, first: Log, second: Log): Result<Files, BuildError> {
    if !PortableId(inputs.bundleId) then Err(InvalidBundleId)
    else if !inputs.createdAt.Utc? || !inputs.asOf.Utc? then Err(NotUtcTime)
    else
      var rows := StoredRows(lib, first);
      match PartsOf(lib, inputs, rows, StateOf(lib, StoredRows(lib, second)),
                    Evaluate(lib, inputs.policy, inputs.asOf.micros, rows))
      case Err(error) => Err(error)
      case Ok(parts) => Ok(FilesOf(lib, parts))
  }

  // ---- Verifying ----

  /** The error codes of `verify_bundle`. */
  datatype Problem =
    | MissingFile(name: string) | UnexpectedFile(name: string)
    | Checksums(error: C.ChecksumError) | ChecksumFileSetMismatch | ChecksumMismatch(a: Artifact)
    | InvalidJson(a: Artifact) | NoncanonicalJson(a: Artifact)
    | InvalidJsonl(a: Artifact) | NoncanonicalJsonl(a: Artifact)
    | InvalidManifest | InvalidManifestArtifacts | ManifestFileSetMismatch | UnsupportedBundleVersion
    | InvalidManifestEntry(a: Artifact) | SizeMismatch(a: Artifact)
    | ManifestHashMismatch(a: Artifact) | MediaTypeMismatch(a: Artifact)
    | InvalidLedgerDocument | LedgerContentDigestMismatch | LedgerOrdinalOrderInvalid
    | InvalidQualityFinding | FindingIdentityMismatch | FindingEventReferenceMismatch
    | InvalidBoundaryFinding | BoundaryClassifierVersionMismatch
    | InvalidState | StateDigestMismatch | StateEventCountMismatch | StateLastOrdinalMismatch
    | InvalidRun | BundleIdMismatch | RunEventCountMismatch | RunQualityCountMismatch | RunBoundaryCountMismatch
    | ProjectorVersionMismatch | QualityPolicyVersionMismatch
    | InvalidPolicy | PolicyVersionMismatch

  /** The verification result, or the exception of a file that is not UTF-8 or holds NaN or infinity. */
  datatype Verification = Verified(bundleId: Json, checkedFiles: nat, errors: set<Problem>) | Raised

  predicate Valid(v: Verification) {
    v.Verified? && v.errors == {}
  }

  function If(condition: bool, problem: Problem): set<Problem> {
    if condition then {problem} else {}
  }

  function FileSetProblems(files: Files): set<Problem> {
    (set name | name in Names(EXPECTED) - files.Keys :: MissingFile(name))
    + (set name | name in files.Keys - Names(EXPECTED) :: UnexpectedFile(name))
  }

  function Content(files: Files, a: Artifact): Bytes
    requires Names(EXPECTED) <= files.Keys
  {
    AllExpected(a);
    files[FileName(a)]
  }

  function Reported(errors: seq<C.ChecksumError>): set<Problem> {
    set e | e in errors :: Checksums(e)
  }

  /** `checksums.get(name) == _sha256(content)`. */
  predicate Listed(lib: Library, files: Files, entries: C.Entries, a: Artifact)
    requires Names(EXPECTED) <= files.Keys
  {
    FileName(a) in entries && entries[FileName(a)] == lib.sha256(Content(files, a))
  }

  function ChecksumProblems(lib: Library, files: Files): set<Problem>
    requires Names(EXPECTED) <= files.Keys
  {
    var parsed := C.Parse(lib, Content(files, ChecksumFile));
    Reported(parsed.errors)
    + If(parsed.entries.Keys != Names(SEALED), ChecksumFileSetMismatch)
    + (set a | a in SEALED && !Listed(lib, files, parsed.entries, a) :: ChecksumMismatch(a))
  }

  /** A parsed file and what was wrong with its text; or an exception. */
  datatype Reading<T> = Read(value: T, problems: set<Problem>) | Crashed

  /** `_parse_json_file`. */
  function ParseJson(lib: Library, a: Artifact, content: Bytes): Reading<Json> {
    match lib.loads(content)
    case Undecodable => Crashed
    case Malformed => Read(Null, {InvalidJson(a)})
    case Value(j) => if !Finite(j) then Crashed else Read(j, If(content != lib.JsonLine(j), NoncanonicalJson(a)))
  }

  /** The loop over lines, which a malformed line ends. */
  datatype Lines = Going(values: seq<Json>, problems: set<Problem>) | Stopped(problems: set<Problem>) | Broken

  function ReadLine(lib: Library, a: Artifact, before: Lines, line: Bytes): Lines {
    if !before.Going? then before
    else
      match lib.loads(line)
      case Undecodable => Broken
      case Malformed => Stopped(before.problems + {InvalidJsonl(a)})
      case Value(j) =>
        if !Finite(j) then Broken
        else Going(before.values + [j], before.problems + If(line != lib.JsonLine(j), NoncanonicalJsonl(a)))
  }

  function ReadLines(lib: Library, a: Artifact, lines: seq<Bytes>): Lines {
    if lines == [] then Going([], {})
    else ReadLine(lib, a, ReadLines(lib, a, lines[..|lines| - 1]), lines[|lines| - 1])
  }

  /** `_parse_jsonl`. */
  function ParseJsonl(lib: Library, a: Artifact, content: Bytes): Reading<seq<Json>> {
    match ReadLines(lib, a, SplitBytes(content))
    case Broken => Crashed
    case Stopped(problems) => Read([], problems)
    case Going(values, problems) => Read(values, problems)
  }

  function EntryProblems(lib: Library, files: Files, artifacts: Fields, a: Artifact): set<Problem>
    requires Names(EXPECTED) <= files.Keys && FileName(a) in artifacts
  {
    var content, entry := Content(files, a), artifacts[FileName(a)];
    if !entry.Obj? then {InvalidManifestEntry(a)}
    else
      If(entry.fields.Keys != {"bytes", "media_type", "sha256"}, InvalidManifestEntry(a))
      + If(!PyEqual(Get(entry.fields, "bytes"), Int(|content|)), SizeMismatch(a))
      + If(Get(entry.fields, "sha256") != Str(lib.sha256(content)), ManifestHashMismatch(a))
      + If(Get(entry.fields, "media_type") != Str(MediaType(a)), MediaTypeMismatch(a))
  }

  function ManifestProblems(lib: Library, files: Files, manifest: Json): set<Problem>
    requires Names(EXPECTED) <= files.Keys
  {
    if !manifest.Obj? then {InvalidManifest}
    else
      var artifacts := Get(manifest.fields, "artifacts");
      (if !artifacts.Obj? then {InvalidManifestArtifacts}
       else if artifacts.fields.Keys != Names(PAYLOADS) then {ManifestFileSetMismatch}
       else set a, p | a in PAYLOADS && p in EntryProblems(lib, files, artifacts.fields, a) :: p)
      + If(Get(manifest.fields, "bundle_version") != Str(BUNDLE_VERSION), UnsupportedBundleVersion)
  }

  const LEDGER_FIELDS := {"content_sha256", "event", "ordinal"}

  /** The integer of a JSON integer; `True` is one. */
  function IntOf(j: Json): int
    requires IsInt(j)
  {
    match j
    case Int(n) => n
    case Bool(b) => if b then 1 else 0
  }

  /** What the loop over ledger documents carries. */
  datatype LedgerCheck = LedgerCheck(ordinals: map<int, string>, prior: int, problems: set<Problem>)

  const NO_DOCUMENTS := LedgerCheck(map[], 0, {})

  function CheckDocument(lib: Library, s: LedgerCheck, d: Json): LedgerCheck {
    if !d.Obj? || d.fields.Keys != LEDGER_FIELDS then s.(problems := s.problems + {InvalidLedgerDocument})
    else
      match FromMapping(lib, d.fields["event"])
      case Err(_) => s.(problems := s.problems + {InvalidLedgerDocument})
      case Ok(e) =>
        var ordinal := d.fields["ordinal"];
        var problems := s.problems
          + If(d.fields["content_sha256"] != Str(ContentDigest(lib, e)), LedgerContentDigestMismatch);
        if !IsInt(ordinal) || IntOf(ordinal) <= s.prior then s.(problems := problems + {LedgerOrdinalOrderInvalid})
        else LedgerCheck(s.ordinals[IntOf(ordinal) := e.eventId], IntOf(ordinal), problems)
  }

  function CheckDocuments(lib: Library, documents: seq<Json>): LedgerCheck {
    if documents == [] then NO_DOCUMENTS
    else CheckDocument(lib, CheckDocuments(lib, documents[..|documents| - 1]), documents[|documents| - 1])
  }

  const QUALITY_FIELDS := {
    "code", "event_ids", "evidence", "finding_id", "interpretation",
    "ledger_ordinals", "rule_id", "rule_version", "severity", "source_id"
  }

  /** The integer key a JSON value equals as a dictionary key, if any. */
  function Key(j: Json): Option<int> {
    match j
    case Int(n) => Some(n)
    case Bool(b) => Some(if b then 1 else 0)
    case Float(whole, fraction) => if fraction == 0 then Some(whole) else None
    case NegativeZero => Some(0)
    case _ => None
  }

  /** `ordinal_to_event.get(ordinal) == event_id`: an unknown ordinal gives None, which equals null. */
  predicate Refers(ordinals: map<int, string>, ordinal: Json, eventId: Json) {
    if Key(ordinal).Some? && Key(ordinal).value in ordinals then eventId == Str(ordinals[Key(ordinal).value])
    else eventId == Null
  }

  /** Iterating a JSON value: the items of a list, the characters of a string, the keys of an object. */
  function Items(j: Json): Option<seq<Json>> {
    match j
    case Arr(items) => Some(items)
    case Str(s) => Some(seq(|s|, i requires 0 <= i < |s| => Str([s[i]])))
    case Obj(fields) =>
      var keys := Text.Sorted(fields.Keys); Some(seq(|keys|, i requires 0 <= i < |keys| => Str(keys[i])))
    case _ => None
  }

  datatype PairVerdict = Matched | Mismatched | TypeOrValueError

  /** The strict zip under `any`, which stops at the first mismatch. */
  function MatchPairs(ordinals: map<int, string>, xs: seq<Json>, ys: seq<Json>): PairVerdict {
    if xs == [] && ys == [] then Matched
    else if xs == [] || ys == [] then TypeOrValueError
    else if xs[0].Arr? || xs[0].Obj? then TypeOrValueError
    else if !Refers(ordinals, xs[0], ys[0]) then Mismatched
    else MatchPairs(ordinals, xs[1..], ys[1..])
  }

  function ReferenceVerdict(ordinals: map<int, string>, d: Fields): PairVerdict {
    var xs, ys := Items(Get(d, "ledger_ordinals")), Items(Get(d, "event_ids"));
    if xs.None? || ys.None? then TypeOrValueError else MatchPairs(ordinals, xs.value, ys.value)
  }

  /** The identity digest recomputed from a finding document. */
  function DocumentDigest(lib: Library, d: Fields): string {
    IdentityDigest(lib,
                   IdentityDocument(Get(d, "code"), Get(d, "event_ids"), Get(d, "evidence"), Get(d, "ledger_ordinals"),
                                         Get(d, "rule_id"), Get(d, "rule_version"), Get(d, "source_id")))
  }

  function FindingProblems(lib: Library, ordinals: map<int, string>, d: Json): set<Problem> {
    if !d.Obj? || d.fields.Keys != QUALITY_FIELDS then {InvalidQualityFinding}
    else
      If(d.fields["finding_id"] != Str(DocumentDigest(lib, d.fields)), FindingIdentityMismatch)
      + match ReferenceVerdict(ordinals, d.fields)
        case Matched => {}
        case Mismatched => {FindingEventReferenceMismatch}
        case TypeOrValueError => {InvalidQualityFinding}
  }

  function QualityProblems(lib: Library, ordinals: map<int, string>, documents: seq<Json>): set<Problem> {
    set d, p | d in documents && p in FindingProblems(lib, ordinals, d) :: p
  }

  const BOUNDARY_FIELDS := {"classifier_version", "code", "event_id", "record_index"}

  function BoundaryDocumentProblems(d: Json): set<Problem> {
    if !d.Obj? || d.fields.Keys != BOUNDARY_FIELDS then {InvalidBoundaryFinding}
    else
      If(Get(d.fields, "classifier_version") != Str(CLASSIFIER_VERSION), BoundaryClassifierVersionMismatch)
      + If(!IsInt(Get(d.fields, "record_index")), InvalidBoundaryFinding)
  }

  function BoundaryProblems(documents: seq<Json>): set<Problem> {
    set d, p | d in documents && p in BoundaryDocumentProblems(d) :: p
  }

  predicate IsGreatest(m: int, s: set<int>) {
    m in s && forall x | x in s :: x <= m
  }

  lemma EmptyOrMember(s: set<int>)
    ensures s == {} || exists x :: x in s
  {
    if forall x :: x !in s { assert s == {}; }
  }

  lemma GreatestExists(s: set<int>)
    requires s != {}
    ensures exists m :: IsGreatest(m, s)
  {
    EmptyOrMember(s);
    var x :| x in s;
    var rest := s - {x};
    if rest == {} {
      assert s == {x};
      assert IsGreatest(x, s);
    } else {
      GreatestExists(rest);
      var m :| IsGreatest(m, rest);
      assert forall y | y in s :: y == x || y in rest;
      assert IsGreatest(if x > m then x else m, s);
    }
  }

  /** `max(ordinal_to_event, default=0)`. */
  function GreatestKey(ordinals: map<int, string>): (m: int)
    ensures ordinals == map[] ==> m == 0
    ensures ordinals != map[] ==> IsGreatest(m, ordinals.Keys)
  {
    if ordinals.Keys == {} then 0
    else
      GreatestExists(ordinals.Keys);
      var m :| IsGreatest(m, ordinals.Keys);
      m
  }

  function StateProblems(lib: Library, state: Json, run: Json, documents: nat, last: int): set<Problem> {
    if !state.Obj? then {Problem.InvalidState}
    else
      If(run.Obj? && Get(run.fields, "state_sha256") != Str(lib.sha256(lib.encode(state))), StateDigestMismatch)
      + If(!PyEqual(Get(state.fields, "event_count"), Int(documents)), StateEventCountMismatch)
      + If(!PyEqual(Get(state.fields, "last_ordinal"), Int(last)), StateLastOrdinalMismatch)
  }

  function RunProblems(run: Json, bundleId: Json, documents: nat, findings: nat, boundary: nat): set<Problem> {
    if !run.Obj? then {InvalidRun}
    else
      If(!PyEqual(Get(run.fields, "bundle_id"), bundleId), BundleIdMismatch)
      + If(!PyEqual(Get(run.fields, "event_count"), Int(documents)), RunEventCountMismatch)
      + If(!PyEqual(Get(run.fields, "quality_finding_count"), Int(findings)), RunQualityCountMismatch)
      + If(!PyEqual(Get(run.fields, "boundary_finding_count"), Int(boundary)), RunBoundaryCountMismatch)
      + If(Get(run.fields, "projector_version") != Str(PROJECTOR_VERSION), ProjectorVersionMismatch)
      + If(Get(run.fields, "quality_policy_version") != Str(POLICY_VERSION), QualityPolicyVersionMismatch)
  }

  function PolicyProblems(policy: Json): set<Problem> {
    if !policy.Obj? then {InvalidPolicy}
    else
      If(Get(policy.fields, "version") != Str(POLICY_VERSION), PolicyVersionMismatch)
      + If(!IsInt(Get(policy.fields, "delay_threshold_seconds")) || !IsInt(Get(policy.fields, "frozen_run_length"))
           || !IsInt(Get(policy.fields, "stale_after_seconds")), InvalidPolicy)
  }

  /** The seven parsed files. */
  datatype Parsed = Parsed(
    manifest: Reading<Json>, run: Reading<Json>, state: Reading<Json>, policy: Reading<Json>,
    ledger: Reading<seq<Json>>, quality: Reading<seq<Json>>, boundary: Reading<seq<Json>>
  )

  function ParseAll(lib: Library, files: Files): Parsed
    requires Names(EXPECTED) <= files.Keys
  {
    Parsed(
      ParseJson(lib, Manifest, Content(files, Manifest)),
      ParseJson(lib, RunFile, Content(files, RunFile)),
      ParseJson(lib, StateFile, Content(files, StateFile)),
      ParseJson(lib, PolicyFile, Content(files, PolicyFile)),
      ParseJsonl(lib, LedgerEvents, Content(files, LedgerEvents)),
      ParseJsonl(lib, QualityFindings, Content(files, QualityFindings)),
      ParseJsonl(lib, BoundaryFindings, Content(files, BoundaryFindings)))
  }

  predicate AllRead(p: Parsed) {
    p.manifest.Read? && p.run.Read? && p.state.Read? && p.policy.Read? && p.ledger.Read? && p.quality.Read?
      && p.boundary.Read?
  }

  function TextProblems(p: Parsed): set<Problem>
    requires AllRead(p)
  {
    p.manifest.problems + p.run.problems + p.state.problems + p.policy.problems
    + p.ledger.problems + p.quality.problems + p.boundary.problems
  }

  function BundleIdOf(manifest: Json): Json {
    if manifest.Obj? then Get(manifest.fields, "bundle_id") else Null
  }

  /** The checks on the parsed documents. */
  function SemanticProblems(lib: Library, files: Files, p: Parsed): set<Problem>
    requires Names(EXPECTED) <= files.Keys && AllRead(p)
  {
    var check := CheckDocuments(lib, p.ledger.value);
    ManifestProblems(lib, files, p.manifest.value)
    + check.problems
    + QualityProblems(lib, check.ordinals, p.quality.value)
    + BoundaryProblems(p.boundary.value)
    + StateProblems(lib, p.state.value, p.run.value, |p.ledger.value|, GreatestKey(check.ordinals))
    + RunProblems(p.run.value, BundleIdOf(p.manifest.value), |p.ledger.value|, |p.quality.value|, |p.boundary.value|)
    + PolicyProblems(p.policy.value)
  }

  /** `verify_bundle` on a directory. */
  function Verify(lib: Library, files: Files): Verification {
    if FileSetProblems(files) != {} then Verified(Null, 0, FileSetProblems(files))
    else
      FileSetComplete(files);
      var parsed := ParseAll(lib, files);
      if !AllRead(parsed) then Raised
      else
        Verified(BundleIdOf(parsed.manifest.value), |EXPECTED|,
                 ChecksumProblems(lib, files) + TextProblems(parsed) + SemanticProblems(lib, files, parsed))
  }

  /** No file is missing and none is unexpected exactly when the file set is the contract's. */
  lemma FileSetComplete(files: Files)
    ensures FileSetProblems(files) == {} <==> files.Keys == Names(EXPECTED)
  {
    forall name ensures name in Names(EXPECTED) - files.Keys ==> MissingFile(name) in FileSetProblems(files) {
    }
    forall name ensures name in files.Keys - Names(EXPECTED) ==> UnexpectedFile(name) in FileSetProblems(files) {
    }
    if FileSetProblems(files) == {} {
      assert Names(EXPECTED) - files.Keys == {};
      assert files.Keys - Names(EXPECTED) == {};
    }
  }
}
