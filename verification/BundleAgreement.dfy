/** The builder and the verifier agree (`src/edge_evidence/bundle.py`). */
module BundleAgreement {
  import opened JsonValues
  import opened Libraries
  import opened Events
  import opened Logs
  import opened Ledgers
  import opened Projection
  import opened Checkpoints
  import opened QualityRules
  import opened FindingIdentity
  import opened Bundles
  import C = Checksums

  // ---- Text: written documents parse back ----

  lemma ParseJsonWritten(lib: Library, a: Artifact, j: Json)
    requires lib.Lawful() && Finite(j)
    ensures ParseJson(lib, a, lib.JsonLine(j)) == Read(j, {})
  {
    lib.DecodesBack(j);
  }

  ghost predicate AllFinite(documents: seq<Json>) {
    forall d | d in documents :: Finite(d)
  }

  function WrittenLines(lib: Library, documents: seq<Json>): seq<Bytes> {
    seq(|documents|, i requires 0 <= i < |documents| => lib.JsonLine(documents[i]))
  }

  lemma {:induction false} FirstLineEnds(line: Bytes, rest: Bytes)
    requires OneLine(line)
    ensures FirstLine(line + [LF] + rest) == |line| + 1
  {
    var whole := line + [LF] + rest;
    if line == [] {
      assert whole[0] == LF;
    } else {
      assert whole[0] == line[0];
      assert whole[1..] == line[1..] + [LF] + rest;
      FirstLineEnds(line[1..], rest);
    }
  }

  lemma SplitOne(line: Bytes, rest: Bytes)
    requires OneLine(line)
    ensures SplitBytes(line + [LF] + rest) == [line + [LF]] + SplitBytes(rest)
  {
    var whole := line + [LF] + rest;
    FirstLineEnds(line, rest);
    assert whole[..|line| + 1] == line + [LF] && whole[|line| + 1..] == rest;
  }

  lemma {:induction false} SplitWritten(lib: Library, documents: seq<Json>)
    requires lib.Lawful() && AllFinite(documents)
    ensures SplitBytes(JsonlBytes(lib, documents)) == WrittenLines(lib, documents)
  {
    if documents != [] {
      hide SplitBytes;
      var rest := documents[1..];
      lib.DecodesBack(documents[0]);
      SplitWritten(lib, rest);
      SplitOne(lib.encode(documents[0]), JsonlBytes(lib, rest));
      assert WrittenLines(lib, documents) == [lib.JsonLine(documents[0])] + WrittenLines(lib, rest);
    }
  }

  lemma {:induction false} ReadWritten(lib: Library, a: Artifact, documents: seq<Json>)
    requires lib.Lawful() && AllFinite(documents)
    ensures ReadLines(lib, a, WrittenLines(lib, documents)) == Going(documents, {})
  {
    if documents != [] {
      var front, last := documents[..|documents| - 1], documents[|documents| - 1];
      hide ReadLines;
      ReadWritten(lib, a, front);
      assert last in documents;
      ReadOne(lib, a, WrittenLines(lib, front), front, last);
      assert WrittenLines(lib, documents) == WrittenLines(lib, front) + [lib.JsonLine(last)];
      assert documents == front + [last];
    }
  }

  lemma ReadOne(lib: Library, a: Artifact, lines: seq<Bytes>, front: seq<Json>, last: Json)
    requires lib.Lawful() && Finite(last) && ReadLines(lib, a, lines) == Going(front, {})
    ensures ReadLines(lib, a, lines + [lib.JsonLine(last)]) == Going(front + [last], {})
  {
    hide Finite;
    lib.DecodesBack(last);
    assert (lines + [lib.JsonLine(last)])[..|lines|] == lines;
  }

  /** Reading a written JSONL file returns its documents, without complaint. */
  lemma ParseJsonlWritten(lib: Library, a: Artifact, documents: seq<Json>)
    requires lib.Lawful() && AllFinite(documents)
    ensures ParseJsonl(lib, a, JsonlBytes(lib, documents)) == Read(documents, {})
  {
    SplitWritten(lib, documents);
    ReadWritten(lib, a, documents);
  }

  // ---- Seals ----

  lemma NamedBack(a: Artifact)
    ensures FileName(a) in Names(EXPECTED) && Named(FileName(a)) == a
  {
    hide FileName;
    AllExpected(a);
    FileNamesDistinct(Named(FileName(a)), a);
  }

  lemma FilesHold(lib: Library, parts: Parts, a: Artifact)
    ensures FilesOf(lib, parts).Keys == Names(EXPECTED)
    ensures Content(FilesOf(lib, parts), a) == FileContent(lib, parts, a)
  {
    hide FileName, FileContent;
    NamedBack(a);
  }

  predicate PlainChar(c: char) {
    'a' <= c <= 'z' || c == '.' || c == '_' || '0' <= c <= '9'
  }

  lemma PlainListable(s: string)
    requires forall i | 0 <= i < |s| :: PlainChar(s[i])
    ensures C.Portable(s) && C.Unbroken(s)
  {
  }

  lemma LineFileNamePlain(a: Artifact)
    requires a.BoundaryFindings? || a.LedgerEvents? || a.QualityFindings?
    ensures forall i | 0 <= i < |FileName(a)| :: PlainChar(FileName(a)[i])
  {
  }

  lemma OtherFileNamePlain(a: Artifact)
    requires !a.BoundaryFindings? && !a.LedgerEvents? && !a.QualityFindings?
    ensures forall i | 0 <= i < |FileName(a)| :: PlainChar(FileName(a)[i])
  {
  }

  lemma FileNameListable(a: Artifact)
    ensures C.Portable(FileName(a)) && C.Unbroken(FileName(a))
  {
    hide FileName;
    if a.BoundaryFindings? || a.LedgerEvents? || a.QualityFindings? {
      LineFileNamePlain(a);
    } else {
      OtherFileNamePlain(a);
    }
    PlainListable(FileName(a));
  }

  lemma SealedHolds(a: Artifact)
    requires a in SEALED
    ensures FileName(a) in Names(SEALED)
  {
  }

  /** A built bundle has no checksum problem: every sealed file has its line, and the file is canonical. */
  lemma ChecksumsAgree(lib: Library, parts: Parts)
    requires lib.Lawful()
    ensures FilesOf(lib, parts).Keys == Names(EXPECTED)
    ensures ChecksumProblems(lib, FilesOf(lib, parts)) == {}
  {
    hide FileName, SealedContent, C.Parse, C.Render, FilesOf;
    var files, entries := FilesOf(lib, parts), ChecksumEntries(lib, parts);
    FilesHold(lib, parts, ChecksumFile);
    forall name | name in entries ensures C.Portable(name) && C.Unbroken(name) && HexDigest(entries[name]) {
      var a :| a in SEALED && FileName(a) == name;
      FileNameListable(a);
      lib.DigestShape(SealedContent(lib, parts, Named(name)));
    }
    C.PrintThenParse(lib, entries);
    forall a | a in SEALED ensures Listed(lib, files, entries, a) {
      SealedHolds(a);
      NamedBack(a);
      FilesHold(lib, parts, a);
    }
  }

  lemma EntryAgrees(lib: Library, files: Files, artifacts: Fields, a: Artifact)
    requires Names(EXPECTED) <= files.Keys && FileName(a) in artifacts
    requires artifacts[FileName(a)] == ManifestEntry(lib, a, Content(files, a))
    ensures EntryProblems(lib, files, artifacts, a) == {}
  {
    hide FileName, MediaType;
    var entry := ManifestEntry(lib, a, Content(files, a)).fields;
    assert entry.Keys == {"bytes", "media_type", "sha256"};
  }

  lemma ManifestFields(lib: Library, parts: Parts)
    ensures var m := ManifestDocument(lib, parts).fields;
            && Get(m, "bundle_id") == Str(parts.bundleId)
            && Get(m, "bundle_version") == Str(BUNDLE_VERSION)
            && Get(m, "artifacts").Obj? && Get(m, "artifacts").fields.Keys == Names(PAYLOADS)
  {
    hide FileName, MediaType;
  }

  lemma ManifestEntries(lib: Library, parts: Parts, a: Artifact)
    requires a in PAYLOADS
    ensures var m := ManifestDocument(lib, parts).fields;
            && Get(m, "artifacts").Obj? && FileName(a) in Get(m, "artifacts").fields
            && Get(m, "artifacts").fields[FileName(a)] == ManifestEntry(lib, a, FileContent(lib, parts, a))
  {
    hide FileName, MediaType, ManifestEntry;
    NamedBack(a);
    ManifestFields(lib, parts);
  }

  lemma ManifestAgrees(lib: Library, parts: Parts)
    ensures FilesOf(lib, parts).Keys == Names(EXPECTED)
    ensures ManifestProblems(lib, FilesOf(lib, parts), ManifestDocument(lib, parts)) == {}
  {
    hide FileName, MediaType, ManifestDocument, EntryProblems, ManifestEntry, FileContent, FilesOf, Get;
    var files := FilesOf(lib, parts);
    FilesHold(lib, parts, Manifest);
    ManifestFields(lib, parts);
    var artifacts := Get(ManifestDocument(lib, parts).fields, "artifacts").fields;
    forall a | a in PAYLOADS ensures FileName(a) in artifacts && EntryProblems(lib, files, artifacts, a) == {} {
      ManifestEntries(lib, parts, a);
      FilesHold(lib, parts, a);
      EntryAgrees(lib, files, artifacts, a);
    }
  }

  lemma EntryFinite(lib: Library, a: Artifact, content: Bytes)
    ensures Finite(ManifestEntry(lib, a, content))
  {
    hide MediaType;
  }

  lemma ManifestFinite(lib: Library, parts: Parts)
    ensures Finite(ManifestDocument(lib, parts))
  {
    hide FileName, MediaType, PayloadContent, ManifestEntry;
    forall a, content ensures Finite(ManifestEntry(lib, a, content)) {
      EntryFinite(lib, a, content);
    }
  }

  // ---- Ledger documents ----

  function IdAt(log: Log, ordinal: int): string
    requires 1 <= ordinal <= |log|
  {
    log[ordinal - 1].eventId
  }

  /** The dictionary the verifier builds of a ledger. */
  function Ordinals(log: Log): map<int, string> {
    map i: int | 1 <= i <= |log| :: IdAt(log, i)
  }

  lemma DocumentFields(lib: Library, row: StoredEvent)
    ensures LedgerDocument(lib, row).Obj?
    ensures var d := LedgerDocument(lib, row).fields;
            && d.Keys == LEDGER_FIELDS && d["event"] == ToMapping(lib, row.event)
            && d["ordinal"] == Int(row.ordinal) && d["content_sha256"] == Str(row.contentSha256)
  {
    hide ToMapping;
  }

  lemma CheckWritten(lib: Library, s: LedgerCheck, e: Event)
    requires lib.Lawful() && ValidEvent(e) && s.prior >= 0
    ensures CheckDocument(lib, s, LedgerDocument(lib, Stored(lib, s.prior + 1, e)))
         == LedgerCheck(s.ordinals[s.prior + 1 := e.eventId], s.prior + 1, s.problems)
  {
    hide LedgerDocument, FromMapping, ToMapping, ContentDigest;
    MappingRoundTrip(lib, e);
    DocumentFields(lib, Stored(lib, s.prior + 1, e));
  }

  lemma DocumentsStep(lib: Library, front: Log, e: Event)
    ensures LedgerDocuments(lib, StoredRows(lib, front + [e]))
         == LedgerDocuments(lib, StoredRows(lib, front)) + [LedgerDocument(lib, Stored(lib, |front| + 1, e))]
  {
    hide LedgerDocument, Stored;
  }

  lemma OrdinalsStep(front: Log, e: Event)
    ensures Ordinals(front + [e]) == Ordinals(front)[|front| + 1 := e.eventId]
  {
  }

  lemma {:induction false} LedgerAgrees(lib: Library, log: Log)
    requires lib.Lawful() && AllValid(log)
    ensures CheckDocuments(lib, LedgerDocuments(lib, StoredRows(lib, log))) == LedgerCheck(Ordinals(log), |log|, {})
  {
    if log == [] {
      assert Ordinals(log) == map[];
    } else {
      hide LedgerDocument, CheckDocument, LedgerDocuments, StoredRows, Ordinals, ValidEvent;
      var n := |log| - 1;
      var front, e := log[..n], log[n];
      assert log == front + [e] && e in log;
      LedgerAgrees(lib, front);
      DocumentsStep(lib, front, e);
      OrdinalsStep(front, e);
      CheckWritten(lib, LedgerCheck(Ordinals(front), n, {}), e);
      var documents := LedgerDocuments(lib, StoredRows(lib, log));
      assert documents[..|documents| - 1] == LedgerDocuments(lib, StoredRows(lib, front));
    }
  }

  lemma LastOrdinalIsLength(log: Log)
    ensures GreatestKey(Ordinals(log)) == |log|
  {
    if log == [] {
      assert Ordinals(log) == map[];
    } else {
      assert |log| in Ordinals(log);
    }
  }

  lemma LedgerDocumentsFinite(lib: Library, log: Log)
    requires AllValid(log)
    ensures AllFinite(LedgerDocuments(lib, StoredRows(lib, log)))
  {
    hide LedgerDocument, ValidEvent, Stored;
    forall i | 0 <= i < |log| ensures Finite(LedgerDocument(lib, Stored(lib, i + 1, log[i]))) {
      assert log[i] in log;
      LedgerDocumentFinite(lib, i + 1, log[i]);
    }
  }

  lemma LedgerDocumentFinite(lib: Library, ordinal: nat, e: Event)
    requires ValidEvent(e)
    ensures Finite(LedgerDocument(lib, Stored(lib, ordinal, e)))
  {
    hide ToMapping;
    MappingFinite(lib, e);
  }

  // ---- Quality documents ----

  /** A finding that carries the digest of its identity, finite evidence and references into the log. */
  ghost predicate Sealable(lib: Library, log: Log, f: Finding) {
    f.findingId == IdentityDigest(lib, IdentityOf(f)) && Finite(Obj(f.evidence)) && Resolves(log, f)
  }

  lemma QualityFields(f: Finding)
    ensures QualityDocument(f).Obj?
    ensures var d := QualityDocument(f).fields;
            && d.Keys == QUALITY_FIELDS
            && d["code"] == Str(Code(f.rule)) && d["event_ids"] == Strings(f.eventIds)
            && d["evidence"] == Obj(f.evidence)
            && d["finding_id"] == Str(f.findingId) && d["ledger_ordinals"] == Numbers(f.ordinals)
            && d["rule_id"] == Str(RuleId(f.rule)) && d["rule_version"] == Str(POLICY_VERSION)
            && d["source_id"] == Str(f.sourceId)
  {
    hide Code, RuleId, Interpretation, Strings, Numbers;
  }

  lemma IdentityAgrees(lib: Library, f: Finding)
    ensures DocumentDigest(lib, QualityDocument(f).fields) == IdentityDigest(lib, IdentityOf(f))
  {
    hide QualityDocument, Code, RuleId, Strings, Numbers, IdentityDigest;
    QualityFields(f);
  }

  lemma {:induction false} PairsResolve(ordinals: map<int, string>, numbers: seq<nat>, ids: seq<string>)
    requires |numbers| == |ids|
    requires forall i | 0 <= i < |numbers| :: numbers[i] in ordinals && ordinals[numbers[i]] == ids[i]
    ensures MatchPairs(ordinals, Numbers(numbers).items, Strings(ids).items) == Matched
  {
    if numbers != [] {
      PairsResolve(ordinals, numbers[1..], ids[1..]);
      assert Numbers(numbers).items[1..] == Numbers(numbers[1..]).items;
      assert Strings(ids).items[1..] == Strings(ids[1..]).items;
    }
  }

  lemma ReferencesAgree(log: Log, d: Fields, f: Finding)
    requires Get(d, "ledger_ordinals") == Numbers(f.ordinals) && Get(d, "event_ids") == Strings(f.eventIds)
    requires Resolves(log, f)
    ensures ReferenceVerdict(Ordinals(log), d) == Matched
  {
    hide MatchPairs, Get;
    PairsResolve(Ordinals(log), f.ordinals, f.eventIds);
  }

  lemma FindingAgrees(lib: Library, log: Log, f: Finding)
    requires Sealable(lib, log, f)
    ensures FindingProblems(lib, Ordinals(log), QualityDocument(f)) == {}
  {
    hide QualityDocument, Code, RuleId, Strings, Numbers, IdentityDigest, DocumentDigest, ReferenceVerdict;
    QualityFields(f);
    IdentityAgrees(lib, f);
    ReferencesAgree(log, QualityDocument(f).fields, f);
  }

  lemma QualityAgrees(lib: Library, log: Log, findings: seq<Finding>)
    requires forall f | f in findings :: Sealable(lib, log, f)
    ensures QualityProblems(lib, Ordinals(log), QualityDocuments(findings)) == {}
  {
    hide Sealable, QualityDocument, FindingProblems;
    forall i | 0 <= i < |findings| ensures FindingProblems(lib, Ordinals(log), QualityDocument(findings[i])) == {} {
      FindingAgrees(lib, log, findings[i]);
    }
  }

  lemma QualityDocumentFinite(f: Finding)
    requires Finite(Obj(f.evidence))
    ensures Finite(QualityDocument(f))
  {
    hide Code, RuleId, Interpretation, Strings, Numbers;
    StringsFinite(f.eventIds);
    NumbersFinite(f.ordinals);
  }

  lemma QualityDocumentsFinite(lib: Library, log: Log, findings: seq<Finding>)
    requires forall f | f in findings :: Sealable(lib, log, f)
    ensures AllFinite(QualityDocuments(findings))
  {
    hide QualityDocument;
    forall i | 0 <= i < |findings| ensures Finite(QualityDocuments(findings)[i]) {
      assert findings[i] in findings;
      QualityDocumentFinite(findings[i]);
    }
  }

  // ---- Run, state and policy ----

  lemma RunEventCount(lib: Library, inputs: Inputs, events: nat, findings: nat, boundary: nat, digest: string)
    requires inputs.createdAt.Utc? && inputs.asOf.Utc?
    ensures RunDocument(lib, inputs, events, findings, boundary, digest).Obj?
    ensures var run := RunDocument(lib, inputs, events, findings, boundary, digest).fields;
            Get(run, "event_count") == Int(events)
  {
  }

  lemma RunFindingCounts(lib: Library, inputs: Inputs, events: nat, findings: nat, boundary: nat, digest: string)
    requires inputs.createdAt.Utc? && inputs.asOf.Utc?
    ensures RunDocument(lib, inputs, events, findings, boundary, digest).Obj?
    ensures var run := RunDocument(lib, inputs, events, findings, boundary, digest).fields;
            && Get(run, "quality_finding_count") == Int(findings)
            && Get(run, "boundary_finding_count") == Int(boundary)
  {
  }

  lemma RunVersions(lib: Library, inputs: Inputs, events: nat, findings: nat, boundary: nat, digest: string)
    requires inputs.createdAt.Utc? && inputs.asOf.Utc?
    ensures RunDocument(lib, inputs, events, findings, boundary, digest).Obj?
    ensures var run := RunDocument(lib, inputs, events, findings, boundary, digest).fields;
            && Get(run, "projector_version") == Str(PROJECTOR_VERSION)
            && Get(run, "quality_policy_version") == Str(POLICY_VERSION)
  {
  }

  lemma RunIdentities(lib: Library, inputs: Inputs, events: nat, findings: nat, boundary: nat, digest: string)
    requires inputs.createdAt.Utc? && inputs.asOf.Utc?
    ensures RunDocument(lib, inputs, events, findings, boundary, digest).Obj?
    ensures var run := RunDocument(lib, inputs, events, findings, boundary, digest).fields;
            && Get(run, "bundle_id") == Str(inputs.bundleId)
            && Get(run, "state_sha256") == Str(digest)
  {
  }

  lemma RunFinite(lib: Library, inputs: Inputs, events: nat, findings: nat, boundary: nat, digest: string)
    requires inputs.createdAt.Utc? && inputs.asOf.Utc?
    ensures Finite(RunDocument(lib, inputs, events, findings, boundary, digest))
  {
  }

  lemma RunAgrees(lib: Library, inputs: Inputs, events: nat, findings: nat, boundary: nat, digest: string)
    requires inputs.createdAt.Utc? && inputs.asOf.Utc?
    ensures var run := RunDocument(lib, inputs, events, findings, boundary, digest);
            RunProblems(run, Str(inputs.bundleId), events, findings, boundary) == {}
  {
    hide RunDocument, Get;
    RunEventCount(lib, inputs, events, findings, boundary, digest);
    RunFindingCounts(lib, inputs, events, findings, boundary, digest);
    RunVersions(lib, inputs, events, findings, boundary, digest);
    RunIdentities(lib, inputs, events, findings, boundary, digest);
  }

  lemma PolicyAgrees(p: Policy)
    ensures PolicyProblems(PolicyDocument(p)) == {} && Finite(PolicyDocument(p))
  {
  }

  lemma StateFields(state: State)
    ensures StateJson(state).Obj?
    ensures var s := StateJson(state).fields;
            Get(s, "event_count") == Int(state.eventCount) && Get(s, "last_ordinal") == Int(state.lastOrdinal)
  {
    hide SourceJson;
  }

  /** Of the state, verification compares the digest and the two counts. */
  lemma StateAgrees(lib: Library, state: State, run: Json, events: nat, last: int)
    requires run.Obj? && Get(run.fields, "state_sha256") == Str(lib.sha256(lib.encode(StateJson(state))))
    ensures StateProblems(lib, StateJson(state), run, events, last)
         == If(state.eventCount != events, StateEventCountMismatch)
           + If(state.lastOrdinal != last, StateLastOrdinalMismatch)
  {
    hide StateJson, Get;
    StateFields(state);
  }

  // ---- The whole bundle ----

  /** The documents a bundle of this ledger, state and quality documents seals. */
  ghost predicate Describes(lib: Library, inputs: Inputs, log: Log, state: State, quality: seq<Json>, parts: Parts) {
    && inputs.createdAt.Utc? && inputs.asOf.Utc?
    && parts.bundleId == inputs.bundleId
    && parts.ledger == LedgerDocuments(lib, StoredRows(lib, log))
    && parts.quality == quality
    && parts.policy == PolicyDocument(inputs.policy)
    && parts.state == StateJson(state)
    && parts.run
      == RunDocument(lib, inputs, |log|, |quality|, |parts.boundary|, lib.sha256(lib.encode(StateJson(state))))
    && AllFinite(parts.boundary) && AllFinite(quality)
  }

  ghost predicate FiniteParts(parts: Parts) {
    && AllFinite(parts.boundary) && AllFinite(parts.ledger) && AllFinite(parts.quality)
    && Finite(parts.policy) && Finite(parts.run) && Finite(parts.state)
  }

  /** Every file of a sealed bundle reads back as the document it was written from. */
  lemma AllParse(lib: Library, parts: Parts)
    requires lib.Lawful() && FiniteParts(parts)
    ensures FilesOf(lib, parts).Keys == Names(EXPECTED)
    ensures ParseAll(lib, FilesOf(lib, parts))
         == Parsed(Read(ManifestDocument(lib, parts), {}), Read(parts.run, {}), Read(parts.state, {}),
                   Read(parts.policy, {}),
                   Read(parts.ledger, {}), Read(parts.quality, {}), Read(parts.boundary, {}))
  {
    hide FilesOf, ManifestDocument, ParseJson, ParseJsonl, JsonlBytes, AllFinite, Content, Finite;
    FilesHold(lib, parts, Manifest);
    forall a ensures Content(FilesOf(lib, parts), a) == FileContent(lib, parts, a) {
      FilesHold(lib, parts, a);
    }
    ManifestFinite(lib, parts);
    ParseJsonWritten(lib, Manifest, ManifestDocument(lib, parts));
    ParseJsonWritten(lib, RunFile, parts.run);
    ParseJsonWritten(lib, StateFile, parts.state);
    ParseJsonWritten(lib, PolicyFile, parts.policy);
    ParseJsonlWritten(lib, LedgerEvents, parts.ledger);
    ParseJsonlWritten(lib, QualityFindings, parts.quality);
    ParseJsonlWritten(lib, BoundaryFindings, parts.boundary);
  }

  lemma DescribedIsFinite(lib: Library, inputs: Inputs, log: Log, state: State, quality: seq<Json>, parts: Parts)
    requires AllValid(log) && FiniteSources(state.sources)
    requires Describes(lib, inputs, log, state, quality, parts)
    ensures FiniteParts(parts)
  {
    hide LedgerDocuments, PolicyDocument, StateJson, RunDocument, AllFinite, Finite, StoredRows;
    LedgerDocumentsFinite(lib, log);
    PolicyAgrees(inputs.policy);
    StateFinite(state);
    RunFinite(lib, inputs, |log|, |quality|, |parts.boundary|, lib.sha256(lib.encode(StateJson(state))));
  }

  /** What is wrong with a bundle whose state was not projected from the sealed rows: of the state,
      only its counts can show it. */
  function CountProblems(state: State, rows: nat): set<Problem> {
    If(state.eventCount != rows, StateEventCountMismatch) + If(state.lastOrdinal != rows, StateLastOrdinalMismatch)
  }

  lemma SemanticsAgree(lib: Library, inputs: Inputs, log: Log, state: State, quality: seq<Json>, parts: Parts)
    requires lib.Lawful() && AllValid(log)
    requires Describes(lib, inputs, log, state, quality, parts)
    ensures FilesOf(lib, parts).Keys == Names(EXPECTED)
    ensures var p :=
            Parsed(Read(ManifestDocument(lib, parts), {}), Read(parts.run, {}), Read(parts.state, {}),
                   Read(parts.policy, {}),
                            Read(parts.ledger, {}), Read(parts.quality, {}), Read(parts.boundary, {}));
            && BundleIdOf(p.manifest.value) == Str(inputs.bundleId)
            && SemanticProblems(lib, FilesOf(lib, parts), p)
               == QualityProblems(lib, Ordinals(log), quality) + BoundaryProblems(parts.boundary)
                 + CountProblems(state, |log|)
  {
    hide FilesOf, ManifestDocument, ManifestProblems, LedgerDocuments, PolicyDocument, StateJson, RunDocument,
         StoredRows, CheckDocuments, QualityProblems, BoundaryProblems, StateProblems, RunProblems, PolicyProblems,
         Ordinals, GreatestKey, Get, If, AllValid, AllFinite;
    FilesHold(lib, parts, Manifest);
    ManifestAgrees(lib, parts);
    ManifestFields(lib, parts);
    LedgerAgrees(lib, log);
    LastOrdinalIsLength(log);
    PolicyAgrees(inputs.policy);
    var digest := lib.sha256(lib.encode(StateJson(state)));
    RunIdentities(lib, inputs, |log|, |quality|, |parts.boundary|, digest);
    RunAgrees(lib, inputs, |log|, |quality|, |parts.boundary|, digest);
    StateAgrees(lib, state, parts.run, |log|, |log|);
    assert |parts.ledger| == |log| by { DocumentCount(lib, log); }
  }

  lemma DocumentCount(lib: Library, log: Log)
    ensures |LedgerDocuments(lib, StoredRows(lib, log))| == |log|
  {
  }

  /** A sealed bundle verifies but for its quality and boundary documents and for a state that counts other rows. */
  lemma SealedBundleVerifies(lib: Library, inputs: Inputs, log: Log, state: State, quality: seq<Json>, parts: Parts)
    requires lib.Lawful() && AllValid(log) && FiniteSources(state.sources)
    requires Describes(lib, inputs, log, state, quality, parts)
    ensures Verify(lib, FilesOf(lib, parts))
         == Verified(Str(inputs.bundleId), 9,
              QualityProblems(lib, Ordinals(log), quality) + BoundaryProblems(parts.boundary)
                + CountProblems(state, |log|))
  {
    hide FilesOf, ManifestDocument, Describes, ChecksumProblems, SemanticProblems, QualityProblems, BoundaryProblems,
         CountProblems, FiniteParts, AllValid, BundleIdOf, FileSetProblems, Ordinals;
    var files := FilesOf(lib, parts);
    DescribedIsFinite(lib, inputs, log, state, quality, parts);
    AllParse(lib, parts);
    ChecksumsAgree(lib, parts);
    SemanticsAgree(lib, inputs, log, state, quality, parts);
    FileSetComplete(files);
  }

  lemma EvaluatedIsSealable(lib: Library, policy: Policy, asOf: int, log: Log, f: Finding)
    requires lib.Lawful() && f in Evaluate(lib, policy, asOf, StoredRows(lib, log))
    ensures Sealable(lib, log, f)
  {
    hide Evaluate, StoredRows, Resolves, IdentityOf;
    FindingsAreSupported(lib, policy, asOf, StoredRows(lib, log));
    SupportedIdentity(lib, StoredRows(lib, log), f);
    FindingsResolve(lib, policy, asOf, log, f);
    var supporting :| SupportedBy(lib, StoredRows(lib, log), f, supporting);
  }

  /** A boundary finding of the contract's shape. */
  predicate BoundaryOk(fields: Fields) {
    && fields.Keys == BOUNDARY_FIELDS
    && fields["classifier_version"] == Str(CLASSIFIER_VERSION)
    && IsInt(fields["record_index"])
  }

  lemma BoundaryProblemsIff(lib: Library, boundary: seq<Fields>)
    ensures BoundaryProblems(SortedBoundary(lib, boundary)) == {}
       <==> forall fields | fields in boundary :: BoundaryOk(fields)
  {
    hide SortedBoundary;
    var documents := SortedBoundary(lib, boundary);
    BoundaryMembers(lib, boundary);
    forall d | d in documents ensures BoundaryDocumentProblems(d) == {} <==> BoundaryOk(d.fields) {
      OneBoundaryIff(d);
    }
    forall fields | fields in boundary ensures Obj(fields) in documents {
    }
    if BoundaryProblems(documents) != {} {
      var p :| p in BoundaryProblems(documents);
      var d :| d in documents && p in BoundaryDocumentProblems(d);
      assert d.fields in boundary && !BoundaryOk(d.fields);
    } else {
      forall fields | fields in boundary ensures BoundaryOk(fields) {
        assert BoundaryDocumentProblems(Obj(fields)) <= BoundaryProblems(documents);
      }
    }
  }

  lemma OneBoundaryIff(d: Json)
    ensures BoundaryDocumentProblems(d) == {} <==> d.Obj? && BoundaryOk(d.fields)
  {
  }

  /** The rows appended between the two reads are what the verifier reports of a built bundle, besides
      boundary findings of the wrong shape. */
  lemma BuiltBundleVerifies(lib: Library, inputs: Inputs, first: Log, second: Log)
    requires lib.Lawful() && LogOk(second) && first <= second
    ensures var built := Build(lib, inputs, first, second);
            built.Ok? ==>
              Verify(lib, built.value)
              == Verified(Str(inputs.bundleId), 9,
                   BoundaryProblems(SortedBoundary(lib, inputs.boundary))
                   + if first == second then {} else {StateEventCountMismatch, StateLastOrdinalMismatch})
  {
    hide LogOk, StoredRows, Evaluate, FilesOf, StateOf, Verify, BoundaryProblems, SortedBoundary, Sealable, AllValid,
         QualityDocuments, QualityProblems, Ordinals, AllFinite;
    if Build(lib, inputs, first, second).Ok? {
      var rows := StoredRows(lib, first);
      var state, findings := StateOf(lib, StoredRows(lib, second)),
                             Evaluate(lib, inputs.policy, inputs.asOf.micros, rows);
      var parts := PartsOf(lib, inputs, rows, state, findings).value;
      ValidPrefix(first, second);
      forall f | f in findings ensures Sealable(lib, first, f) {
        EvaluatedIsSealable(lib, inputs.policy, inputs.asOf.micros, first, f);
      }
      ReplayedSources(lib, second);
      QualityAgrees(lib, first, findings);
      QualityDocumentsFinite(lib, first, findings);
      PartsDescribe(lib, inputs, first, state, findings);
      SealedBundleVerifies(lib, inputs, first, state, QualityDocuments(findings), parts);
    }
  }

  lemma ValidPrefix(first: Log, second: Log)
    requires LogOk(second) && first <= second
    ensures AllValid(first) && (first == second <==> |first| == |second|)
  {
    forall e | e in first ensures ValidEvent(e) {
      assert e in second;
    }
  }

  lemma ReplayedSources(lib: Library, log: Log)
    requires LogOk(log)
    ensures var state := StateOf(lib, StoredRows(lib, log));
            FiniteSources(state.sources) && state.eventCount == state.lastOrdinal == |log|
  {
    RowsGiveLog(lib, log);
    SourcesFinite(lib, log);
  }

  lemma PartsDescribe(lib: Library, inputs: Inputs, log: Log, state: State, findings: seq<Finding>)
    requires inputs.createdAt.Utc? && inputs.asOf.Utc?
             && PartsOf(lib, inputs, StoredRows(lib, log), state, findings).Ok?
    requires AllFinite(QualityDocuments(findings))
    ensures var parts := PartsOf(lib, inputs, StoredRows(lib, log), state, findings).value;
            && Describes(lib, inputs, log, state, QualityDocuments(findings), parts)
            && parts.boundary == SortedBoundary(lib, inputs.boundary)
  {
    hide RunDocument, PolicyDocument, StateJson, LedgerDocuments, SortedBoundary, QualityDocument;
    assert |StoredRows(lib, log)| == |log| && |QualityDocuments(findings)| == |findings|;
  }

  /** Build and verify agree: a built bundle is valid exactly when nothing was appended between the
      builder's two reads and the boundary findings are well-formed. */
  lemma BuiltBundleValidIff(lib: Library, inputs: Inputs, first: Log, second: Log)
    requires lib.Lawful() && LogOk(second) && first <= second
    ensures var built := Build(lib, inputs, first, second);
            built.Ok? ==>
              (Valid(Verify(lib, built.value))
               <==> first == second && forall fields | fields in inputs.boundary :: BoundaryOk(fields))
  {
    hide Build, Verify, SortedBoundary, BoundaryProblems, BoundaryOk;
    BuiltBundleVerifies(lib, inputs, first, second);
    BoundaryProblemsIff(lib, inputs.boundary);
  }

  lemma QualityCodes(findings: seq<Finding>)
    ensures forall d | d in QualityDocuments(findings) :: d.Obj?
    ensures forall c | c in Codes(QualityDocuments(findings)) :: c.Str?
  {
    hide QualityDocument;
    var quality := QualityDocuments(findings);
    forall i | 0 <= i < |quality| ensures quality[i].Obj? && Get(quality[i].fields, "code").Str? {
      QualityFields(findings[i]);
    }
  }

  /** When the builder succeeds, whatever the ledger. */
  lemma BuildSucceeds(lib: Library, inputs: Inputs, first: Log, second: Log)
    requires lib.Lawful() && PortableId(inputs.bundleId) && inputs.createdAt.Utc? && inputs.asOf.Utc?
    requires forall fields: Fields | fields in inputs.boundary ::
             Finite(Obj(fields)) && "code" in fields && fields["code"].Str?
    ensures Build(lib, inputs, first, second).Ok?
  {
    hide Evaluate, StateOf, StoredRows, FilesOf, SortedBoundary, QualityDocument, RunDocument, Finite;
    var rows := StoredRows(lib, first);
    var findings := Evaluate(lib, inputs.policy, inputs.asOf.micros, rows);
    var boundary, quality := SortedBoundary(lib, inputs.boundary), QualityDocuments(findings);
    BoundaryMembers(lib, inputs.boundary);
    forall i | 0 <= i < |boundary| ensures Codes(boundary)[i].Str? {
      assert boundary[i] in boundary;
    }
    QualityCodes(findings);
    var run := RunDocument(lib, inputs, |rows|, |findings|, |boundary|,
                           lib.sha256(lib.encode(StateJson(StateOf(lib, StoredRows(lib, second))))));
    lib.ReportWrites(run, Codes(boundary) + Codes(quality));
  }

  /** And it succeeds on no other bundle id, time or boundary finding, codes that are not all strings aside. */
  lemma BuildNeeds(lib: Library, inputs: Inputs, first: Log, second: Log)
    ensures Build(lib, inputs, first, second).Ok? ==>
              && PortableId(inputs.bundleId) && inputs.createdAt.Utc? && inputs.asOf.Utc?
              && forall fields: Fields | fields in inputs.boundary :: Finite(Obj(fields)) && "code" in fields
  {
    hide Evaluate, StateOf, StoredRows, FilesOf, SortedBoundary, QualityDocuments, RunDocument, Finite;
    BoundaryMembers(lib, inputs.boundary);
    forall fields: Fields | fields in inputs.boundary ensures Obj(fields) in SortedBoundary(lib, inputs.boundary) {
    }
  }

  // ---- References ----

  /** A finding's references pass exactly when they pair off and each pair agrees. */
  lemma {:induction false} ReferencesPassIff(ordinals: map<int, string>, xs: seq<Json>, ys: seq<Json>)
    ensures MatchPairs(ordinals, xs, ys) == Matched
       <==> |xs| == |ys| && forall i | 0 <= i < |xs| :: !xs[i].Arr? && !xs[i].Obj? && Refers(ordinals, xs[i], ys[i])
  {
    if xs != [] && ys != [] {
      ReferencesPassIff(ordinals, xs[1..], ys[1..]);
      if MatchPairs(ordinals, xs, ys) == Matched {
        forall i | 0 <= i < |xs| ensures !xs[i].Arr? && !xs[i].Obj? && Refers(ordinals, xs[i], ys[i]) {
          if i > 0 { assert xs[i] == xs[1..][i - 1] && ys[i] == ys[1..][i - 1]; }
        }
      } else if |xs| == |ys| && !xs[0].Arr? && !xs[0].Obj? && Refers(ordinals, xs[0], ys[0]) {
        var i :| 0 <= i < |xs| - 1
          && !(!xs[1..][i].Arr? && !xs[1..][i].Obj? && Refers(ordinals, xs[1..][i], ys[1..][i]));
        assert xs[i + 1] == xs[1..][i] && ys[i + 1] == ys[1..][i];
      }
    }
  }
}
