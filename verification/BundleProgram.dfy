/** The loops of the bundle builder and verifier: `src/edge_evidence/bundle.py`. */
module BundleProgram {
  import opened Wrappers
  import opened JsonValues
  import opened Libraries
  import opened Events
  import opened Logs
  import opened Ledgers
  import opened Projection
  import opened QualityRules
  import opened QualityEvaluation
  import opened Bundles
  import BundleContents
  import C = Checksums

  /** `build_bundle`. The ledger is read twice; `others` is what other connections commit in between. */
  method BuildBundle(ledger: EventLedger, inputs: Inputs, others: seq<Record>) returns (r: Result<Files, BuildError>)
    requires ledger.Valid() && Sound(others) && PolicyOk(inputs.policy)
    modifies ledger
    ensures ledger.Valid() && old(ledger.log) <= ledger.log
    ensures ledger.log == old(ledger.log) || ledger.log == BatchLog(ledger.lib, old(ledger.log), others)
    ensures r == Build(ledger.lib, inputs, old(ledger.log), ledger.log)
    ensures r.Ok? ==> exists c :: BundleContents.Holds(ledger.lib, inputs, old(ledger.log), ledger.log, r.value, c)
  {
    hide LogOk, Stores, StoredRows, StateOf, Evaluate, PartsOf, FilesOf, Sound, BatchLog, BundleContents.Holds;
    if !PortableId(inputs.bundleId) {
      return Err(InvalidBundleId);
    }
    if !inputs.createdAt.Utc? || !inputs.asOf.Utc? {
      return Err(NotUtcTime);
    }
    var rows := ledger.ReadEvents();
    UseValid(ledger);
    LedgerPayloadsFinite(ledger.lib, ledger.log);
    var _ := ledger.IngestMany(others);
    var projection := Replay(ledger);
    var quality := EvaluateQuality(ledger.lib, rows.value, inputs.asOf, inputs.policy);
    UseValid(ledger);
    BundleContents.BuiltBundleTells(ledger.lib, inputs, old(ledger.log), ledger.log);
    match PartsOf(ledger.lib, inputs, rows.value, projection.value, quality.value) {
      case Err(error) => r := Err(error);
      case Ok(parts) => r := Ok(FilesOf(ledger.lib, parts));
    }
  }

  lemma NothingBetween(lib: Library, log: Log)
    ensures BatchLog(lib, log, []) == log
  {
  }

  /** The loop over sealed files. */
  method CheckSums(lib: Library, files: Files) returns (errors: set<Problem>)
    requires Names(EXPECTED) <= files.Keys
    ensures errors == ChecksumProblems(lib, files)
  {
    hide FileName, C.Parse, Listed;
    var entries, found := C.ParseChecksums(lib, Content(files, ChecksumFile));
    errors := Reported(found);
    if entries.Keys != Names(SEALED) {
      errors := errors + {ChecksumFileSetMismatch};
    }
    ghost var before := errors;
    for i := 0 to |SEALED|
      invariant errors == before + set a | a in SEALED[..i] && !Listed(lib, files, entries, a) :: ChecksumMismatch(a)
    {
      var a := SEALED[i];
      assert SEALED[..i + 1] == SEALED[..i] + [a];
      if !Listed(lib, files, entries, a) {
        errors := errors + {ChecksumMismatch(a)};
      }
    }
    assert SEALED[..|SEALED|] == SEALED;
  }

  /** The loop over the lines of a JSONL file. */
  method ReadJsonl(lib: Library, a: Artifact, content: Bytes) returns (r: Reading<seq<Json>>)
    ensures r == ParseJsonl(lib, a, content)
  {
    hide Finite, SplitBytes, ReadLines;
    NoLines(lib, a);
    if content == [] {
      return Read([], {});
    }
    var lines := SplitBytes(content);
    var values: seq<Json>, errors: set<Problem> := [], {};
    for i := 0 to |lines|
      invariant ReadLines(lib, a, lines[..i]) == Going(values, errors)
    {
      assert lines[..i + 1] == lines[..i] + [lines[i]];
      ReadStep(lib, a, lines[..i], lines[i]);
      match lib.loads(lines[i]) {
        case Undecodable =>
          StopsReading(lib, a, lines, i + 1);
          return Crashed;
        case Malformed =>
          StopsReading(lib, a, lines, i + 1);
          return Read([], errors + {InvalidJsonl(a)});
        case Value(j) =>
          if !Finite(j) {
            StopsReading(lib, a, lines, i + 1);
            return Crashed;
          }
          if lines[i] != lib.JsonLine(j) {
            errors := errors + {NoncanonicalJsonl(a)};
          }
          values := values + [j];
      }
    }
    assert lines[..|lines|] == lines;
    r := Read(values, errors);
  }

  lemma NoLines(lib: Library, a: Artifact)
    ensures SplitBytes([]) == [] && ReadLines(lib, a, []) == Going([], {})
  {
  }

  lemma ReadStep(lib: Library, a: Artifact, lines: seq<Bytes>, line: Bytes)
    ensures ReadLines(lib, a, lines + [line]) == ReadLine(lib, a, ReadLines(lib, a, lines), line)
  {
    assert (lines + [line])[..|lines|] == lines;
  }

  lemma {:induction false} StopsReading(lib: Library, a: Artifact, lines: seq<Bytes>, n: nat)
    requires n <= |lines| && !ReadLines(lib, a, lines[..n]).Going?
    ensures ReadLines(lib, a, lines) == ReadLines(lib, a, lines[..n])
    decreases |lines|
  {
    if n == |lines| {
      assert lines[..n] == lines;
    } else {
      var front := lines[..|lines| - 1];
      assert front[..n] == lines[..n];
      StopsReading(lib, a, front, n);
    }
  }

  /** The checks on the manifest. */
  method CheckManifest(lib: Library, files: Files, manifest: Json) returns (errors: set<Problem>)
    requires Names(EXPECTED) <= files.Keys
    ensures errors == ManifestProblems(lib, files, manifest)
  {
    hide FileName, EntryProblems;
    if !manifest.Obj? {
      return {InvalidManifest};
    }
    var artifacts := Get(manifest.fields, "artifacts");
    errors := {};
    if !artifacts.Obj? {
      errors := {InvalidManifestArtifacts};
    } else if artifacts.fields.Keys != Names(PAYLOADS) {
      errors := {ManifestFileSetMismatch};
    } else {
      for i := 0 to |PAYLOADS|
        invariant errors == set a, p | a in PAYLOADS[..i] && p in EntryProblems(lib, files, artifacts.fields, a) :: p
      {
        assert PAYLOADS[..i + 1] == PAYLOADS[..i] + [PAYLOADS[i]];
        errors := errors + EntryProblems(lib, files, artifacts.fields, PAYLOADS[i]);
      }
      assert PAYLOADS[..|PAYLOADS|] == PAYLOADS;
    }
    if Get(manifest.fields, "bundle_version") != Str(BUNDLE_VERSION) {
      errors := errors + {UnsupportedBundleVersion};
    }
  }

  /** The loop over ledger documents. */
  method CheckLedger(lib: Library, documents: seq<Json>) returns (ordinals: map<int, string>, errors: set<Problem>)
    ensures CheckDocuments(lib, documents).ordinals == ordinals && CheckDocuments(lib, documents).problems == errors
  {
    hide FromMapping, ContentDigest;
    ordinals, errors := map[], {};
    var prior := 0;
    for i := 0 to |documents|
      invariant CheckDocuments(lib, documents[..i]) == LedgerCheck(ordinals, prior, errors)
    {
      assert documents[..i + 1][..i] == documents[..i];
      var d := documents[i];
      if !d.Obj? || d.fields.Keys != LEDGER_FIELDS {
        errors := errors + {InvalidLedgerDocument};
        continue;
      }
      match FromMapping(lib, d.fields["event"]) {
        case Err(_) =>
          errors := errors + {InvalidLedgerDocument};
        case Ok(event) =>
          var ordinal := d.fields["ordinal"];
          if d.fields["content_sha256"] != Str(ContentDigest(lib, event)) {
            errors := errors + {LedgerContentDigestMismatch};
          }
          if !IsInt(ordinal) || IntOf(ordinal) <= prior {
            errors := errors + {LedgerOrdinalOrderInvalid};
          } else {
            ordinals := ordinals[IntOf(ordinal) := event.eventId];
            prior := IntOf(ordinal);
          }
      }
    }
    assert documents[..|documents|] == documents;
  }

  /** `any` over the strict zip: true at the first pair that does not agree. */
  method ComparePairs(ordinals: map<int, string>, xs: seq<Json>, ys: seq<Json>) returns (verdict: PairVerdict)
    ensures verdict == MatchPairs(ordinals, xs, ys)
  {
    var i := 0;
    while i < |xs| && i < |ys|
      invariant i <= |xs| && i <= |ys|
      invariant MatchPairs(ordinals, xs, ys) == MatchPairs(ordinals, xs[i..], ys[i..])
    {
      if xs[i].Arr? || xs[i].Obj? {
        return TypeOrValueError;
      }
      if !Refers(ordinals, xs[i], ys[i]) {
        return Mismatched;
      }
      i := i + 1;
    }
    verdict := if i == |xs| && i == |ys| then Matched else TypeOrValueError;
  }

  /** The loop over quality findings. */
  method CheckFindings(lib: Library, ordinals: map<int, string>, documents: seq<Json>) returns (errors: set<Problem>)
    ensures errors == QualityProblems(lib, ordinals, documents)
  {
    hide DocumentDigest, MatchPairs, Items;
    errors := {};
    for i := 0 to |documents|
      invariant errors == QualityProblems(lib, ordinals, documents[..i])
    {
      assert documents[..i + 1] == documents[..i] + [documents[i]];
      var d := documents[i];
      var found: set<Problem> := {};
      if !d.Obj? || d.fields.Keys != QUALITY_FIELDS {
        found := {InvalidQualityFinding};
      } else {
        if d.fields["finding_id"] != Str(DocumentDigest(lib, d.fields)) {
          found := {FindingIdentityMismatch};
        }
        var cited, events := Items(d.fields["ledger_ordinals"]), Items(d.fields["event_ids"]);
        if cited.None? || events.None? {
          found := found + {InvalidQualityFinding};
        } else {
          var verdict := ComparePairs(ordinals, cited.value, events.value);
          if verdict.Mismatched? {
            found := found + {FindingEventReferenceMismatch};
          } else if verdict.TypeOrValueError? {
            found := found + {InvalidQualityFinding};
          }
        }
      }
      assert found == FindingProblems(lib, ordinals, d);
      QualityStep(lib, ordinals, documents[..i], d);
      errors := errors + found;
    }
    assert documents[..|documents|] == documents;
  }

  lemma QualityStep(lib: Library, ordinals: map<int, string>, documents: seq<Json>, d: Json)
    ensures QualityProblems(lib, ordinals, documents + [d])
         == QualityProblems(lib, ordinals, documents) + FindingProblems(lib, ordinals, d)
  {
    hide FindingProblems;
    forall p ensures p in QualityProblems(lib, ordinals, documents + [d])
                <==> p in QualityProblems(lib, ordinals, documents) || p in FindingProblems(lib, ordinals, d) {
      if p in FindingProblems(lib, ordinals, d) { assert d in documents + [d]; }
    }
  }

  /** The loop over boundary findings. */
  method CheckBoundary(documents: seq<Json>) returns (errors: set<Problem>)
    ensures errors == BoundaryProblems(documents)
  {
    errors := {};
    for i := 0 to |documents|
      invariant errors == BoundaryProblems(documents[..i])
    {
      assert documents[..i + 1] == documents[..i] + [documents[i]];
      BoundaryStep(documents[..i], documents[i]);
      var d := documents[i];
      if !d.Obj? || d.fields.Keys != BOUNDARY_FIELDS {
        errors := errors + {InvalidBoundaryFinding};
        continue;
      }
      if Get(d.fields, "classifier_version") != Str(CLASSIFIER_VERSION) {
        errors := errors + {BoundaryClassifierVersionMismatch};
      }
      if !IsInt(Get(d.fields, "record_index")) {
        errors := errors + {InvalidBoundaryFinding};
      }
    }
    assert documents[..|documents|] == documents;
  }

  lemma BoundaryStep(documents: seq<Json>, d: Json)
    ensures BoundaryProblems(documents + [d]) == BoundaryProblems(documents) + BoundaryDocumentProblems(d)
  {
    hide BoundaryDocumentProblems;
    forall p
      ensures p in BoundaryProblems(documents + [d])
         <==> p in BoundaryProblems(documents) || p in BoundaryDocumentProblems(d)
    {
      if p in BoundaryDocumentProblems(d) { assert d in documents + [d]; }
    }
  }

  /** `verify_bundle` on a directory. */
  method VerifyBundle(lib: Library, files: Files) returns (v: Verification)
    ensures v == Verify(lib, files)
  {
    hide FileName, ParseJson, ParseJsonl, ChecksumProblems, ManifestProblems, CheckDocuments, QualityProblems,
         BoundaryProblems, StateProblems, RunProblems, PolicyProblems;
    var errors := FileSetProblems(files);
    if errors != {} {
      return Verified(Null, 0, errors);
    }
    FileSetComplete(files);
    errors := CheckSums(lib, files);
    var manifest := ParseJson(lib, Manifest, Content(files, Manifest));
    var run := ParseJson(lib, RunFile, Content(files, RunFile));
    var state := ParseJson(lib, StateFile, Content(files, StateFile));
    var policy := ParseJson(lib, PolicyFile, Content(files, PolicyFile));
    var ledger := ReadJsonl(lib, LedgerEvents, Content(files, LedgerEvents));
    var quality := ReadJsonl(lib, QualityFindings, Content(files, QualityFindings));
    var boundary := ReadJsonl(lib, BoundaryFindings, Content(files, BoundaryFindings));
    var parsed := Parsed(manifest, run, state, policy, ledger, quality, boundary);
    if !AllRead(parsed) {
      return Raised;
    }
    errors := errors + TextProblems(parsed);
    var manifestErrors := CheckManifest(lib, files, manifest.value);
    var ordinals, ledgerErrors := CheckLedger(lib, ledger.value);
    var qualityErrors := CheckFindings(lib, ordinals, quality.value);
    var boundaryErrors := CheckBoundary(boundary.value);
    var bundleId := BundleIdOf(manifest.value);
    errors := errors + (manifestErrors + ledgerErrors + qualityErrors + boundaryErrors
      + StateProblems(lib, state.value, run.value, |ledger.value|, GreatestKey(ordinals))
      + RunProblems(run.value, bundleId, |ledger.value|, |quality.value|, |boundary.value|)
      + PolicyProblems(policy.value));
    v := Verified(bundleId, |EXPECTED|, errors);
  }
}
