/** Which error the verifier gives for which fault: the errors of the file set, of the checksum file, of the
    texts and of the documents, each with the condition on the files under which it is reported, and the
    files for which the verifier raises instead (`src/edge_evidence/bundle.py:392-540`). */
module BundleDiagnosis {
  import opened Wrappers
  import opened JsonValues
  import opened Libraries
  import opened Events
  import opened Ledgers
  import opened Bundles
  import opened BundleAgreement
  import BundleMeaning
  import C = Checksums
  import BundleContents
  import BundleSeals

  // ---- Each check has its own errors ----

  datatype Part =
    | Seals | Texts | ManifestPart | LedgerPart | QualityPart | BoundaryPart | StatePart | RunPart | PolicyPart

  /** The check an error comes from. */
  function PartOf(p: Problem): Part {
    match p
    case InvalidJson(_) => Texts
    case NoncanonicalJson(_) => Texts
    case InvalidJsonl(_) => Texts
    case NoncanonicalJsonl(_) => Texts
    case InvalidManifest => ManifestPart
    case InvalidManifestArtifacts => ManifestPart
    case ManifestFileSetMismatch => ManifestPart
    case UnsupportedBundleVersion => ManifestPart
    case InvalidManifestEntry(_) => ManifestPart
    case SizeMismatch(_) => ManifestPart
    case ManifestHashMismatch(_) => ManifestPart
    case MediaTypeMismatch(_) => ManifestPart
    case InvalidLedgerDocument => LedgerPart
    case LedgerContentDigestMismatch => LedgerPart
    case LedgerOrdinalOrderInvalid => LedgerPart
    case InvalidQualityFinding => QualityPart
    case FindingIdentityMismatch => QualityPart
    case FindingEventReferenceMismatch => QualityPart
    case InvalidBoundaryFinding => BoundaryPart
    case BoundaryClassifierVersionMismatch => BoundaryPart
    case InvalidState => StatePart
    case StateDigestMismatch => StatePart
    case StateEventCountMismatch => StatePart
    case StateLastOrdinalMismatch => StatePart
    case InvalidPolicy => PolicyPart
    case PolicyVersionMismatch => PolicyPart
    case InvalidRun => RunPart
    case BundleIdMismatch => RunPart
    case RunEventCountMismatch => RunPart
    case RunQualityCountMismatch => RunPart
    case RunBoundaryCountMismatch => RunPart
    case ProjectorVersionMismatch => RunPart
    case QualityPolicyVersionMismatch => RunPart
    case _ => Seals
  }

  ghost predicate AllOf(problems: set<Problem>, part: Part) {
    forall p | p in problems :: PartOf(p) == part
  }

  lemma {:induction false} LinesAreTexts(lib: Library, a: Artifact, lines: seq<Bytes>)
    ensures var read := ReadLines(lib, a, lines); !read.Broken? ==> AllOf(read.problems, Texts)
  {
    if lines != [] {
      LinesAreTexts(lib, a, lines[..|lines| - 1]);
    }
  }

  lemma TextsAreTexts(lib: Library, files: Files)
    requires Names(EXPECTED) <= files.Keys && AllRead(ParseAll(lib, files))
    ensures AllOf(TextProblems(ParseAll(lib, files)), Texts)
  {
    hide Content, ReadLines, FileName, ParseJson, AllOf;
    JsonIsTexts(lib, Manifest, Content(files, Manifest));
    JsonIsTexts(lib, RunFile, Content(files, RunFile));
    JsonIsTexts(lib, StateFile, Content(files, StateFile));
    JsonIsTexts(lib, PolicyFile, Content(files, PolicyFile));
    LinesAreTexts(lib, LedgerEvents, SplitBytes(Content(files, LedgerEvents)));
    LinesAreTexts(lib, QualityFindings, SplitBytes(Content(files, QualityFindings)));
    LinesAreTexts(lib, BoundaryFindings, SplitBytes(Content(files, BoundaryFindings)));
    var p := ParseAll(lib, files);
    BothAre(p.manifest.problems, p.run.problems, Texts);
    BothAre(p.manifest.problems + p.run.problems, p.state.problems, Texts);
    BothAre(p.manifest.problems + p.run.problems + p.state.problems, p.policy.problems, Texts);
    var single := p.manifest.problems + p.run.problems + p.state.problems + p.policy.problems;
    BothAre(single, p.ledger.problems, Texts);
    BothAre(single + p.ledger.problems, p.quality.problems, Texts);
    BothAre(single + p.ledger.problems + p.quality.problems, p.boundary.problems, Texts);
  }

  lemma JsonIsTexts(lib: Library, a: Artifact, content: Bytes)
    ensures var read := ParseJson(lib, a, content); read.Read? ==> AllOf(read.problems, Texts)
  {
  }

  lemma BothAre(a: set<Problem>, b: set<Problem>, part: Part)
    requires AllOf(a, part) && AllOf(b, part)
    ensures AllOf(a + b, part)
  {
    hide PartOf;
  }

  lemma EntryIsManifest(lib: Library, files: Files, artifacts: Fields, a: Artifact)
    requires Names(EXPECTED) <= files.Keys && FileName(a) in artifacts
    ensures AllOf(EntryProblems(lib, files, artifacts, a), ManifestPart)
  {
    hide EntryProblems;
    EntryKinds(lib, files, artifacts, a);
  }

  lemma EntryKinds(lib: Library, files: Files, artifacts: Fields, a: Artifact)
    requires Names(EXPECTED) <= files.Keys && FileName(a) in artifacts
    ensures EntryProblems(lib, files, artifacts, a)
         <= {InvalidManifestEntry(a), SizeMismatch(a), ManifestHashMismatch(a), MediaTypeMismatch(a)}
  {
    hide FileName, MediaType;
  }

  lemma ManifestIsManifest(lib: Library, files: Files, manifest: Json)
    requires Names(EXPECTED) <= files.Keys
    ensures AllOf(ManifestProblems(lib, files, manifest), ManifestPart)
  {
    hide EntryProblems, FileName;
    if manifest.Obj? && Get(manifest.fields, "artifacts").Obj?
      && Get(manifest.fields, "artifacts").fields.Keys == Names(PAYLOADS) {
      var artifacts := Get(manifest.fields, "artifacts").fields;
      forall a | a in PAYLOADS
        ensures FileName(a) in artifacts && AllOf(EntryProblems(lib, files, artifacts, a), ManifestPart)
      {
        assert FileName(a) in Names(PAYLOADS);
        EntryIsManifest(lib, files, artifacts, a);
      }
    }
  }

  lemma LedgerIsLedger(lib: Library, documents: seq<Json>)
    ensures AllOf(CheckDocuments(lib, documents).problems, LedgerPart)
  {
    hide CheckDocuments;
    LedgerKinds(lib, documents);
  }

  lemma LastDocument(lib: Library, documents: seq<Json>)
    requires documents != []
    ensures CheckDocuments(lib, documents)
         == CheckDocument(lib, CheckDocuments(lib, documents[..|documents| - 1]), documents[|documents| - 1])
  {
  }

  lemma {:induction false} LedgerKinds(lib: Library, documents: seq<Json>)
    ensures CheckDocuments(lib, documents).problems
         <= {InvalidLedgerDocument, LedgerContentDigestMismatch, LedgerOrdinalOrderInvalid}
  {
    if documents != [] {
      hide CheckDocument, CheckDocuments;
      LastDocument(lib, documents);
      LedgerKinds(lib, documents[..|documents| - 1]);
      DocumentKinds(lib, CheckDocuments(lib, documents[..|documents| - 1]), documents[|documents| - 1]);
    }
  }

  /** What one document adds to the errors. */
  lemma DocumentKinds(lib: Library, s: LedgerCheck, d: Json)
    ensures var problems := CheckDocument(lib, s, d).problems;
            && s.problems <= problems
            && problems <= s.problems + {InvalidLedgerDocument, LedgerContentDigestMismatch, LedgerOrdinalOrderInvalid}
  {
    hide FromMapping, ContentDigest, IntOf;
  }

  lemma DocumentErrorsIff(lib: Library, s: LedgerCheck, d: Json)
    ensures var problems := CheckDocument(lib, s, d).problems;
            && (InvalidLedgerDocument in problems <==> InvalidLedgerDocument in s.problems || !HoldsEvent(lib, d))
            && (LedgerContentDigestMismatch in problems
                <==> LedgerContentDigestMismatch in s.problems || OtherDigest(lib, d))
  {
    hide FromMapping, ContentDigest, IntOf;
  }

  /** A ledger document that holds a valid event. */
  ghost predicate HoldsEvent(lib: Library, d: Json) {
    && d.Obj? && d.fields.Keys == {"content_sha256", "event", "ordinal"}
    && FromMapping(lib, d.fields["event"]).Ok?
  }

  /** And gives it another digest than its own. */
  ghost predicate OtherDigest(lib: Library, d: Json) {
    HoldsEvent(lib, d)
      && d.fields["content_sha256"] != Str(ContentDigest(lib, FromMapping(lib, d.fields["event"]).value))
  }

  lemma QualityIsQuality(lib: Library, ordinals: map<int, string>, documents: seq<Json>)
    ensures AllOf(QualityProblems(lib, ordinals, documents), QualityPart)
  {
    hide DocumentDigest, ReferenceVerdict;
  }

  lemma BoundaryIsBoundary(documents: seq<Json>)
    ensures AllOf(BoundaryProblems(documents), BoundaryPart)
  {
  }

  lemma StateKinds(lib: Library, state: Json, run: Json, documents: nat, last: int)
    ensures StateProblems(lib, state, run, documents, last)
         <= {Problem.InvalidState, StateDigestMismatch, StateEventCountMismatch, StateLastOrdinalMismatch}
  {
  }

  lemma RunKinds(run: Json, bundleId: Json, documents: nat, findings: nat, boundary: nat)
    ensures RunProblems(run, bundleId, documents, findings, boundary)
         <= {InvalidRun, BundleIdMismatch, RunEventCountMismatch, RunQualityCountMismatch, RunBoundaryCountMismatch,
             ProjectorVersionMismatch, QualityPolicyVersionMismatch}
  {
    hide Get, PyEqual;
  }

  lemma CountsAreTheirs(lib: Library, state: Json, run: Json, policy: Json, bundleId: Json, documents: nat,
                        findings: nat, boundary: nat, last: int)
    ensures AllOf(StateProblems(lib, state, run, documents, last), StatePart)
    ensures AllOf(RunProblems(run, bundleId, documents, findings, boundary), RunPart)
    ensures AllOf(PolicyProblems(policy), PolicyPart)
  {
    hide StateProblems, RunProblems, PolicyProblems;
    StateKinds(lib, state, run, documents, last);
    RunKinds(run, bundleId, documents, findings, boundary);
    PolicyKinds(policy);
  }

  lemma PolicyKinds(policy: Json)
    ensures PolicyProblems(policy) <= {InvalidPolicy, PolicyVersionMismatch}
  {
    hide Get;
  }

  lemma SealsAreSeals(lib: Library, files: Files)
    requires Names(EXPECTED) <= files.Keys
    ensures AllOf(ChecksumProblems(lib, files), Seals)
  {
    hide C.Parse, Listed, FileName;
  }

  /** The errors of one check on the documents of a directory. */
  function ErrorsOf(lib: Library, files: Files, p: Parsed, part: Part): set<Problem>
    requires Names(EXPECTED) <= files.Keys && AllRead(p)
  {
    var check := CheckDocuments(lib, p.ledger.value);
    match part
    case Seals => ChecksumProblems(lib, files)
    case Texts => TextProblems(p)
    case ManifestPart => ManifestProblems(lib, files, p.manifest.value)
    case LedgerPart => check.problems
    case QualityPart => QualityProblems(lib, check.ordinals, p.quality.value)
    case BoundaryPart => BoundaryProblems(p.boundary.value)
    case StatePart => StateProblems(lib, p.state.value, p.run.value, |p.ledger.value|, GreatestKey(check.ordinals))
    case RunPart =>
      RunProblems(p.run.value, BundleIdOf(p.manifest.value), |p.ledger.value|, |p.quality.value|, |p.boundary.value|)
    case PolicyPart => PolicyProblems(p.policy.value)
  }

  /** An error is reported exactly when its own check finds it. */
  lemma ErrorIsOfItsCheck(lib: Library, files: Files, x: Problem)
    requires files.Keys == Names(EXPECTED) && AllRead(ParseAll(lib, files))
    ensures var result := Verify(lib, files);
            result.Verified? && (x in result.errors <==> x in ErrorsOf(lib, files, ParseAll(lib, files), PartOf(x)))
  {
    hide ChecksumProblems, TextProblems, ManifestProblems, CheckDocuments, QualityProblems, BoundaryProblems,
         StateProblems, RunProblems, PolicyProblems, ParseAll, GreatestKey, FileName, FileSetProblems, PartOf;
    var p := ParseAll(lib, files);
    var check := CheckDocuments(lib, p.ledger.value);
    FileSetComplete(files);
    SealsAreSeals(lib, files);
    TextsAreTexts(lib, files);
    ManifestIsManifest(lib, files, p.manifest.value);
    LedgerIsLedger(lib, p.ledger.value);
    QualityIsQuality(lib, check.ordinals, p.quality.value);
    BoundaryIsBoundary(p.boundary.value);
    CountsAreTheirs(lib, p.state.value, p.run.value, p.policy.value, BundleIdOf(p.manifest.value), |p.ledger.value|,
                    |p.quality.value|, |p.boundary.value|, GreatestKey(check.ordinals));
  }

  // ---- The file set and the seals ----

  /** With another file set, exactly the missing and the unexpected names are reported and nothing is read. */
  lemma WrongFilesAreNamed(lib: Library, files: Files)
    requires files.Keys != BundleContents.NAMES
    ensures var result := Verify(lib, files);
            && result.Verified? && result.bundleId == Null && result.checkedFiles == 0
            && forall p :: p in result.errors
                 <==> || (p.MissingFile? && p.name in BundleContents.NAMES && p.name !in files)
                      || (p.UnexpectedFile? && p.name in files && p.name !in BundleContents.NAMES)
  {
    hide ParseAll, ChecksumProblems, SemanticProblems, TextProblems, FileName;
    BundleContents.NamesAre();
    FileSetComplete(files);
  }

  /** Altering one sealed file of a valid bundle is reported as a checksum mismatch of that file and of no other,
      unless the file can no longer be read at all. */
  lemma AlteredFileIsNamed(lib: Library, files: Files, a: Artifact, content: Bytes)
    requires lib.Lawful() && a in SEALED && FileName(a) in files
    requires content != files[FileName(a)] && NoCollision(lib, iset{content, files[FileName(a)]})
    ensures var result := Verify(lib, files[FileName(a) := content]);
            Valid(Verify(lib, files)) && result.Verified? ==>
              forall b :: ChecksumMismatch(b) in result.errors <==> b == a
  {
    hide Verify, BundleSeals.Sealed, ChecksumProblems, FileName, ParseAll;
    BundleSeals.ValidIsSealed(lib, files);
    var changed := files[FileName(a) := content];
    if Valid(Verify(lib, files)) && Verify(lib, changed).Verified? {
      SealedKeys(lib, files, a, content);
      VerifiedIsRead(lib, changed);
      forall b ensures ChecksumMismatch(b) in Verify(lib, changed).errors <==> b == a {
        ErrorIsOfItsCheck(lib, changed, ChecksumMismatch(b));
        MismatchIff(lib, files, a, content, b);
      }
    }
  }

  lemma VerifiedIsRead(lib: Library, files: Files)
    requires files.Keys == Names(EXPECTED) && Verify(lib, files).Verified?
    ensures AllRead(ParseAll(lib, files))
  {
    hide ParseAll, ChecksumProblems, TextProblems, SemanticProblems, FileName, FileSetProblems;
    FileSetComplete(files);
  }

  lemma SealedKeys(lib: Library, files: Files, a: Artifact, content: Bytes)
    requires BundleSeals.Sealed(lib, files) && FileName(a) in files
    ensures files.Keys == files[FileName(a) := content].Keys == Names(EXPECTED)
  {
    hide FileName;
  }

  /** Against the old checksums, the altered file is the one that does not match. */
  lemma MismatchIff(lib: Library, files: Files, a: Artifact, content: Bytes, b: Artifact)
    requires BundleSeals.Sealed(lib, files) && a in SEALED && FileName(a) in files
    requires content != files[FileName(a)] && NoCollision(lib, iset{content, files[FileName(a)]})
    ensures var changed := files[FileName(a) := content];
            && changed.Keys == Names(EXPECTED)
            && (ChecksumMismatch(b) in ChecksumProblems(lib, changed) <==> b == a)
  {
    hide FileName, Listed, C.Parse, BundleSeals.Sealed, BundleSeals.SealOf;
    var changed := files[FileName(a) := content];
    SealedKeys(lib, files, a, content);
    BundleSeals.ChecksumsAreNotSealed();
    assert FileName(a) in Names(SEALED);
    assert Content(changed, ChecksumFile) == Content(files, ChecksumFile);
    if b in SEALED {
      ListedIff(lib, files, a, content, b);
    }
  }

  lemma ListedIff(lib: Library, files: Files, a: Artifact, content: Bytes, b: Artifact)
    requires BundleSeals.Sealed(lib, files) && a in SEALED && b in SEALED && FileName(a) in files
    requires content != files[FileName(a)] && NoCollision(lib, iset{content, files[FileName(a)]})
    requires files[FileName(a) := content].Keys == Names(EXPECTED)
    ensures Listed(lib, files[FileName(a) := content], C.Parse(lib, Content(files, ChecksumFile)).entries, b)
       <==> b != a
  {
    hide FileName, C.Parse, C.Render;
    var changed := files[FileName(a) := content];
    FileNamesDistinct(a, b);
    assert FileName(b) in Names(SEALED);
    assert BundleSeals.SealOf(lib, files)[FileName(b)] == lib.sha256(files[FileName(b)]);
    assert Content(changed, b) == if b == a then content else files[FileName(b)];
  }

  // ---- Directories sealed again ----

  /** However the documents were changed, sealing them again leaves only the checks of what they say. */
  lemma ResealedErrors(lib: Library, parts: Parts, x: Problem)
    requires lib.Lawful() && FiniteParts(parts)
    ensures var result, check := Verify(lib, FilesOf(lib, parts)), CheckDocuments(lib, parts.ledger);
            && result.Verified?
            && (x in result.errors <==>
                match PartOf(x)
                case Seals => false
                case Texts => false
                case ManifestPart => false
                case LedgerPart => x in check.problems
                case QualityPart => x in QualityProblems(lib, check.ordinals, parts.quality)
                case BoundaryPart => x in BoundaryProblems(parts.boundary)
                case StatePart =>
                  x in StateProblems(lib, parts.state, parts.run, |parts.ledger|, GreatestKey(check.ordinals))
                case RunPart =>
                  x in RunProblems(parts.run, Str(parts.bundleId), |parts.ledger|, |parts.quality|, |parts.boundary|)
                case PolicyPart => x in PolicyProblems(parts.policy))
  {
    hide Verify, FilesOf, FiniteParts, ChecksumProblems, ManifestProblems, CheckDocuments, QualityProblems,
         BoundaryProblems, StateProblems, RunProblems, PolicyProblems, ParseAll, GreatestKey, FileName, PartOf,
         ManifestDocument;
    var files := FilesOf(lib, parts);
    AllParse(lib, parts);
    ChecksumsAgree(lib, parts);
    ManifestAgrees(lib, parts);
    ManifestFields(lib, parts);
    ErrorIsOfItsCheck(lib, files, x);
  }

  ghost predicate Is(j: Json, key: string, value: Json) {
    j.Obj? && key in j.fields && Alike(j.fields[key], value)
  }

  ghost predicate Reports(lib: Library, files: Files, x: Problem) {
    Verify(lib, files).Verified? && x in Verify(lib, files).errors
  }

  lemma GetIs(j: Json, key: string, value: Json)
    requires j.Obj? && (value.Int? || value.Str?)
    ensures PyEqual(Get(j.fields, key), value) <==> Is(j, key, value)
    ensures value.Str? ==> (Get(j.fields, key) == value <==> Is(j, key, value))
  {
    PyEqualIsAlike(Get(j.fields, key), value);
  }

  lemma RunErrorsIff(run: Json, bundleId: string, documents: nat, findings: nat, boundary: nat)
    requires run.Obj?
    ensures var errors := RunProblems(run, Str(bundleId), documents, findings, boundary);
            && (RunEventCountMismatch in errors <==> !Is(run, "event_count", Int(documents)))
            && (RunQualityCountMismatch in errors <==> !Is(run, "quality_finding_count", Int(findings)))
            && (RunBoundaryCountMismatch in errors <==> !Is(run, "boundary_finding_count", Int(boundary)))
            && (BundleIdMismatch in errors <==> !Is(run, "bundle_id", Str(bundleId)))
            && (ProjectorVersionMismatch in errors <==> !Is(run, "projector_version", Str("1.0")))
            && (QualityPolicyVersionMismatch in errors <==> !Is(run, "quality_policy_version", Str("1.0")))
  {
    hide Is, Get, PyEqual;
    GetIs(run, "event_count", Int(documents));
    GetIs(run, "quality_finding_count", Int(findings));
    GetIs(run, "boundary_finding_count", Int(boundary));
    GetIs(run, "bundle_id", Str(bundleId));
    GetIs(run, "projector_version", Str("1.0"));
    GetIs(run, "quality_policy_version", Str("1.0"));
  }

  /** The errors of the run document, each exactly when the value it names is not the one counted or given. */
  lemma ResealedRun(lib: Library, parts: Parts)
    requires lib.Lawful() && FiniteParts(parts) && parts.run.Obj?
    ensures var files := FilesOf(lib, parts);
            && (Reports(lib, files, RunEventCountMismatch) <==> !Is(parts.run, "event_count", Int(|parts.ledger|)))
            && (Reports(lib, files, RunQualityCountMismatch)
                <==> !Is(parts.run, "quality_finding_count", Int(|parts.quality|)))
            && (Reports(lib, files, RunBoundaryCountMismatch)
                <==> !Is(parts.run, "boundary_finding_count", Int(|parts.boundary|)))
            && (Reports(lib, files, BundleIdMismatch) <==> !Is(parts.run, "bundle_id", Str(parts.bundleId)))
            && (Reports(lib, files, ProjectorVersionMismatch) <==> !Is(parts.run, "projector_version", Str("1.0")))
            && (Reports(lib, files, QualityPolicyVersionMismatch)
                <==> !Is(parts.run, "quality_policy_version", Str("1.0")))
  {
    hide Verify, FilesOf, FiniteParts, CheckDocuments, QualityProblems, BoundaryProblems, StateProblems,
         PolicyProblems, RunProblems, GreatestKey, Is;
    ResealedErrors(lib, parts, RunEventCountMismatch);
    ResealedErrors(lib, parts, RunQualityCountMismatch);
    ResealedErrors(lib, parts, RunBoundaryCountMismatch);
    ResealedErrors(lib, parts, BundleIdMismatch);
    ResealedErrors(lib, parts, ProjectorVersionMismatch);
    ResealedErrors(lib, parts, QualityPolicyVersionMismatch);
    RunErrorsIff(parts.run, parts.bundleId, |parts.ledger|, |parts.quality|, |parts.boundary|);
  }

  lemma StateErrorsIff(lib: Library, state: Json, run: Json, documents: nat, last: int)
    requires state.Obj? && run.Obj?
    ensures var errors := StateProblems(lib, state, run, documents, last);
            && (StateDigestMismatch in errors <==> !Is(run, "state_sha256", Str(lib.sha256(lib.encode(state)))))
            && (StateEventCountMismatch in errors <==> !Is(state, "event_count", Int(documents)))
            && (StateLastOrdinalMismatch in errors <==> !Is(state, "last_ordinal", Int(last)))
  {
    hide Is, Get, PyEqual;
    GetIs(run, "state_sha256", Str(lib.sha256(lib.encode(state))));
    GetIs(state, "event_count", Int(documents));
    GetIs(state, "last_ordinal", Int(last));
  }

  /** The errors of the state document: its digest in the run, and its two counts. */
  lemma ResealedState(lib: Library, parts: Parts)
    requires lib.Lawful() && FiniteParts(parts) && parts.state.Obj? && parts.run.Obj?
    ensures var files := FilesOf(lib, parts);
            && (Reports(lib, files, StateDigestMismatch)
                <==> !Is(parts.run, "state_sha256", Str(lib.sha256(lib.encode(parts.state)))))
            && (Reports(lib, files, StateEventCountMismatch) <==> !Is(parts.state, "event_count", Int(|parts.ledger|)))
            && (BundleMeaning.LedgerOk(lib, parts.ledger) ==>
                  (Reports(lib, files, StateLastOrdinalMismatch)
                   <==> !Is(parts.state, "last_ordinal", Int(BundleMeaning.LastOf(lib, parts.ledger)))))
  {
    hide Verify, FilesOf, FiniteParts, CheckDocuments, QualityProblems, BoundaryProblems, RunProblems, PolicyProblems,
         StateProblems, GreatestKey, Is, BundleMeaning.LastOf, BundleMeaning.Indexes;
    ResealedErrors(lib, parts, StateDigestMismatch);
    ResealedErrors(lib, parts, StateEventCountMismatch);
    ResealedErrors(lib, parts, StateLastOrdinalMismatch);
    var ordinals := CheckDocuments(lib, parts.ledger).ordinals;
    StateErrorsIff(lib, parts.state, parts.run, |parts.ledger|, GreatestKey(ordinals));
    if BundleMeaning.LedgerOk(lib, parts.ledger) {
      BundleMeaning.LedgerOkIff(lib, parts.ledger);
      BundleMeaning.GreatestIsLast(lib, parts.ledger, ordinals);
    }
  }

  /** The errors of ledger documents: one that holds no valid event, and one whose digest is not its event's. */
  lemma ResealedLedger(lib: Library, parts: Parts)
    requires lib.Lawful() && FiniteParts(parts)
    ensures var files := FilesOf(lib, parts);
            && (Reports(lib, files, InvalidLedgerDocument) <==> exists d :: d in parts.ledger && !HoldsEvent(lib, d))
            && (Reports(lib, files, LedgerContentDigestMismatch)
                <==> exists d :: d in parts.ledger && OtherDigest(lib, d))
  {
    hide Verify, FilesOf, FiniteParts, CheckDocuments, QualityProblems, BoundaryProblems, RunProblems, PolicyProblems,
         StateProblems, GreatestKey, HoldsEvent, OtherDigest;
    ResealedErrors(lib, parts, InvalidLedgerDocument);
    ResealedErrors(lib, parts, LedgerContentDigestMismatch);
    LedgerErrorsIff(lib, parts.ledger);
  }

  ghost predicate AnyEmpty(lib: Library, documents: seq<Json>) {
    exists d :: d in documents && !HoldsEvent(lib, d)
  }

  ghost predicate AnyOtherDigest(lib: Library, documents: seq<Json>) {
    exists d :: d in documents && OtherDigest(lib, d)
  }

  lemma AnyStep(lib: Library, front: seq<Json>, last: Json)
    ensures AnyEmpty(lib, front + [last]) <==> AnyEmpty(lib, front) || !HoldsEvent(lib, last)
    ensures AnyOtherDigest(lib, front + [last]) <==> AnyOtherDigest(lib, front) || OtherDigest(lib, last)
  {
    hide HoldsEvent, OtherDigest;
    var all := front + [last];
    assert all[|front|] == last && last in all;
    if AnyEmpty(lib, front) {
      var d :| d in front && !HoldsEvent(lib, d);
      assert d in all;
    }
    if AnyOtherDigest(lib, front) {
      var d :| d in front && OtherDigest(lib, d);
      assert d in all;
    }
  }

  lemma {:induction false} LedgerErrorsIff(lib: Library, documents: seq<Json>)
    ensures var problems := CheckDocuments(lib, documents).problems;
            && (InvalidLedgerDocument in problems <==> AnyEmpty(lib, documents))
            && (LedgerContentDigestMismatch in problems <==> AnyOtherDigest(lib, documents))
  {
    hide CheckDocument, CheckDocuments, AnyEmpty, AnyOtherDigest, HoldsEvent, OtherDigest;
    if documents == [] {
      NothingChecked(lib);
    } else {
      var front, last := documents[..|documents| - 1], documents[|documents| - 1];
      LastDocument(lib, documents);
      LedgerErrorsIff(lib, front);
      DocumentErrorsIff(lib, CheckDocuments(lib, front), last);
      assert documents == front + [last];
      AnyStep(lib, front, last);
    }
  }

  lemma NothingChecked(lib: Library)
    ensures CheckDocuments(lib, []).problems == {} && !AnyEmpty(lib, []) && !AnyOtherDigest(lib, [])
  {
  }

  /** The errors of findings: a finding that carries another id than that of its content, and a boundary finding of
      another classifier. */
  lemma ResealedFindings(lib: Library, parts: Parts)
    requires lib.Lawful() && FiniteParts(parts)
    ensures var files := FilesOf(lib, parts);
            && (Reports(lib, files, FindingIdentityMismatch) <==> exists d :: d in parts.quality && OtherId(lib, d))
            && (Reports(lib, files, BoundaryClassifierVersionMismatch)
                <==> exists d :: d in parts.boundary && OtherClassifier(d))
  {
    hide Verify, FilesOf, FiniteParts, CheckDocuments, RunProblems, PolicyProblems, StateProblems, QualityProblems,
         BoundaryProblems, GreatestKey, OtherId, OtherClassifier;
    ResealedErrors(lib, parts, FindingIdentityMismatch);
    ResealedErrors(lib, parts, BoundaryClassifierVersionMismatch);
    QualityErrorsIff(lib, CheckDocuments(lib, parts.ledger).ordinals, parts.quality);
    BoundaryErrorsIff(parts.boundary);
  }

  lemma QualityErrorsIff(lib: Library, ordinals: map<int, string>, documents: seq<Json>)
    ensures FindingIdentityMismatch in QualityProblems(lib, ordinals, documents)
       <==> exists d :: d in documents && OtherId(lib, d)
  {
    hide FindingProblems, OtherId;
    forall d ensures FindingIdentityMismatch in FindingProblems(lib, ordinals, d) <==> OtherId(lib, d) {
      OtherIdIff(lib, ordinals, d);
    }
    if d :| d in documents && OtherId(lib, d) {
      assert FindingIdentityMismatch in FindingProblems(lib, ordinals, d);
    }
  }

  lemma BoundaryErrorsIff(documents: seq<Json>)
    ensures BoundaryClassifierVersionMismatch in BoundaryProblems(documents)
       <==> exists d :: d in documents && OtherClassifier(d)
  {
    hide BoundaryDocumentProblems, OtherClassifier;
    forall d ensures BoundaryClassifierVersionMismatch in BoundaryDocumentProblems(d) <==> OtherClassifier(d) {
      OtherClassifierIff(d);
    }
    if d :| d in documents && OtherClassifier(d) {
      assert BoundaryClassifierVersionMismatch in BoundaryDocumentProblems(d);
    }
  }

  ghost predicate OtherId(lib: Library, d: Json) {
    d.Obj? && d.fields.Keys == QUALITY_FIELDS && d.fields["finding_id"] != Str(DocumentDigest(lib, d.fields))
  }

  ghost predicate OtherClassifier(d: Json) {
    && d.Obj? && d.fields.Keys == {"classifier_version", "code", "event_id", "record_index"}
    && d.fields["classifier_version"] != Str("1.0")
  }

  lemma OtherIdIff(lib: Library, ordinals: map<int, string>, d: Json)
    ensures FindingIdentityMismatch in FindingProblems(lib, ordinals, d) <==> OtherId(lib, d)
  {
    hide DocumentDigest, ReferenceVerdict;
  }

  lemma OtherClassifierIff(d: Json)
    ensures BoundaryClassifierVersionMismatch in BoundaryDocumentProblems(d) <==> OtherClassifier(d)
  {
  }

  // ---- Unreadable files ----

  /** A text that cannot be read: not UTF-8, or a JSON value with NaN or infinity. */
  ghost predicate Unreadable(lib: Library, text: Bytes) {
    lib.loads(text).Undecodable? || (lib.loads(text).Value? && !Finite(lib.loads(text).json))
  }

  /** Lines are read until one is malformed; one that cannot be read before that is an exception. */
  ghost predicate Breaks(lib: Library, lines: seq<Bytes>) {
    exists i :: 0 <= i < |lines| && Unreadable(lib, lines[i]) && Reached(lib, lines, i)
  }

  /** No line before this one is malformed. */
  ghost predicate Reached(lib: Library, lines: seq<Bytes>, i: nat)
    requires i <= |lines|
  {
    forall j | 0 <= j < i :: !lib.loads(lines[j]).Malformed?
  }

  ghost predicate Malforms(lib: Library, lines: seq<Bytes>) {
    exists i :: 0 <= i < |lines| && lib.loads(lines[i]).Malformed? && Reached(lib, lines, i)
  }

  /** A line of a finite value that is not the value's canonical text. */
  ghost predicate Deviates(lib: Library, lines: seq<Bytes>) {
    exists i :: 0 <= i < |lines| && Unlike(lib, lines[i]) && Reached(lib, lines, i)
  }

  ghost predicate Unlike(lib: Library, line: Bytes) {
    lib.loads(line).Value? && line != lib.JsonLine(lib.loads(line).json)
  }

  lemma {:induction false} LinesIff(lib: Library, a: Artifact, lines: seq<Bytes>)
    ensures var read := ReadLines(lib, a, lines);
            && (read.Broken? <==> Breaks(lib, lines))
            && (read.Stopped? <==> !Breaks(lib, lines) && Malforms(lib, lines))
            && (read.Going? <==> Reached(lib, lines, |lines|) && !Breaks(lib, lines))
            && (!read.Broken? ==> (InvalidJsonl(a) in read.problems <==> Malforms(lib, lines)))
            && (!read.Broken? ==> (NoncanonicalJsonl(a) in read.problems <==> Deviates(lib, lines)))
  {
    hide ReadLines, ReadLine, Breaks, Malforms, Deviates, Unreadable, Unlike, Reached;
    if lines == [] {
      NoLines(lib, a);
    } else {
      var front, last := lines[..|lines| - 1], lines[|lines| - 1];
      LinesIff(lib, a, front);
      assert lines == front + [last];
      LastLineRead(lib, a, front, last);
      LinesAreTexts(lib, a, front);
      BreaksStep(lib, front, last);
      MalformsStep(lib, front, last);
      DeviatesStep(lib, front, last);
      OneLineIff(lib, a, ReadLines(lib, a, front), last);
    }
  }

  lemma NoLines(lib: Library, a: Artifact)
    ensures ReadLines(lib, a, []) == Going([], {})
    ensures !Breaks(lib, []) && !Malforms(lib, []) && !Deviates(lib, []) && Reached(lib, [], 0)
  {
  }

  lemma LastLineRead(lib: Library, a: Artifact, front: seq<Bytes>, last: Bytes)
    ensures ReadLines(lib, a, front + [last]) == ReadLine(lib, a, ReadLines(lib, a, front), last)
  {
    assert (front + [last])[..|front|] == front;
  }

  lemma OneLineIff(lib: Library, a: Artifact, before: Lines, line: Bytes)
    ensures var read := ReadLine(lib, a, before, line);
            if !before.Going? then read == before
            else
              && (read.Broken? <==> Unreadable(lib, line)) && (read.Stopped? <==> lib.loads(line).Malformed?)
              && (!read.Broken? ==>
                    && (InvalidJsonl(a) in read.problems
                        <==> InvalidJsonl(a) in before.problems || lib.loads(line).Malformed?)
                    && (NoncanonicalJsonl(a) in read.problems
                        <==> NoncanonicalJsonl(a) in before.problems || Unlike(lib, line)))
  {
    hide Finite;
  }

  lemma ReachedStep(lib: Library, front: seq<Bytes>, last: Bytes)
    ensures forall i: nat | i <= |front| :: Reached(lib, front + [last], i) <==> Reached(lib, front, i)
    ensures Reached(lib, front + [last], |front| + 1) <==> Reached(lib, front, |front|) && !lib.loads(last).Malformed?
  {
    var all := front + [last];
    assert forall j | 0 <= j < |front| :: all[j] == front[j];
    assert all[|front|] == last;
  }

  lemma BreaksStep(lib: Library, front: seq<Bytes>, last: Bytes)
    ensures Breaks(lib, front + [last])
       <==> Breaks(lib, front) || (Reached(lib, front, |front|) && Unreadable(lib, last))
    ensures Reached(lib, front + [last], |front| + 1) <==> Reached(lib, front, |front|) && !lib.loads(last).Malformed?
    ensures Reached(lib, front, |front|) <==> !Malforms(lib, front)
  {
    hide Unreadable, Reached;
    var all := front + [last];
    ReachedStep(lib, front, last);
    ReachedIff(lib, front);
    assert all[|front|] == last;
    if i: nat :| i < |front| && Unreadable(lib, front[i]) && Reached(lib, front, i) {
      assert all[i] == front[i];
    }
    if i: nat :| i < |all| && Unreadable(lib, all[i]) && Reached(lib, all, i) {
      assert i < |front| ==> all[i] == front[i];
    }
  }

  /** Either all lines are reached, or a first one is malformed. */
  lemma {:induction false} ReachedIff(lib: Library, lines: seq<Bytes>)
    ensures Reached(lib, lines, |lines|) <==> !Malforms(lib, lines)
  {
    if lines != [] {
      var front, last := lines[..|lines| - 1], lines[|lines| - 1];
      ReachedIff(lib, front);
      assert lines == front + [last];
      ReachedStep(lib, front, last);
      if Malforms(lib, front) {
        var i :| 0 <= i < |front| && lib.loads(front[i]).Malformed? && Reached(lib, front, i);
        assert lines[i] == front[i];
      }
      if Malforms(lib, lines) {
        var i :| 0 <= i < |lines| && lib.loads(lines[i]).Malformed? && Reached(lib, lines, i);
        assert i < |front| ==> front[i] == lines[i];
      }
    }
  }

  lemma MalformsStep(lib: Library, front: seq<Bytes>, last: Bytes)
    ensures Malforms(lib, front + [last])
       <==> Malforms(lib, front) || (Reached(lib, front, |front|) && lib.loads(last).Malformed?)
  {
    hide Reached;
    var all := front + [last];
    ReachedStep(lib, front, last);
    assert all[|front|] == last;
    if i: nat :| i < |front| && lib.loads(front[i]).Malformed? && Reached(lib, front, i) {
      assert all[i] == front[i];
    }
    if i: nat :| i < |all| && lib.loads(all[i]).Malformed? && Reached(lib, all, i) {
      assert i < |front| ==> all[i] == front[i];
    }
  }

  lemma DeviatesStep(lib: Library, front: seq<Bytes>, last: Bytes)
    ensures Deviates(lib, front + [last])
       <==> Deviates(lib, front) || (Reached(lib, front, |front|) && Unlike(lib, last))
  {
    hide Reached, Unlike;
    var all := front + [last];
    ReachedStep(lib, front, last);
    assert all[|front|] == last;
    if i: nat :| i < |front| && Unlike(lib, front[i]) && Reached(lib, front, i) {
      assert all[i] == front[i];
    }
    if i: nat :| i < |all| && Unlike(lib, all[i]) && Reached(lib, all, i) {
      assert i < |front| ==> all[i] == front[i];
    }
  }

  const JSON_FILES := {Manifest, RunFile, StateFile, PolicyFile}
  const JSONL_FILES := {LedgerEvents, QualityFindings, BoundaryFindings}

  /** Verification raises exactly on a complete directory with a JSON file that cannot be read, or a JSONL file with
      a line that cannot be read before any malformed one. */
  lemma RaisesIff(lib: Library, files: Files)
    ensures Verify(lib, files).Raised?
       <==> && files.Keys == Names(EXPECTED)
            && ((exists a :: a in JSON_FILES && Unreadable(lib, Content(files, a)))
                || (exists a :: a in JSONL_FILES && Breaks(lib, SplitBytes(Content(files, a)))))
  {
    hide ChecksumProblems, SemanticProblems, TextProblems, FileName, ReadLines, Breaks, Unreadable, Content,
         FileSetProblems, ParseJson, ParseJsonl;
    FileSetComplete(files);
    if files.Keys == Names(EXPECTED) {
      forall a ensures ParseJson(lib, a, Content(files, a)).Crashed? <==> Unreadable(lib, Content(files, a)) {
        JsonReadIff(lib, a, Content(files, a));
      }
      forall a ensures ParseJsonl(lib, a, Content(files, a)).Crashed? <==> Breaks(lib, SplitBytes(Content(files, a))) {
        JsonlReadIff(lib, a, Content(files, a));
      }
      FilesAre();
    }
  }

  lemma FilesAre()
    ensures forall a :: a in JSON_FILES <==> a.Manifest? || a.RunFile? || a.StateFile? || a.PolicyFile?
    ensures forall a :: a in JSONL_FILES <==> a.LedgerEvents? || a.QualityFindings? || a.BoundaryFindings?
  {
  }

  lemma JsonReadIff(lib: Library, a: Artifact, content: Bytes)
    ensures var read := ParseJson(lib, a, content);
            && (read.Crashed? <==> Unreadable(lib, content))
            && (read.Read? ==> (InvalidJson(a) in read.problems <==> lib.loads(content).Malformed?))
            && (read.Read? ==> (NoncanonicalJson(a) in read.problems <==> Unlike(lib, content)))
  {
    hide Finite;
  }

  lemma JsonlReadIff(lib: Library, a: Artifact, content: Bytes)
    ensures var read, lines := ParseJsonl(lib, a, content), SplitBytes(content);
            && (read.Crashed? <==> Breaks(lib, lines))
            && (read.Read? ==> (InvalidJsonl(a) in read.problems <==> Malforms(lib, lines)))
            && (read.Read? ==> (NoncanonicalJsonl(a) in read.problems <==> Deviates(lib, lines)))
  {
    hide ReadLines, Breaks, Malforms, Deviates, SplitBytes;
    LinesIff(lib, a, SplitBytes(content));
  }

  lemma JsonOwn(lib: Library, a: Artifact, content: Bytes)
    ensures var read := ParseJson(lib, a, content);
            read.Read? ==> read.problems <= {InvalidJson(a), NoncanonicalJson(a)}
  {
  }

  lemma {:induction false} LinesOwn(lib: Library, a: Artifact, lines: seq<Bytes>)
    ensures var read := ReadLines(lib, a, lines);
            !read.Broken? ==> read.problems <= {InvalidJsonl(a), NoncanonicalJsonl(a)}
  {
    if lines != [] {
      LinesOwn(lib, a, lines[..|lines| - 1]);
    }
  }

  lemma JsonlOwn(lib: Library, a: Artifact, content: Bytes)
    ensures var read := ParseJsonl(lib, a, content);
            read.Read? ==> read.problems <= {InvalidJsonl(a), NoncanonicalJsonl(a)}
  {
    hide ReadLines;
    LinesOwn(lib, a, SplitBytes(content));
  }

  /** The errors of the text of a file, each naming the file: malformed JSON, and JSON that is not canonical; in a
      JSONL file, of a line before which none is malformed. */
  lemma TextErrorsIff(lib: Library, files: Files, a: Artifact)
    requires files.Keys == Names(EXPECTED) && Verify(lib, files).Verified?
    ensures Reports(lib, files, InvalidJson(a))
       <==> a in JSON_FILES && lib.loads(Content(files, a)).Malformed?
    ensures Reports(lib, files, NoncanonicalJson(a)) <==> a in JSON_FILES && Unlike(lib, Content(files, a))
    ensures Reports(lib, files, InvalidJsonl(a)) <==> a in JSONL_FILES && Malforms(lib, SplitBytes(Content(files, a)))
    ensures Reports(lib, files, NoncanonicalJsonl(a))
       <==> a in JSONL_FILES && Deviates(lib, SplitBytes(Content(files, a)))
  {
    hide Verify, FileName, ReadLines, Malforms, Deviates, Unlike, Content, ParseAll, TextProblems, TextTold,
         SplitBytes;
    VerifiedIsRead(lib, files);
    ErrorIsOfItsCheck(lib, files, InvalidJson(a));
    ErrorIsOfItsCheck(lib, files, NoncanonicalJson(a));
    ErrorIsOfItsCheck(lib, files, InvalidJsonl(a));
    ErrorIsOfItsCheck(lib, files, NoncanonicalJsonl(a));
    TextIff(lib, files, a, InvalidJson(a));
    TextIff(lib, files, a, NoncanonicalJson(a));
    TextIff(lib, files, a, InvalidJsonl(a));
    TextIff(lib, files, a, NoncanonicalJsonl(a));
  }

  lemma TextIff(lib: Library, files: Files, a: Artifact, x: Problem)
    requires files.Keys == Names(EXPECTED) && AllRead(ParseAll(lib, files))
    requires x in {InvalidJson(a), NoncanonicalJson(a), InvalidJsonl(a), NoncanonicalJsonl(a)}
    ensures x in TextProblems(ParseAll(lib, files)) <==> TextTells(lib, files, a, x)
  {
    hide TextProblems, TextTold, TextTells, ParseAll, FileName;
    TextProblemIff(lib, files, x);
    ToldIff(lib, files, a, x);
  }

  /** The error `x` of the text of the file `a` that the content of that file gives rise to. */
  ghost predicate TextTells(lib: Library, files: Files, a: Artifact, x: Problem)
    requires Names(EXPECTED) <= files.Keys
  {
    match x
    case InvalidJson(b) => b == a && a in JSON_FILES && lib.loads(Content(files, a)).Malformed?
    case NoncanonicalJson(b) => b == a && a in JSON_FILES && Unlike(lib, Content(files, a))
    case InvalidJsonl(b) => b == a && a in JSONL_FILES && Malforms(lib, SplitBytes(Content(files, a)))
    case NoncanonicalJsonl(b) => b == a && a in JSONL_FILES && Deviates(lib, SplitBytes(Content(files, a)))
    case _ => false
  }

  lemma JsonTells(lib: Library, files: Files, a: Artifact, x: Problem)
    requires Names(EXPECTED) <= files.Keys
    requires a in JSON_FILES
    ensures var read := ParseJson(lib, a, Content(files, a));
            read.Read? ==> (x in read.problems <==> TextTells(lib, files, a, x))
  {
    hide ParseJson, Content, Unlike;
    JsonOwn(lib, a, Content(files, a));
    JsonReadIff(lib, a, Content(files, a));
  }

  lemma JsonlTells(lib: Library, files: Files, a: Artifact, x: Problem)
    requires Names(EXPECTED) <= files.Keys
    requires a in JSONL_FILES
    ensures var read := ParseJsonl(lib, a, Content(files, a));
            read.Read? ==> (x in read.problems <==> TextTells(lib, files, a, x))
  {
    hide ParseJsonl, Content, Malforms, Deviates, SplitBytes;
    JsonlOwn(lib, a, Content(files, a));
    JsonlReadIff(lib, a, Content(files, a));
  }

  lemma TextProblemIff(lib: Library, files: Files, x: Problem)
    requires Names(EXPECTED) <= files.Keys && AllRead(ParseAll(lib, files))
    ensures x in TextProblems(ParseAll(lib, files)) <==> TextTold(lib, files, x)
  {
    hide FileName, TextTells, Content, ParseJson, ParseJsonl;
    JsonTells(lib, files, Manifest, x);
    JsonTells(lib, files, RunFile, x);
    JsonTells(lib, files, StateFile, x);
    JsonTells(lib, files, PolicyFile, x);
    JsonlTells(lib, files, LedgerEvents, x);
    JsonlTells(lib, files, QualityFindings, x);
    JsonlTells(lib, files, BoundaryFindings, x);
  }

  ghost predicate TextTold(lib: Library, files: Files, x: Problem)
    requires Names(EXPECTED) <= files.Keys
  {
    || TextTells(lib, files, Manifest, x)
    || TextTells(lib, files, RunFile, x)
    || TextTells(lib, files, StateFile, x)
    || TextTells(lib, files, PolicyFile, x)
    || TextTells(lib, files, LedgerEvents, x)
    || TextTells(lib, files, QualityFindings, x)
    || TextTells(lib, files, BoundaryFindings, x)
  }

  lemma ToldIff(lib: Library, files: Files, a: Artifact, x: Problem)
    requires Names(EXPECTED) <= files.Keys
    requires x in {InvalidJson(a), NoncanonicalJson(a), InvalidJsonl(a), NoncanonicalJsonl(a)}
    ensures TextTold(lib, files, x) <==> TextTells(lib, files, a, x)
  {
    hide TextTells, Content;
    forall b ensures TextTells(lib, files, b, x) ==> b == a && a in JSON_FILES + JSONL_FILES {
      TellsItsOwn(lib, files, b, a, x);
    }
  }

  lemma TellsItsOwn(lib: Library, files: Files, b: Artifact, a: Artifact, x: Problem)
    requires Names(EXPECTED) <= files.Keys
    requires x in {InvalidJson(a), NoncanonicalJson(a), InvalidJsonl(a), NoncanonicalJsonl(a)}
    ensures TextTells(lib, files, b, x) ==> b == a && a in JSON_FILES + JSONL_FILES
  {
    hide Malforms, Deviates, Unlike, Content, SplitBytes;
  }

  // ---- Ordinals and references ----

  /** The ordinal of a document that holds an event. */
  ghost function OrdinalIn(lib: Library, d: Json): Option<Json> {
    if HoldsEvent(lib, d) then Some(d.fields["ordinal"]) else None
  }

  ghost function OrdinalsIn(lib: Library, documents: seq<Json>): seq<Option<Json>> {
    seq(|documents|, i requires 0 <= i < |documents| => OrdinalIn(lib, documents[i]))
  }

  predicate Counts(ordinal: Option<Json>) {
    ordinal.Some? && IsInt(ordinal.value)
  }

  predicate Above(ordinal: Option<Json>, n: int) {
    Counts(ordinal) && IntOf(ordinal.value) > n
  }

  /** The ordinals of the documents that hold an event are positive integers, each above those before it. */
  ghost predicate Rises(ordinals: seq<Option<Json>>) {
    forall i | 0 <= i < |ordinals| && ordinals[i].Some? :: RisesAt(ordinals, i)
  }

  ghost predicate RisesAt(ordinals: seq<Option<Json>>, i: nat)
    requires i < |ordinals|
  {
    && Above(ordinals[i], 0)
    && forall j | 0 <= j < i && Counts(ordinals[j]) :: Above(ordinals[i], IntOf(ordinals[j].value))
  }

  /** The greatest integer ordinal, or zero. */
  ghost predicate Tops(ordinals: seq<Option<Json>>, top: int) {
    && top >= 0
    && (forall j | 0 <= j < |ordinals| :: !Above(ordinals[j], top))
    && (top == 0 || exists j :: 0 <= j < |ordinals| && Counts(ordinals[j]) && IntOf(ordinals[j].value) == top)
  }

  lemma AboveTop(ordinals: seq<Option<Json>>, top: int, next: Option<Json>)
    requires Tops(ordinals, top)
    ensures Above(next, top)
       <==> && Above(next, 0)
            && forall j | 0 <= j < |ordinals| && Counts(ordinals[j]) :: Above(next, IntOf(ordinals[j].value))
  {
    if Above(next, top) {
      forall j | 0 <= j < |ordinals| && Counts(ordinals[j]) ensures Above(next, IntOf(ordinals[j].value)) {
        assert !Above(ordinals[j], top);
      }
    }
  }

  lemma RisesStep(front: seq<Option<Json>>, next: Option<Json>, top: int)
    requires Tops(front, top)
    ensures Rises(front + [next]) <==> Rises(front) && (next.Some? ==> Above(next, top))
    ensures Tops(front + [next], if Above(next, top) then IntOf(next.value) else top)
  {
    hide IntOf;
    var all := front + [next];
    AboveTop(front, top, next);
    forall i | 0 <= i < |front| ensures RisesAt(all, i) <==> RisesAt(front, i) {
      SamePrefix(front, next, i);
    }
    assert all[|front|] == next;
    assert RisesAt(all, |front|) <==> Above(next, top) by { SameBefore(front, next); }
    if Rises(all) {
      forall i | 0 <= i < |front| && front[i].Some? ensures RisesAt(front, i) {
        assert all[i] == front[i];
      }
    }
    TopsStep(front, next, top);
  }

  lemma SamePrefix(front: seq<Option<Json>>, next: Option<Json>, i: nat)
    requires i < |front|
    ensures RisesAt(front + [next], i) <==> RisesAt(front, i)
  {
    hide Above, Counts, IntOf;
    var all := front + [next];
    assert forall j | 0 <= j <= i :: all[j] == front[j];
  }

  lemma SameBefore(front: seq<Option<Json>>, next: Option<Json>)
    ensures RisesAt(front + [next], |front|)
       <==> Above(next, 0) && forall j | 0 <= j < |front| && Counts(front[j]) :: Above(next, IntOf(front[j].value))
  {
    hide Above, Counts, IntOf;
    var all := front + [next];
    assert all[|front|] == next && forall j | 0 <= j < |front| :: all[j] == front[j];
  }

  lemma TopsStep(front: seq<Option<Json>>, next: Option<Json>, top: int)
    requires Tops(front, top)
    ensures Tops(front + [next], if Above(next, top) then IntOf(next.value) else top)
  {
    hide IntOf;
    var all := front + [next];
    assert all[|front|] == next;
    if !Above(next, top) && top != 0 {
      var j :| 0 <= j < |front| && Counts(front[j]) && IntOf(front[j].value) == top;
      assert all[j] == front[j];
    }
  }

  lemma {:induction false} OrdersIff(lib: Library, documents: seq<Json>)
    ensures var check := CheckDocuments(lib, documents);
            && (LedgerOrdinalOrderInvalid !in check.problems <==> Rises(OrdinalsIn(lib, documents)))
            && Tops(OrdinalsIn(lib, documents), check.prior)
  {
    hide CheckDocument, CheckDocuments, OrdinalIn, Rises, Tops, IntOf, Above;
    if documents == [] {
      NoOrdinals(lib);
    } else {
      var front, last := documents[..|documents| - 1], documents[|documents| - 1];
      LastDocument(lib, documents);
      OrdersIff(lib, front);
      assert OrdinalsIn(lib, documents) == OrdinalsIn(lib, front) + [OrdinalIn(lib, last)];
      DocumentOrder(lib, CheckDocuments(lib, front), last);
      RisesStep(OrdinalsIn(lib, front), OrdinalIn(lib, last), CheckDocuments(lib, front).prior);
    }
  }

  lemma NoOrdinals(lib: Library)
    ensures OrdinalsIn(lib, []) == [] && Rises([]) && Tops([], 0) && CheckDocuments(lib, []) == NO_DOCUMENTS
  {
  }

  lemma DocumentOrder(lib: Library, s: LedgerCheck, d: Json)
    ensures var t, ordinal := CheckDocument(lib, s, d), OrdinalIn(lib, d);
            && t.prior == (if Above(ordinal, s.prior) then IntOf(ordinal.value) else s.prior)
            && (LedgerOrdinalOrderInvalid in t.problems
                <==> LedgerOrdinalOrderInvalid in s.problems || (ordinal.Some? && !Above(ordinal, s.prior)))
  {
    hide FromMapping, ContentDigest, IntOf;
  }

  /** The order error is reported if and only if the ordinals do not rise. */
  lemma ResealedOrder(lib: Library, parts: Parts)
    requires lib.Lawful() && FiniteParts(parts)
    ensures Reports(lib, FilesOf(lib, parts), LedgerOrdinalOrderInvalid) <==> !Rises(OrdinalsIn(lib, parts.ledger))
  {
    hide Verify, FilesOf, FiniteParts, CheckDocuments, QualityProblems, BoundaryProblems, RunProblems, PolicyProblems,
         StateProblems, GreatestKey, Rises, OrdinalIn, Tops;
    ResealedErrors(lib, parts, LedgerOrdinalOrderInvalid);
    OrdersIff(lib, parts.ledger);
  }

  /** The reference error of a finding: some pair disagrees, and no pair before it disagrees or cannot be looked up. */
  ghost predicate Disagrees(ordinals: map<int, string>, xs: seq<Json>, ys: seq<Json>) {
    exists i :: 0 <= i < |xs| && i < |ys| && DisagreesAt(ordinals, xs, ys, i)
  }

  predicate Hashable(x: Json) {
    !x.Arr? && !x.Obj?
  }

  ghost predicate DisagreesAt(ordinals: map<int, string>, xs: seq<Json>, ys: seq<Json>, i: nat)
    requires i < |xs| && i < |ys|
  {
    && Hashable(xs[i]) && !Refers(ordinals, xs[i], ys[i])
    && forall j | 0 <= j < i :: Hashable(xs[j]) && Refers(ordinals, xs[j], ys[j])
  }

  lemma {:induction false} MismatchedIff(ordinals: map<int, string>, xs: seq<Json>, ys: seq<Json>)
    ensures MatchPairs(ordinals, xs, ys) == Mismatched <==> Disagrees(ordinals, xs, ys)
  {
    hide Refers;
    if xs != [] && ys != [] && Hashable(xs[0]) {
      if Refers(ordinals, xs[0], ys[0]) {
        MismatchedIff(ordinals, xs[1..], ys[1..]);
        if Disagrees(ordinals, xs[1..], ys[1..]) {
          var i :| 0 <= i < |xs[1..]| && i < |ys[1..]| && DisagreesAt(ordinals, xs[1..], ys[1..], i);
          forall j | 0 <= j < i + 1 ensures Hashable(xs[j]) && Refers(ordinals, xs[j], ys[j]) {
            assert j > 0 ==> xs[j] == xs[1..][j - 1] && ys[j] == ys[1..][j - 1];
          }
          assert DisagreesAt(ordinals, xs, ys, i + 1);
        }
        if Disagrees(ordinals, xs, ys) {
          var i :| 0 <= i < |xs| && i < |ys| && DisagreesAt(ordinals, xs, ys, i);
          forall j | 0 <= j < i - 1 ensures Hashable(xs[1..][j]) && Refers(ordinals, xs[1..][j], ys[1..][j]) {
            assert xs[1..][j] == xs[j + 1] && ys[1..][j] == ys[j + 1];
          }
          assert DisagreesAt(ordinals, xs[1..], ys[1..], i - 1);
        }
      } else {
        assert DisagreesAt(ordinals, xs, ys, 0);
      }
    }
  }
}
