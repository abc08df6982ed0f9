/** What a valid bundle is: the verifier accepts exactly the sealed, canonical and consistent
    directories (`src/edge_evidence/bundle.py:392-540`). */
module BundleMeaning {
  import opened Wrappers
  import opened JsonValues
  import opened Libraries
  import opened Events
  import opened Ledgers
  import opened Projection
  import opened QualityRules
  import opened Bundles
  import opened BundleAgreement
  import opened BundleSeals
  import C = Checksums

  // ---- Canonical text ----

  function Joined(lines: seq<Bytes>): Bytes {
    if lines == [] then [] else lines[0] + Joined(lines[1..])
  }

  lemma {:induction false} SplitJoins(b: Bytes)
    ensures Joined(SplitBytes(b)) == b
    decreases |b|
  {
    if b != [] {
      var n := FirstLine(b);
      SplitJoins(b[n..]);
      assert SplitBytes(b)[1..] == SplitBytes(b[n..]);
      assert b == b[..n] + b[n..];
    }
  }

  lemma {:induction false} WrittenJoins(lib: Library, documents: seq<Json>)
    ensures Joined(WrittenLines(lib, documents)) == JsonlBytes(lib, documents)
  {
    if documents != [] {
      WrittenJoins(lib, documents[1..]);
      assert WrittenLines(lib, documents)[1..] == WrittenLines(lib, documents[1..]);
    }
  }

  /** Lines read without complaint are the written lines of what was read. */
  lemma {:induction false} ReadIsWritten(lib: Library, a: Artifact, lines: seq<Bytes>)
    ensures var r := ReadLines(lib, a, lines);
            r.Going? && r.problems == {} ==> AllFinite(r.values) && lines == WrittenLines(lib, r.values)
  {
    if lines != [] {
      hide Finite;
      var front, line := lines[..|lines| - 1], lines[|lines| - 1];
      ReadIsWritten(lib, a, front);
      var before, r := ReadLines(lib, a, front), ReadLines(lib, a, lines);
      if r.Going? && r.problems == {} {
        WrittenSnoc(lib, before.values, r.values[|r.values| - 1]);
        assert lines == front + [line];
      }
    }
  }

  lemma WrittenSnoc(lib: Library, documents: seq<Json>, d: Json)
    ensures WrittenLines(lib, documents + [d]) == WrittenLines(lib, documents) + [lib.JsonLine(d)]
  {
  }

  /** A JSONL file reads without complaint if and only if it is the written form of finite documents. */
  lemma CanonicalLinesIff(lib: Library, a: Artifact, content: Bytes, documents: seq<Json>)
    requires lib.Lawful()
    ensures ParseJsonl(lib, a, content) == Read(documents, {})
       <==> AllFinite(documents) && content == JsonlBytes(lib, documents)
  {
    hide ReadLines, SplitBytes, JsonlBytes, AllFinite;
    if AllFinite(documents) && content == JsonlBytes(lib, documents) {
      ParseJsonlWritten(lib, a, documents);
    }
    var lines := SplitBytes(content);
    StoppedComplains(lib, a, lines);
    ReadIsWritten(lib, a, lines);
    SplitJoins(content);
    WrittenJoins(lib, documents);
  }

  lemma {:induction false} StoppedComplains(lib: Library, a: Artifact, lines: seq<Bytes>)
    ensures var r := ReadLines(lib, a, lines); r.Stopped? ==> r.problems != {}
  {
    if lines != [] {
      StoppedComplains(lib, a, lines[..|lines| - 1]);
    }
  }

  /** A JSON file reads without complaint if and only if it is the written form of a finite value. */
  lemma CanonicalTextIff(lib: Library, a: Artifact, content: Bytes, j: Json)
    requires lib.Lawful()
    ensures ParseJson(lib, a, content) == Read(j, {}) <==> Finite(j) && content == lib.JsonLine(j)
  {
    hide Finite;
    if Finite(j) && content == lib.JsonLine(j) {
      ParseJsonWritten(lib, a, j);
    }
    match lib.loads(content)
    case Value(k) => assert If(content != lib.JsonLine(k), NoncanonicalJson(a)) == {} <==> content == lib.JsonLine(k);
    case _ =>
  }

  // ---- Ledger documents ----

  predicate DocumentOk(lib: Library, d: Json) {
    && d.Obj? && d.fields.Keys == LEDGER_FIELDS
    && FromMapping(lib, d.fields["event"]).Ok?
    && d.fields["content_sha256"] == Str(ContentDigest(lib, FromMapping(lib, d.fields["event"]).value))
    && IsInt(d.fields["ordinal"])
  }

  function OrdinalOf(lib: Library, d: Json): int
    requires DocumentOk(lib, d)
  {
    IntOf(d.fields["ordinal"])
  }

  function EventOf(lib: Library, d: Json): Event
    requires DocumentOk(lib, d)
  {
    FromMapping(lib, d.fields["event"]).value
  }

  /** Every document carries a valid event and its digest, under positive, strictly increasing ordinals. */
  predicate LedgerOk(lib: Library, documents: seq<Json>) {
    && (forall i | 0 <= i < |documents| :: DocumentOk(lib, documents[i]))
    && (forall i | 0 <= i < |documents| :: OrdinalOf(lib, documents[i]) > 0)
    && (forall i, j | 0 <= i < j < |documents| :: OrdinalOf(lib, documents[i]) < OrdinalOf(lib, documents[j]))
  }

  /** The dictionary of a consistent ledger file: each document's ordinal to its event identity. */
  predicate Indexes(lib: Library, documents: seq<Json>, ordinals: map<int, string>)
    requires LedgerOk(lib, documents)
  {
    && (forall i | 0 <= i < |documents| ::
          OrdinalOf(lib, documents[i]) in ordinals
          && ordinals[OrdinalOf(lib, documents[i])] == EventOf(lib, documents[i]).eventId)
    && (forall n | n in ordinals :: exists i :: 0 <= i < |documents| && OrdinalOf(lib, documents[i]) == n)
  }

  function LastOf(lib: Library, documents: seq<Json>): int
    requires LedgerOk(lib, documents)
  {
    if documents == [] then 0 else OrdinalOf(lib, documents[|documents| - 1])
  }

  lemma LedgerOkStep(lib: Library, front: seq<Json>, d: Json)
    ensures LedgerOk(lib, front + [d])
       <==> LedgerOk(lib, front) && DocumentOk(lib, d) && OrdinalOf(lib, d) > LastOf(lib, front)
  {
    hide DocumentOk;
    var all := front + [d];
    if LedgerOk(lib, all) {
      assert all[|front|] == d;
      forall i | 0 <= i < |front| ensures DocumentOk(lib, front[i]) && OrdinalOf(lib, front[i]) > 0 {
        assert all[i] == front[i];
      }
      forall i, j | 0 <= i < j < |front| ensures OrdinalOf(lib, front[i]) < OrdinalOf(lib, front[j]) {
        assert all[i] == front[i] && all[j] == front[j];
      }
      if front != [] {
        assert all[|front| - 1] == front[|front| - 1];
        assert OrdinalOf(lib, all[|front| - 1]) < OrdinalOf(lib, all[|front|]);
      }
    }
    if LedgerOk(lib, front) && DocumentOk(lib, d) && OrdinalOf(lib, d) > LastOf(lib, front) {
      forall i | 0 <= i < |front| ensures OrdinalOf(lib, front[i]) <= LastOf(lib, front) {
        assert i < |front| - 1 ==> OrdinalOf(lib, front[i]) < OrdinalOf(lib, front[|front| - 1]);
      }
    }
  }

  lemma CheckStep(lib: Library, s: LedgerCheck, d: Json)
    ensures var t := CheckDocument(lib, s, d);
            && s.problems <= t.problems
            && (t.problems == {} <==> s.problems == {} && DocumentOk(lib, d) && OrdinalOf(lib, d) > s.prior)
            && (t.problems == {} ==>
                t.prior == OrdinalOf(lib, d) && t.ordinals == s.ordinals[OrdinalOf(lib, d) := EventOf(lib, d).eventId])
  {
    hide FromMapping, ContentDigest, IntOf;
  }

  lemma IndexStep(lib: Library, front: seq<Json>, d: Json, ordinals: map<int, string>)
    requires LedgerOk(lib, front) && LedgerOk(lib, front + [d]) && DocumentOk(lib, d) && Indexes(lib, front, ordinals)
    requires OrdinalOf(lib, d) > LastOf(lib, front)
    ensures Indexes(lib, front + [d], ordinals[OrdinalOf(lib, d) := EventOf(lib, d).eventId])
  {
    hide DocumentOk;
    var all, more := front + [d], ordinals[OrdinalOf(lib, d) := EventOf(lib, d).eventId];
    assert all[|front|] == d;
    forall i | 0 <= i < |all|
      ensures OrdinalOf(lib, all[i]) in more && more[OrdinalOf(lib, all[i])] == EventOf(lib, all[i]).eventId
    {
      if i < |front| {
        assert all[i] == front[i];
        assert OrdinalOf(lib, all[i]) < OrdinalOf(lib, all[|front|]);
      }
    }
    forall n | n in more ensures exists i :: 0 <= i < |all| && OrdinalOf(lib, all[i]) == n {
      if n in ordinals {
        var i :| 0 <= i < |front| && OrdinalOf(lib, front[i]) == n;
        assert all[i] == front[i];
      } else {
        assert OrdinalOf(lib, all[|front|]) == n;
      }
    }
  }

  /** The ledger loop reports nothing if and only if the documents are consistent, and then its
      dictionary indexes them. */
  lemma {:induction false} LedgerOkIff(lib: Library, documents: seq<Json>)
    ensures var s := CheckDocuments(lib, documents);
            && (s.problems == {} <==> LedgerOk(lib, documents))
            && (s.problems == {} ==> s.prior == LastOf(lib, documents) && Indexes(lib, documents, s.ordinals))
  {
    if documents != [] {
      hide CheckDocuments, CheckDocument, DocumentOk, LedgerOk, Indexes, OrdinalOf, EventOf, LastOf;
      var front, d := documents[..|documents| - 1], documents[|documents| - 1];
      assert documents == front + [d];
      LedgerOkIff(lib, front);
      var before := CheckDocuments(lib, front);
      CheckSnoc(lib, front, d);
      CheckStep(lib, before, d);
      LedgerOkStep(lib, front, d);
      if CheckDocuments(lib, documents).problems == {} {
        IndexStep(lib, front, d, before.ordinals);
        LastSnoc(lib, front, d);
      }
    }
  }

  lemma CheckSnoc(lib: Library, front: seq<Json>, d: Json)
    ensures CheckDocuments(lib, front + [d]) == CheckDocument(lib, CheckDocuments(lib, front), d)
  {
    assert (front + [d])[..|front|] == front;
  }

  lemma LastSnoc(lib: Library, front: seq<Json>, d: Json)
    requires LedgerOk(lib, front + [d]) && DocumentOk(lib, d)
    ensures LastOf(lib, front + [d]) == OrdinalOf(lib, d)
  {
    hide DocumentOk;
  }

  /** And the greatest key is the last ordinal. */
  lemma GreatestIsLast(lib: Library, documents: seq<Json>, ordinals: map<int, string>)
    requires LedgerOk(lib, documents) && Indexes(lib, documents, ordinals)
    ensures GreatestKey(ordinals) == LastOf(lib, documents)
  {
    hide DocumentOk, OrdinalOf, EventOf;
    if documents == [] {
      assert ordinals == map[] by {
        forall n ensures n !in ordinals { }
      }
    } else {
      var m := GreatestKey(ordinals);
      assert OrdinalOf(lib, documents[|documents| - 1]) in ordinals;
      var i :| 0 <= i < |documents| && OrdinalOf(lib, documents[i]) == m;
      NoneAboveLast(lib, documents, i);
    }
  }

  lemma NoneAboveLast(lib: Library, documents: seq<Json>, i: nat)
    requires LedgerOk(lib, documents) && i < |documents|
    ensures OrdinalOf(lib, documents[i]) <= LastOf(lib, documents)
  {
    hide DocumentOk;
    assert i < |documents| - 1 ==> OrdinalOf(lib, documents[i]) < OrdinalOf(lib, documents[|documents| - 1]);
  }

  // ---- Findings, manifest, state, run and policy ----

  /** A finding document that carries its own digest and whose references pair off and agree. */
  predicate FindingOk(lib: Library, ordinals: map<int, string>, d: Json) {
    && d.Obj? && d.fields.Keys == QUALITY_FIELDS
    && d.fields["finding_id"] == Str(DocumentDigest(lib, d.fields))
    && ReferencesOk(ordinals, Items(d.fields["ledger_ordinals"]), Items(d.fields["event_ids"]))
  }

  predicate ReferencesOk(ordinals: map<int, string>, xs: Option<seq<Json>>, ys: Option<seq<Json>>) {
    && xs.Some? && ys.Some? && |xs.value| == |ys.value|
    && forall i | 0 <= i < |xs.value| ::
         !xs.value[i].Arr? && !xs.value[i].Obj? && Refers(ordinals, xs.value[i], ys.value[i])
  }

  lemma FindingOkIff(lib: Library, ordinals: map<int, string>, d: Json)
    ensures FindingProblems(lib, ordinals, d) == {} <==> FindingOk(lib, ordinals, d)
  {
    hide DocumentDigest, MatchPairs, Refers, Items;
    if d.Obj? && d.fields.Keys == QUALITY_FIELDS {
      var xs, ys := Items(d.fields["ledger_ordinals"]), Items(d.fields["event_ids"]);
      if xs.Some? && ys.Some? {
        ReferencesPassIff(ordinals, xs.value, ys.value);
      }
    }
  }

  lemma QualityOkIff(lib: Library, ordinals: map<int, string>, documents: seq<Json>)
    ensures QualityProblems(lib, ordinals, documents) == {}
       <==> forall d | d in documents :: FindingOk(lib, ordinals, d)
  {
    hide FindingProblems, FindingOk;
    forall d ensures FindingProblems(lib, ordinals, d) == {} <==> FindingOk(lib, ordinals, d) {
      FindingOkIff(lib, ordinals, d);
    }
    if QualityProblems(lib, ordinals, documents) == {} {
      forall d | d in documents ensures FindingProblems(lib, ordinals, d) == {} {
        assert FindingProblems(lib, ordinals, d) <= QualityProblems(lib, ordinals, documents);
      }
    }
  }

  lemma BoundaryOkIff(documents: seq<Json>)
    ensures BoundaryProblems(documents) == {} <==> forall d | d in documents :: d.Obj? && BoundaryOk(d.fields)
  {
    hide BoundaryDocumentProblems, BoundaryOk;
    forall d ensures BoundaryDocumentProblems(d) == {} <==> d.Obj? && BoundaryOk(d.fields) {
      OneBoundaryIff(d);
    }
    if BoundaryProblems(documents) == {} {
      forall d | d in documents ensures BoundaryDocumentProblems(d) == {} {
        assert BoundaryDocumentProblems(d) <= BoundaryProblems(documents);
      }
    }
  }

  /** An entry that records a file's size, digest and media type, and nothing else. */
  predicate EntryOk(lib: Library, a: Artifact, content: Bytes, entry: Json) {
    && entry.Obj? && entry.fields.Keys == {"bytes", "media_type", "sha256"}
    && PyEqual(entry.fields["bytes"], Int(|content|))
    && entry.fields["sha256"] == Str(lib.sha256(content))
    && entry.fields["media_type"] == Str(MediaType(a))
  }

  lemma EntryOkIff(lib: Library, files: Files, artifacts: Fields, a: Artifact)
    requires Names(EXPECTED) <= files.Keys && FileName(a) in artifacts
    ensures EntryProblems(lib, files, artifacts, a) == {}
       <==> EntryOk(lib, a, Content(files, a), artifacts[FileName(a)])
  {
    hide FileName, MediaType, PyEqual, Content;
    var entry := artifacts[FileName(a)];
    if entry.Obj? {
      assert EntryProblems(lib, files, artifacts, a) == {} <==>
        && entry.fields.Keys == {"bytes", "media_type", "sha256"}
        && PyEqual(Get(entry.fields, "bytes"), Int(|Content(files, a)|))
        && Get(entry.fields, "sha256") == Str(lib.sha256(Content(files, a)))
        && Get(entry.fields, "media_type") == Str(MediaType(a));
    }
  }

  predicate ManifestOk(lib: Library, files: Files, manifest: Json)
    requires Names(EXPECTED) <= files.Keys
  {
    && manifest.Obj? && Get(manifest.fields, "bundle_version") == Str(BUNDLE_VERSION)
    && var artifacts := Get(manifest.fields, "artifacts");
       && artifacts.Obj? && artifacts.fields.Keys == Names(PAYLOADS)
       && forall a | a in PAYLOADS ::
          FileName(a) in artifacts.fields && EntryOk(lib, a, Content(files, a), artifacts.fields[FileName(a)])
  }

  lemma ManifestOkIff(lib: Library, files: Files, manifest: Json)
    requires Names(EXPECTED) <= files.Keys
    ensures ManifestProblems(lib, files, manifest) == {} <==> ManifestOk(lib, files, manifest)
  {
    hide FileName, EntryProblems, EntryOk, Content, Get;
    if manifest.Obj? {
      var artifacts := Get(manifest.fields, "artifacts");
      if artifacts.Obj? && artifacts.fields.Keys == Names(PAYLOADS) {
        forall a | a in PAYLOADS
          ensures FileName(a) in artifacts.fields
          ensures EntryProblems(lib, files, artifacts.fields, a) == {}
             <==> EntryOk(lib, a, Content(files, a), artifacts.fields[FileName(a)])
        {
          EntryOkIff(lib, files, artifacts.fields, a);
        }
        var all := set a, p | a in PAYLOADS && p in EntryProblems(lib, files, artifacts.fields, a) :: p;
        if all == {} {
          forall a | a in PAYLOADS ensures EntryProblems(lib, files, artifacts.fields, a) == {} {
            assert EntryProblems(lib, files, artifacts.fields, a) <= all;
          }
        }
      }
    }
  }

  predicate StateOk(lib: Library, state: Json, run: Json, documents: nat, last: int) {
    && state.Obj?
    && (run.Obj? ==> Get(run.fields, "state_sha256") == Str(lib.sha256(lib.encode(state))))
    && PyEqual(Get(state.fields, "event_count"), Int(documents))
    && PyEqual(Get(state.fields, "last_ordinal"), Int(last))
  }

  predicate RunOk(run: Json, bundleId: Json, documents: nat, findings: nat, boundary: nat) {
    && run.Obj? && PyEqual(Get(run.fields, "bundle_id"), bundleId)
    && PyEqual(Get(run.fields, "event_count"), Int(documents))
    && PyEqual(Get(run.fields, "quality_finding_count"), Int(findings))
    && PyEqual(Get(run.fields, "boundary_finding_count"), Int(boundary))
    && Get(run.fields, "projector_version") == Str(PROJECTOR_VERSION)
    && Get(run.fields, "quality_policy_version") == Str(POLICY_VERSION)
  }

  predicate PolicyFileOk(policy: Json) {
    && policy.Obj? && Get(policy.fields, "version") == Str(POLICY_VERSION)
    && IsInt(Get(policy.fields, "delay_threshold_seconds")) && IsInt(Get(policy.fields, "frozen_run_length"))
    && IsInt(Get(policy.fields, "stale_after_seconds"))
  }

  lemma RestOkIff(lib: Library, state: Json, run: Json, policy: Json, bundleId: Json, documents: nat, findings: nat,
                  boundary: nat, last: int)
    ensures StateProblems(lib, state, run, documents, last) == {} <==> StateOk(lib, state, run, documents, last)
    ensures RunProblems(run, bundleId, documents, findings, boundary) == {}
       <==> RunOk(run, bundleId, documents, findings, boundary)
    ensures PolicyProblems(policy) == {} <==> PolicyFileOk(policy)
  {
    hide PyEqual, Get;
  }

  // ---- The whole directory ----

  /** The documents of a bundle. */
  datatype Documents = Documents(
    manifest: Json, run: Json, state: Json, policy: Json,
    ledger: seq<Json>, quality: seq<Json>, boundary: seq<Json>
  )

  /** The files are the canonical text of the documents. */
  ghost predicate Writes(lib: Library, files: Files, d: Documents)
    requires Names(EXPECTED) <= files.Keys
  {
    && Finite(d.manifest) && Content(files, Manifest) == lib.JsonLine(d.manifest)
    && Finite(d.run) && Content(files, RunFile) == lib.JsonLine(d.run)
    && Finite(d.state) && Content(files, StateFile) == lib.JsonLine(d.state)
    && Finite(d.policy) && Content(files, PolicyFile) == lib.JsonLine(d.policy)
    && AllFinite(d.ledger) && Content(files, LedgerEvents) == JsonlBytes(lib, d.ledger)
    && AllFinite(d.quality) && Content(files, QualityFindings) == JsonlBytes(lib, d.quality)
    && AllFinite(d.boundary) && Content(files, BoundaryFindings) == JsonlBytes(lib, d.boundary)
  }

  /** The documents agree with the files and with each other. */
  predicate Consistent(lib: Library, files: Files, d: Documents)
    requires Names(EXPECTED) <= files.Keys
  {
    && ManifestOk(lib, files, d.manifest)
    && LedgerOk(lib, d.ledger)
    && (forall f | f in d.quality :: FindingOk(lib, CheckDocuments(lib, d.ledger).ordinals, f))
    && (forall f | f in d.boundary :: f.Obj? && BoundaryOk(f.fields))
    && StateOk(lib, d.state, d.run, |d.ledger|, LastOf(lib, d.ledger))
    && RunOk(d.run, BundleIdOf(d.manifest), |d.ledger|, |d.quality|, |d.boundary|)
    && PolicyFileOk(d.policy)
  }

  function AllReadAs(d: Documents): Parsed {
    Parsed(Read(d.manifest, {}), Read(d.run, {}), Read(d.state, {}), Read(d.policy, {}),
           Read(d.ledger, {}), Read(d.quality, {}), Read(d.boundary, {}))
  }

  lemma ParsedIff(lib: Library, files: Files, d: Documents)
    requires lib.Lawful() && Names(EXPECTED) <= files.Keys
    ensures ParseAll(lib, files) == AllReadAs(d) <==> Writes(lib, files, d)
  {
    hide ParseJson, ParseJsonl, Content, JsonlBytes, Finite, AllFinite;
    CanonicalTextIff(lib, Manifest, Content(files, Manifest), d.manifest);
    CanonicalTextIff(lib, RunFile, Content(files, RunFile), d.run);
    CanonicalTextIff(lib, StateFile, Content(files, StateFile), d.state);
    CanonicalTextIff(lib, PolicyFile, Content(files, PolicyFile), d.policy);
    CanonicalLinesIff(lib, LedgerEvents, Content(files, LedgerEvents), d.ledger);
    CanonicalLinesIff(lib, QualityFindings, Content(files, QualityFindings), d.quality);
    CanonicalLinesIff(lib, BoundaryFindings, Content(files, BoundaryFindings), d.boundary);
  }

  lemma SemanticsIff(lib: Library, files: Files, d: Documents)
    requires Names(EXPECTED) <= files.Keys
    ensures SemanticProblems(lib, files, AllReadAs(d)) == {} <==> Consistent(lib, files, d)
  {
    hide ManifestProblems, ManifestOk, CheckDocuments, LedgerOk, LastOf, Indexes, QualityProblems, FindingOk,
         BoundaryProblems, BoundaryOk, StateProblems, StateOk, RunProblems, RunOk, PolicyProblems, PolicyFileOk,
         GreatestKey, BundleIdOf;
    var check := CheckDocuments(lib, d.ledger);
    ManifestOkIff(lib, files, d.manifest);
    LedgerOkIff(lib, d.ledger);
    QualityOkIff(lib, check.ordinals, d.quality);
    BoundaryOkIff(d.boundary);
    RestOkIff(lib, d.state, d.run, d.policy, BundleIdOf(d.manifest), |d.ledger|, |d.quality|, |d.boundary|,
              GreatestKey(check.ordinals));
    if LedgerOk(lib, d.ledger) {
      GreatestIsLast(lib, d.ledger, check.ordinals);
    }
  }

  lemma SealedIff(lib: Library, files: Files)
    requires lib.Lawful() && files.Keys == Names(EXPECTED)
    ensures ChecksumProblems(lib, files) == {}
       <==> Content(files, ChecksumFile) == lib.utf8(C.Render(SealOf(lib, files)))
  {
    hide FileName, C.Parse, C.Render, Listed;
    NoProblemsIsSealed(lib, files);
    SealedNames();
    var seal := SealOf(lib, files);
    if Content(files, ChecksumFile) == lib.utf8(C.Render(seal)) {
      forall name | name in seal ensures C.Portable(name) && C.Unbroken(name) && HexDigest(seal[name]) {
        var a :| a in SEALED && FileName(a) == name;
        FileNameListable(a);
        lib.DigestShape(files[name]);
      }
      C.PrintThenParse(lib, seal);
      forall a | a in SEALED ensures Listed(lib, files, seal, a) {
        SealLists(lib, files, a);
      }
    }
  }

  lemma SealLists(lib: Library, files: Files, a: Artifact)
    requires files.Keys == Names(EXPECTED) && a in SEALED
    ensures Listed(lib, files, SealOf(lib, files), a)
  {
    hide FileName;
    SealedHolds(a);
  }

  ghost predicate Whole(lib: Library, files: Files, d: Documents) {
    && files.Keys == Names(EXPECTED)
    && Content(files, ChecksumFile) == lib.utf8(C.Render(SealOf(lib, files)))
    && Writes(lib, files, d) && Consistent(lib, files, d)
  }

  lemma ReadsWithoutProblems(p: Parsed)
    requires AllRead(p) && TextProblems(p) == {}
    ensures p == AllReadAs(Documents(p.manifest.value, p.run.value, p.state.value, p.policy.value,
                                     p.ledger.value, p.quality.value, p.boundary.value))
  {
    assert p.manifest.problems <= TextProblems(p) && p.run.problems <= TextProblems(p);
    assert p.state.problems <= TextProblems(p) && p.policy.problems <= TextProblems(p);
    assert p.ledger.problems <= TextProblems(p) && p.quality.problems <= TextProblems(p)
           && p.boundary.problems <= TextProblems(p);
  }

  /** Verification accepts a directory if and only if it has exactly the nine files, the checksum file is
      the printed digests of the others, and the others are the canonical text of documents that agree
      with the files and with each other. */
  lemma ValidIffWhole(lib: Library, files: Files)
    requires lib.Lawful()
    ensures Valid(Verify(lib, files)) <==> exists d :: Whole(lib, files, d)
  {
    hide ParseAll, TextProblems, SemanticProblems, ChecksumProblems, Writes, Consistent, FileSetProblems, BundleIdOf;
    FileSetComplete(files);
    if files.Keys == Names(EXPECTED) {
      SealedIff(lib, files);
      if Valid(Verify(lib, files)) {
        var p := ParseAll(lib, files);
        ReadsWithoutProblems(p);
        var d := Documents(p.manifest.value, p.run.value, p.state.value, p.policy.value, p.ledger.value,
                           p.quality.value, p.boundary.value);
        ParsedIff(lib, files, d);
        SemanticsIff(lib, files, d);
        assert Whole(lib, files, d);
      }
      if d :| Whole(lib, files, d) {
        ParsedIff(lib, files, d);
        SemanticsIff(lib, files, d);
        assert TextProblems(AllReadAs(d)) == {} by { NoTextProblems(d); }
      }
    }
  }

  lemma NoTextProblems(d: Documents)
    ensures AllRead(AllReadAs(d)) && TextProblems(AllReadAs(d)) == {}
  {
  }
}
