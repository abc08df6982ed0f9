/** What a valid bundle does not show, and exactly when it does (`src/edge_evidence/bundle.py:468-505`). */
module BundleLimits {
  import opened Wrappers
  import opened JsonValues
  import opened Libraries
  import opened Logs
  import opened Ledgers
  import opened Projection
  import opened Checkpoints
  import opened QualityRules
  import opened Bundles
  import opened BundleAgreement
  import opened BundleMeaning

  /** The documents of a run over a ledger, with any state and any quality documents. */
  function SealedWith(lib: Library, inputs: Inputs, log: Log, state: State, quality: seq<Json>, report: Bytes): Parts
    requires inputs.createdAt.Utc? && inputs.asOf.Utc?
  {
    var boundary := SortedBoundary(lib, inputs.boundary);
    Parts(inputs.bundleId, boundary, LedgerDocuments(lib, StoredRows(lib, log)), PolicyDocument(inputs.policy), quality,
          report,
          RunDocument(lib, inputs, |log|, |quality|, |boundary|, lib.sha256(lib.encode(StateJson(state)))),
          StateJson(state))
  }

  /** Times in UTC and boundary findings of the contract's shape. */
  ghost predicate Proper(inputs: Inputs) {
    && inputs.createdAt.Utc? && inputs.asOf.Utc?
    && forall fields | fields in inputs.boundary :: Finite(Obj(fields)) && BoundaryOk(fields)
  }

  // ---- The state ----

  /** Verification compares two counts of the state and replays nothing: sealed with any state, a ledger's
      directory is valid if and only if its findings pass and those counts fit. */
  lemma SealedVerifiesIff(lib: Library, inputs: Inputs, log: Log, state: State, quality: seq<Json>, report: Bytes)
    requires lib.Lawful() && LogOk(log) && Proper(inputs) && FiniteSources(state.sources) && AllFinite(quality)
    ensures Valid(Verify(lib, FilesOf(lib, SealedWith(lib, inputs, log, state, quality, report))))
       <==> QualityProblems(lib, Ordinals(log), quality) == {} && state.eventCount == state.lastOrdinal == |log|
  {
    hide Verify, FilesOf, QualityProblems, BoundaryProblems, Ordinals, SortedBoundary, LedgerDocuments, PolicyDocument,
         RunDocument, StateJson, StoredRows, Finite, FiniteSources, BoundaryOk, Unique, AllStorable, AllValid;
    var parts := SealedWith(lib, inputs, log, state, quality, report);
    BoundaryMembers(lib, inputs.boundary);
    BoundaryProblemsIff(lib, inputs.boundary);
    assert AllFinite(parts.boundary);
    SealedBundleVerifies(lib, inputs, log, state, quality, parts);
  }

  /** The findings of a ledger, as documents, are finite and pass. */
  lemma EvaluatedPass(lib: Library, policy: Policy, asOf: int, log: Log)
    requires lib.Lawful()
    ensures var quality := QualityDocuments(Evaluate(lib, policy, asOf, StoredRows(lib, log)));
            AllFinite(quality) && QualityProblems(lib, Ordinals(log), quality) == {}
  {
    hide Evaluate, StoredRows, Sealable, QualityDocuments, AllFinite, QualityProblems, Ordinals;
    var findings := Evaluate(lib, policy, asOf, StoredRows(lib, log));
    forall f | f in findings ensures Sealable(lib, log, f) {
      EvaluatedIsSealable(lib, policy, asOf, log, f);
    }
    QualityAgrees(lib, log, findings);
    QualityDocumentsFinite(lib, log, findings);
  }

  /** A state that counts a ledger's rows and knows none of its sources. */
  function Emptied(log: Log): State {
    State(|log|, |log|, map[])
  }

  lemma EmptiedIsForeign(lib: Library, log: Log)
    requires log != []
    ensures Emptied(log) != StateOf(lib, StoredRows(lib, log))
    ensures StateJson(Emptied(log)) != StateJson(StateOf(lib, StoredRows(lib, log)))
  {
    RowsGiveLog(lib, log);
    var sources := Sources(lib, log);
    assert log[|log| - 1].sourceId in sources;
    SourcesShow(Emptied(log), StateOf(lib, StoredRows(lib, log)));
  }

  /** Different source names give different state documents. */
  lemma SourcesShow(s: State, t: State)
    requires s.sources.Keys != t.sources.Keys
    ensures StateJson(s) != StateJson(t)
  {
    hide SourceJson;
    assert StateJson(s).fields["sources"].fields.Keys == s.sources.Keys;
    assert StateJson(t).fields["sources"].fields.Keys == t.sources.Keys;
  }

  /** For every ledger but the empty one there is a valid directory whose state is not the projection of its
      rows: sealed with no sources at all, it verifies, and its state file is not that of the replay. */
  lemma EmptiedStateVerifies(lib: Library, inputs: Inputs, log: Log, report: Bytes)
    requires lib.Lawful() && LogOk(log) && log != [] && Proper(inputs)
    ensures var quality := QualityDocuments(Evaluate(lib, inputs.policy, inputs.asOf.micros, StoredRows(lib, log)));
            var files := FilesOf(lib, SealedWith(lib, inputs, log, Emptied(log), quality, report));
            && Valid(Verify(lib, files))
            && files.Keys == Names(EXPECTED)
            && Content(files, StateFile) != lib.JsonLine(StateJson(StateOf(lib, StoredRows(lib, log))))
  {
    hide Verify, FilesOf, Evaluate, QualityDocuments, QualityProblems, Ordinals, StateOf, StateJson, StoredRows, LogOk,
         Proper, Finite, LedgerDocuments, PolicyDocument, RunDocument, AllFinite, SortedBoundary, Content;
    assert inputs.createdAt.Utc? && inputs.asOf.Utc? by { ProperIsUtc(inputs); }
    var quality := QualityDocuments(Evaluate(lib, inputs.policy, inputs.asOf.micros, StoredRows(lib, log)));
    var parts := SealedWith(lib, inputs, log, Emptied(log), quality, report);
    EvaluatedPass(lib, inputs.policy, inputs.asOf.micros, log);
    SealedVerifiesIff(lib, inputs, log, Emptied(log), quality, report);
    FilesHold(lib, parts, StateFile);
    EmptiedIsForeign(lib, log);
    StateFinite(Emptied(log));
    ReplayedStateFinite(lib, log);
    LinesDiffer(lib, StateJson(Emptied(log)), StateJson(StateOf(lib, StoredRows(lib, log))));
  }

  lemma ProperIsUtc(inputs: Inputs)
    requires Proper(inputs)
    ensures inputs.createdAt.Utc? && inputs.asOf.Utc?
  {
  }

  lemma LinesDiffer(lib: Library, a: Json, b: Json)
    requires lib.Lawful() && Finite(a) && Finite(b) && a != b
    ensures lib.JsonLine(a) != lib.JsonLine(b)
  {
    lib.DecodesBack(a);
    lib.DecodesBack(b);
  }

  // ---- References ----

  /** A finding document made to cite other references, under the digest of its new identity. */
  function Recited(lib: Library, d: Fields, ordinals: Json, events: Json): Fields {
    var e := d["ledger_ordinals" := ordinals]["event_ids" := events];
    e["finding_id" := Str(DocumentDigest(lib, e))]
  }

  lemma RecitedIs(lib: Library, d: Fields, ordinals: Json, events: Json)
    requires d.Keys == QUALITY_FIELDS && Finite(Obj(d)) && Finite(ordinals) && Finite(events)
    ensures var e := Recited(lib, d, ordinals, events);
            && e.Keys == QUALITY_FIELDS && Finite(Obj(e))
            && e["ledger_ordinals"] == ordinals && e["event_ids"] == events
            && e["finding_id"] == Str(DocumentDigest(lib, e))
  {
    hide IdentityDigest, IdentityDocument, Finite, DocumentDigest;
    var e := d["ledger_ordinals" := ordinals]["event_ids" := events];
    var id := Str(DocumentDigest(lib, e));
    UpdateFinite(d, "ledger_ordinals", ordinals);
    UpdateFinite(d["ledger_ordinals" := ordinals], "event_ids", events);
    assert Finite(id) by { TextFinite(DocumentDigest(lib, e)); }
    UpdateFinite(e, "finding_id", id);
    OwnDigest(lib, e, id);
  }

  lemma UpdateFinite(d: Fields, key: string, value: Json)
    requires Finite(Obj(d)) && Finite(value)
    ensures Finite(Obj(d[key := value]))
  {
  }

  lemma TextFinite(s: string)
    ensures Finite(Str(s))
  {
  }

  /** The digest of a finding document does not depend on the one it carries. */
  lemma OwnDigest(lib: Library, d: Fields, id: Json)
    ensures DocumentDigest(lib, d["finding_id" := id]) == DocumentDigest(lib, d)
  {
    hide IdentityDigest, IdentityDocument;
    var e := d["finding_id" := id];
    assert Get(e, "code") == Get(d, "code") && Get(e, "event_ids") == Get(d, "event_ids");
    assert Get(e, "evidence") == Get(d, "evidence") && Get(e, "ledger_ordinals") == Get(d, "ledger_ordinals");
    assert Get(e, "rule_id") == Get(d, "rule_id") && Get(e, "rule_version") == Get(d, "rule_version");
    assert Get(e, "source_id") == Get(d, "source_id");
  }

  const UNSUPPORTED := Finding("", DelayedArrival, "", [], [], map[])

  /** A finding document that cites one ordinal with a null event. */
  function NullFields(lib: Library, ordinal: nat): Fields {
    Recited(lib, QualityDocument(UNSUPPORTED).fields, Arr([Int(ordinal)]), Arr([Null]))
  }

  lemma NullFieldsAre(lib: Library, ordinal: nat)
    ensures var d := NullFields(lib, ordinal);
            && d.Keys == QUALITY_FIELDS && Finite(Obj(d))
            && d["ledger_ordinals"] == Arr([Int(ordinal)]) && d["event_ids"] == Arr([Null])
            && d["finding_id"] == Str(DocumentDigest(lib, d))
  {
    hide QualityDocument, Recited, DocumentDigest;
    QualityFields(UNSUPPORTED);
    QualityDocumentFinite(UNSUPPORTED);
    RecitedIs(lib, QualityDocument(UNSUPPORTED).fields, Arr([Int(ordinal)]), Arr([Null]));
  }

  /** An ordinal that no sealed row has may be cited, as long as the event cited with it is null. */
  lemma NullReferencePasses(ordinals: map<int, string>, n: int)
    ensures MatchPairs(ordinals, [Int(n)], [Null]) == Matched <==> n !in ordinals
  {
    ReferencesPassIff(ordinals, [Int(n)], [Null]);
  }

  lemma NullFindingPasses(lib: Library, ordinals: map<int, string>, ordinal: nat)
    requires ordinal !in ordinals
    ensures FindingProblems(lib, ordinals, Obj(NullFields(lib, ordinal))) == {}
  {
    hide NullFields, DocumentDigest, MatchPairs;
    NullFieldsAre(lib, ordinal);
    NullReferencePasses(ordinals, ordinal);
  }

  /** For every ledger there is a valid directory, with the replayed state, one of whose findings cites the
      ordinal after the last row, with a null event. */
  lemma NullReferenceVerifies(lib: Library, inputs: Inputs, log: Log, report: Bytes)
    requires lib.Lawful() && LogOk(log) && Proper(inputs)
    ensures var d := NullFields(lib, |log| + 1);
            && d.Keys == QUALITY_FIELDS
            && d["ledger_ordinals"] == Arr([Int(|log| + 1)]) && d["event_ids"] == Arr([Null])
            && Valid(Verify(lib,
                            FilesOf(lib,
                                    SealedWith(lib, inputs, log, StateOf(lib, StoredRows(lib, log)), [Obj(d)],
                                               report))))
  {
    hide Verify, FilesOf, StateOf, StateJson, StoredRows, Proper, Finite, NullFields, FindingProblems, LogOk,
         SealedWith;
    assert inputs.createdAt.Utc? && inputs.asOf.Utc? by { ProperIsUtc(inputs); }
    var d := NullFields(lib, |log| + 1);
    NullFieldsAre(lib, |log| + 1);
    assert |log| + 1 !in Ordinals(log);
    NullFindingPasses(lib, Ordinals(log), |log| + 1);
    ReplayedSources(lib, log);
    SealedVerifiesIff(lib, inputs, log, StateOf(lib, StoredRows(lib, log)), [Obj(d)], report);
  }

  /** A sealed ledger document with this ordinal and this event identity. */
  predicate CitesRow(lib: Library, documents: seq<Json>, ordinal: Json, eventId: Json)
    requires LedgerOk(lib, documents)
  {
    exists k | 0 <= k < |documents| ::
      Key(ordinal) == Some(OrdinalOf(lib, documents[k])) && eventId == Str(EventOf(lib, documents[k]).eventId)
  }

  /** Every pair a finding document cites is a sealed row. */
  ghost predicate Resolved(lib: Library, documents: seq<Json>, d: Json)
    requires LedgerOk(lib, documents)
  {
    && d.Obj?
    && var xs, ys := Items(Get(d.fields, "ledger_ordinals")), Items(Get(d.fields, "event_ids"));
       && xs.Some? && ys.Some? && |xs.value| == |ys.value|
       && forall i | 0 <= i < |xs.value| :: CitesRow(lib, documents, xs.value[i], ys.value[i])
  }

  /** No event a finding document cites is null. */
  predicate NamesEvents(d: Json) {
    && d.Obj?
    && var ys := Items(Get(d.fields, "event_ids"));
       ys.Some? && forall i | 0 <= i < |ys.value| :: ys.value[i] != Null
  }

  lemma ReferenceIsRow(lib: Library, documents: seq<Json>, ordinals: map<int, string>, x: Json, y: Json)
    requires LedgerOk(lib, documents) && Indexes(lib, documents, ordinals) && Refers(ordinals, x, y)
    ensures CitesRow(lib, documents, x, y) <==> y != Null
  {
    hide DocumentOk, OrdinalOf, EventOf, Key;
    if y != Null {
      var n := Key(x).value;
      var k :| 0 <= k < |documents| && OrdinalOf(lib, documents[k]) == n;
    }
  }

  lemma FindingResolvedIff(lib: Library, documents: seq<Json>, ordinals: map<int, string>, d: Json)
    requires LedgerOk(lib, documents) && Indexes(lib, documents, ordinals) && FindingOk(lib, ordinals, d)
    ensures Resolved(lib, documents, d) <==> NamesEvents(d)
  {
    hide LedgerOk, Indexes, CitesRow, Refers, Items, DocumentDigest;
    var xs, ys := Items(d.fields["ledger_ordinals"]).value, Items(d.fields["event_ids"]).value;
    forall i | 0 <= i < |xs| ensures CitesRow(lib, documents, xs[i], ys[i]) <==> ys[i] != Null {
      ReferenceIsRow(lib, documents, ordinals, xs[i], ys[i]);
    }
  }

  /** In every valid directory, all the pairs its findings cite are sealed rows if and only if no event they
      cite is null. */
  lemma CitationsResolveIff(lib: Library, files: Files, d: Documents)
    ensures Whole(lib, files, d) ==>
              && LedgerOk(lib, d.ledger)
              && ((forall f | f in d.quality :: Resolved(lib, d.ledger, f))
                  <==> (forall f | f in d.quality :: NamesEvents(f)))
  {
    hide LedgerOk, Indexes, FindingOk, Resolved, NamesEvents, CheckDocuments, ManifestOk, StateOk, RunOk, PolicyFileOk,
         Writes;
    if Whole(lib, files, d) {
      LedgerOkIff(lib, d.ledger);
      forall f | f in d.quality ensures Resolved(lib, d.ledger, f) <==> NamesEvents(f) {
        FindingResolvedIff(lib, d.ledger, CheckDocuments(lib, d.ledger).ordinals, f);
      }
    }
  }
}
