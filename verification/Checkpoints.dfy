/** Checkpoints of a projection: `src/edge_evidence/checkpoint.py`. */
module Checkpoints {
  import opened Wrappers
  import opened JsonValues
  import opened Libraries
  import opened Events
  import opened Logs
  import opened Ledgers
  import opened Projection

  const CHECKPOINT_VERSION := "1.0"

  const CHECKPOINT_FIELDS := {"checkpoint_version", "last_ordinal", "projector_version", "state", "state_sha256"}

  /** `ProjectionResult`: a state document, its canonical bytes and their digest. */
  datatype ProjectionResult = ProjectionResult(state: Json, canonicalJson: Bytes, stateSha256: string)

  /** The codes of `CheckpointError`, and the exceptions that are not caught as one. */
  datatype CheckpointError =
    | Unreadable
    | InvalidStructure
    | UnsupportedCheckpointVersion
    | UnsupportedProjector
    | InvalidState
    | ProjectorMismatch
    | OrdinalMismatch
    | DigestMismatch
    | Uncaught

  function SourceJson(s: SourceState): Json {
    Obj(map[
      "event_count" := Int(s.eventCount),
      "latest_event_id" := Str(s.latestEventId),
      "latest_event_type" := Str(s.latestEventType),
      "latest_ingested_at" := Str(s.latestIngestedAt),
      "latest_observed_at" := Str(s.latestObservedAt),
      "latest_payload" := Obj(s.latestPayload),
      "latest_source_sequence" := Int(s.latestSequence)
    ])
  }

  /** The state dictionary of `project_events`. */
  function StateJson(s: State): Json {
    Obj(map[
      "event_count" := Int(s.eventCount),
      "last_ordinal" := Int(s.lastOrdinal),
      "projector_version" := Str(PROJECTOR_VERSION),
      "sources" := Obj(map source | source in s.sources :: SourceJson(s.sources[source]))
    ])
  }

  function ResultFor(lib: Library, state: Json): ProjectionResult {
    ProjectionResult(state, lib.encode(state), lib.sha256(lib.encode(state)))
  }

  /** `checkpoint_mapping`. */
  function CheckpointMapping(r: ProjectionResult): Json
    requires r.state.Obj? && {"last_ordinal", "projector_version"} <= r.state.fields.Keys
  {
    Obj(map[
      "checkpoint_version" := Str(CHECKPOINT_VERSION),
      "last_ordinal" := r.state.fields["last_ordinal"],
      "projector_version" := r.state.fields["projector_version"],
      "state" := r.state,
      "state_sha256" := Str(r.stateSha256)
    ])
  }

  /** The checks of `load_checkpoint` on a parsed document, in order. */
  function LoadDocument(lib: Library, document: Json): Result<ProjectionResult, CheckpointError> {
    if !document.Obj? || document.fields.Keys != CHECKPOINT_FIELDS then Err(InvalidStructure)
    else
      var d := document.fields;
      if d["checkpoint_version"] != Str(CHECKPOINT_VERSION) then Err(UnsupportedCheckpointVersion)
      else if d["projector_version"] != Str(PROJECTOR_VERSION) then Err(UnsupportedProjector)
      else if !d["state"].Obj? then Err(InvalidState)
      else
        var state := d["state"];
        if !PyEqual(Get(state.fields, "projector_version"), d["projector_version"]) then Err(ProjectorMismatch)
        else if !PyEqual(Get(state.fields, "last_ordinal"), d["last_ordinal"]) then Err(OrdinalMismatch)
        else if !Finite(state) then Err(Uncaught)
        else if d["state_sha256"] != Str(lib.sha256(lib.encode(state))) then Err(DigestMismatch)
        else Ok(ResultFor(lib, state))
  }

  /** `load_checkpoint`. */
  function LoadCheckpoint(lib: Library, content: Bytes): Result<ProjectionResult, CheckpointError> {
    match lib.loads(content)
    case Malformed => Err(Unreadable)
    case Undecodable => Err(Uncaught)
    case Value(document) => LoadDocument(lib, document)
  }

  /** The bytes `write_checkpoint` writes. */
  function CheckpointBytes(lib: Library, document: Json): Bytes {
    lib.pretty(document) + [LF]
  }

  ghost predicate FiniteSources(sources: map<string, SourceState>) {
    forall source | source in sources :: Finite(Obj(sources[source].latestPayload))
  }

  lemma {:induction false} SourcesFinite(lib: Library, events: seq<Event>)
    requires AllValid(events)
    ensures FiniteSources(Sources(lib, events))
  {
    if events != [] {
      hide Absorb, ValidEvent, FiniteSources;
      assert events[|events| - 1] in events;
      SourcesFinite(lib, events[..|events| - 1]);
      AbsorbFinite(lib, Sources(lib, events[..|events| - 1]), events[|events| - 1]);
    } else {
      assert FiniteSources(map[]);
    }
  }

  lemma AbsorbFinite(lib: Library, sources: map<string, SourceState>, e: Event)
    requires FiniteSources(sources) && ValidEvent(e)
    ensures FiniteSources(Absorb(lib, sources, e))
  {
  }

  lemma StateFinite(s: State)
    requires FiniteSources(s.sources)
    ensures Finite(StateJson(s))
  {
    hide SourceJson;
    forall source | source in s.sources ensures Finite(SourceJson(s.sources[source])) {
      SourceFinite(s.sources[source]);
    }
    var sources := map source | source in s.sources :: SourceJson(s.sources[source]);
    assert Finite(Obj(sources));
  }

  lemma SourceFinite(s: SourceState)
    requires Finite(Obj(s.latestPayload))
    ensures Finite(SourceJson(s))
  {
  }

  lemma ReplayedStateFinite(lib: Library, log: Log)
    requires LogOk(log)
    ensures Finite(StateJson(StateOf(lib, StoredRows(lib, log))))
  {
    RowsGiveLog(lib, log);
    SourcesFinite(lib, log);
    StateFinite(StateOf(lib, StoredRows(lib, log)));
  }

  // ---- What a replayed state document says ----

  /** Text that reads as this moment. */
  predicate ReadsAs(lib: Library, j: Json, t: int) {
    j.Str? && lib.parseUtc(j.s) == Ok(t)
  }

  const SOURCE_KEYS := {
    "event_count", "latest_event_id", "latest_event_type", "latest_ingested_at", "latest_observed_at",
    "latest_payload", "latest_source_sequence"
  }

  /** The entry of a source: how many events, and each value of the latest. */
  ghost predicate SourceTells(lib: Library, log: Log, source: string, d: Json) {
    && d.Obj? && d.fields.Keys == SOURCE_KEYS
    && d.fields["event_count"] == Int(|OfSource(log, source)|)
    && exists e :: IsLatest(log, e) && e.sourceId == source && LatestTells(lib, d.fields, e)
  }

  predicate LatestTells(lib: Library, d: Fields, e: Event)
    requires d.Keys == SOURCE_KEYS
  {
    && d["latest_event_id"] == Str(e.eventId) && d["latest_event_type"] == Str(e.eventType)
    && ReadsAs(lib, d["latest_observed_at"], e.observedAt) && ReadsAs(lib, d["latest_ingested_at"], e.ingestedAt)
    && d["latest_payload"] == Obj(e.payload) && d["latest_source_sequence"] == Int(e.sourceSequence)
  }

  ghost predicate StateTells(lib: Library, log: Log, j: Json) {
    && j.Obj? && j.fields.Keys == {"event_count", "last_ordinal", "projector_version", "sources"}
    && j.fields["event_count"] == j.fields["last_ordinal"] == Int(|log|)
    && j.fields["projector_version"] == Str("1.0")
    && j.fields["sources"].Obj?
    && j.fields["sources"].fields.Keys == (set e | e in log :: e.sourceId)
    && forall source | source in j.fields["sources"].fields.Keys ::
         SourceTells(lib, log, source, j.fields["sources"].fields[source])
  }

  /** The replayed state document counts the ledger's rows, has one entry per source, and shows in it the
      number of the source's events and its event of greatest sequence, times as text that reads back. */
  lemma ReplayTells(lib: Library, log: Log)
    requires lib.Lawful() && LogOk(log)
    ensures StateTells(lib, log, StateJson(StateOf(lib, StoredRows(lib, log))))
  {
    hide Sources, SourceJson, SourceTells, Summarises, AllValid, AllStorable, Unique;
    UseLogOk(log);
    StateOfRows(lib, log);
    SourcesSummarise(lib, log);
    var state := StateOf(lib, StoredRows(lib, log));
    StateDocumentKeys(state);
    var sources := StateJson(state).fields["sources"].fields;
    forall source | source in sources.Keys
      ensures source in (set e | e in log :: e.sourceId) && SourceTells(lib, log, source, sources[source])
    {
      SummarisedHasEvent(lib, log, source, state.sources[source]);
      SourceDocumentTells(lib, log, source, state.sources[source]);
    }
  }

  lemma StateDocumentKeys(s: State)
    ensures StateJson(s).Obj?
    ensures var d := StateJson(s).fields;
            && d.Keys == {"event_count", "last_ordinal", "projector_version", "sources"}
            && d["event_count"] == Int(s.eventCount) && d["last_ordinal"] == Int(s.lastOrdinal)
            && d["projector_version"] == Str("1.0")
            && d["sources"].Obj? && d["sources"].fields.Keys == s.sources.Keys
            && forall source | source in s.sources :: d["sources"].fields[source] == SourceJson(s.sources[source])
  {
    hide SourceJson;
  }

  lemma SourceDocumentTells(lib: Library, log: Log, source: string, state: SourceState)
    requires lib.Lawful() && Summarises(lib, log, source, state)
    ensures SourceTells(lib, log, source, SourceJson(state))
  {
    hide OfSource, IsLatest;
    var e :| IsLatest(log, e) && e.sourceId == source && Shows(lib, state, |OfSource(log, source)|, e);
    SourceKeys(state);
    lib.TimeRoundTrip(e.observedAt);
    lib.TimeRoundTrip(e.ingestedAt);
    assert LatestTells(lib, SourceJson(state).fields, e);
  }

  lemma SourceKeys(s: SourceState)
    ensures SourceJson(s).Obj? && SourceJson(s).fields.Keys == SOURCE_KEYS
    ensures var d := SourceJson(s).fields;
            && d["event_count"] == Int(s.eventCount) && d["latest_event_id"] == Str(s.latestEventId)
            && d["latest_event_type"] == Str(s.latestEventType) && d["latest_ingested_at"] == Str(s.latestIngestedAt)
            && d["latest_observed_at"] == Str(s.latestObservedAt) && d["latest_payload"] == Obj(s.latestPayload)
            && d["latest_source_sequence"] == Int(s.latestSequence)
  {
  }

  // ---- Which documents are accepted ----

  /** A checkpoint document of this version whose state agrees with it on the projector and the last ordinal
      and has the digest it gives. */
  ghost predicate Accepted(lib: Library, document: Json) {
    && document.Obj?
    && document.fields.Keys == {"checkpoint_version", "last_ordinal", "projector_version", "state", "state_sha256"}
    && var d := document.fields;
       && d["checkpoint_version"] == Str("1.0") && d["projector_version"] == Str("1.0")
       && d["state"].Obj? && Finite(d["state"])
       && var state := d["state"].fields;
          && "projector_version" in state && state["projector_version"] == Str("1.0")
          && (if "last_ordinal" in state then Alike(state["last_ordinal"], d["last_ordinal"])
              else d["last_ordinal"] == Null)
          && d["state_sha256"] == Str(lib.sha256(lib.encode(d["state"])))
  }

  /** A document loads if and only if it is such a checkpoint, and then as its state, its canonical text and
      the digest it gives. */
  lemma LoadsIff(lib: Library, document: Json)
    ensures LoadDocument(lib, document).Ok? <==> Accepted(lib, document)
    ensures var loaded := LoadDocument(lib, document);
            loaded.Ok? ==>
              && loaded.value.state == document.fields["state"]
              && loaded.value.canonicalJson == lib.encode(loaded.value.state)
              && document.fields["state_sha256"] == Str(loaded.value.stateSha256)
  {
    hide Finite;
    if document.Obj? && document.fields.Keys == CHECKPOINT_FIELDS && document.fields["state"].Obj? {
      var d, state := document.fields, document.fields["state"].fields;
      PyEqualIsAlike(Get(state, "projector_version"), d["projector_version"]);
      PyEqualIsAlike(Get(state, "last_ordinal"), d["last_ordinal"]);
    }
  }

  /** One check of the loader: whether the document fails it, and the error that says so. */
  datatype Check = Check(fails: bool, error: CheckpointError)

  /** The checks of a document of the right structure, in order. */
  ghost function Checks(lib: Library, d: Fields): seq<Check>
    requires d.Keys == CHECKPOINT_FIELDS
  {
    var state := if d["state"].Obj? then d["state"].fields else map[];
    [
      Check(d["checkpoint_version"] != Str("1.0"), UnsupportedCheckpointVersion),
      Check(d["projector_version"] != Str("1.0"), UnsupportedProjector),
      Check(!d["state"].Obj?, InvalidState),
      Check(!Alike(Get(state, "projector_version"), d["projector_version"]), ProjectorMismatch),
      Check(!Alike(Get(state, "last_ordinal"), d["last_ordinal"]), OrdinalMismatch),
      Check(!Finite(d["state"]), Uncaught),
      Check(d["state_sha256"] != Str(lib.sha256(lib.encode(d["state"]))), DigestMismatch)
    ]
  }

  /** The first check that fails decides the error. */
  lemma FirstFailureDecides(lib: Library, d: Fields, k: nat)
    requires d.Keys == CHECKPOINT_FIELDS
    requires k < |Checks(lib, d)| && Checks(lib, d)[k].fails && forall i | 0 <= i < k :: !Checks(lib, d)[i].fails
    ensures LoadDocument(lib, Obj(d)) == Err(Checks(lib, d)[k].error)
  {
    hide Finite;
    var checks := Checks(lib, d);
    if d["state"].Obj? {
      PyEqualIsAlike(Get(d["state"].fields, "projector_version"), d["projector_version"]);
      PyEqualIsAlike(Get(d["state"].fields, "last_ordinal"), d["last_ordinal"]);
    }
    assert (k > 0 ==> !checks[0].fails) && (k > 1 ==> !checks[1].fails) && (k > 2 ==> !checks[2].fails);
    assert (k > 3 ==> !checks[3].fails) && (k > 4 ==> !checks[4].fails) && (k > 5 ==> !checks[5].fails);
  }

  /** Loading what was written returns the very same projection result, for every ledger. */
  lemma CheckpointRoundTrip(lib: Library, log: Log)
    requires lib.Lawful() && LogOk(log)
    ensures var result := ResultFor(lib, StateJson(StateOf(lib, StoredRows(lib, log))));
            LoadCheckpoint(lib, CheckpointBytes(lib, CheckpointMapping(result))) == Ok(result)
  {
    hide LogOk, StateOf;
    var s := StateOf(lib, StoredRows(lib, log));
    ReplayedStateFinite(lib, log);
    WrittenDocumentLoads(lib, s);
  }

  lemma WrittenDocumentLoads(lib: Library, s: State)
    requires lib.Lawful() && Finite(StateJson(s))
    ensures var result := ResultFor(lib, StateJson(s));
            LoadCheckpoint(lib, CheckpointBytes(lib, CheckpointMapping(result))) == Ok(result)
  {
    hide StateJson;
    var result := ResultFor(lib, StateJson(s));
    StateKeys(s);
    var document := CheckpointMapping(result);
    MappingKeys(result);
    lib.DecodesBack(document);
  }

  lemma MappingKeys(r: ProjectionResult)
    requires r.state.Obj? && {"last_ordinal", "projector_version"} <= r.state.fields.Keys && Finite(r.state)
    ensures CheckpointMapping(r).Obj? && CheckpointMapping(r).fields.Keys == CHECKPOINT_FIELDS
            && Finite(CheckpointMapping(r))
  {
    assert Finite(r.state.fields["last_ordinal"]) && Finite(r.state.fields["projector_version"]);
  }

  lemma StateKeys(s: State)
    ensures StateJson(s).Obj? && {"last_ordinal", "projector_version"} <= StateJson(s).fields.Keys
    ensures StateJson(s).fields["last_ordinal"] == Int(s.lastOrdinal)
    ensures StateJson(s).fields["projector_version"] == Str(PROJECTOR_VERSION)
  {
    hide SourceJson;
  }

  /** Two accepted documents with one state digest carry one state, absent a hash collision between
      their states, and differ at most in how the last ordinal is spelled. */
  lemma AcceptedDocumentsAgree(lib: Library, a: Json, b: Json)
    requires lib.Lawful() && LoadDocument(lib, a).Ok? && LoadDocument(lib, b).Ok?
    requires a.fields["state_sha256"] == b.fields["state_sha256"]
    requires NoCollision(lib, iset{lib.encode(a.fields["state"]), lib.encode(b.fields["state"])})
    ensures LoadDocument(lib, a) == LoadDocument(lib, b)
    ensures PyEqual(a.fields["last_ordinal"], b.fields["last_ordinal"])
    ensures a == b <==> a.fields["last_ordinal"] == b.fields["last_ordinal"]
  {
    var x, y := a.fields["state"], b.fields["state"];
    assert lib.encode(x) == lib.encode(y);
    lib.EncodeInjective(x, y);
    if a.fields["last_ordinal"] == b.fields["last_ordinal"] {
      SameDocuments(a.fields, b.fields);
    }
  }

  lemma SameDocuments(a: Fields, b: Fields)
    requires a.Keys == b.Keys == CHECKPOINT_FIELDS
    requires a["checkpoint_version"] == b["checkpoint_version"] && a["last_ordinal"] == b["last_ordinal"]
    requires a["projector_version"] == b["projector_version"] && a["state"] == b["state"]
    requires a["state_sha256"] == b["state_sha256"]
    ensures a == b
  {
  }

  /** They can differ: an accepted checkpoint is also accepted with its last ordinal as a float, so
      the document itself is not determined by its digest. */
  lemma RespelledOrdinalAccepted(lib: Library, a: Json)
    requires LoadDocument(lib, a).Ok? && a.fields["last_ordinal"].Int?
    ensures var b := Obj(a.fields["last_ordinal" := Float(a.fields["last_ordinal"].n, 0)]);
            b != a && LoadDocument(lib, b) == LoadDocument(lib, a)
  {
    var d := a.fields["last_ordinal" := Float(a.fields["last_ordinal"].n, 0)];
    assert d.Keys == CHECKPOINT_FIELDS;
    assert d["last_ordinal"] != a.fields["last_ordinal"];
  }
}
