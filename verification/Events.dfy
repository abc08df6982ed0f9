/** The canonical event contract: `src/edge_evidence/event.py`. */
module Events {
  import opened Wrappers
  import opened JsonValues
  import opened Libraries
  import Text

  const SCHEMA_VERSION := "1.0"

  const FIELDS := {
    "event_id", "event_type", "ingested_at", "metadata", "observed_at",
    "payload", "schema_version", "source_id", "source_sequence"
  }

  datatype Event = Event(
    eventId: string,
    sourceId: string,
    sourceSequence: int,
    eventType: string,
    observedAt: int,
    ingestedAt: int,
    payload: Fields,
    metadata: Fields
  )

  /** `EventValidationError`: the stable reason and the field it names. */
  datatype Rejection = Rejection(code: string, field: string)

  predicate IdentifierStart(c: char) {
    'a' <= c <= 'z' || '0' <= c <= '9'
  }

  predicate IdentifierChar(c: char) {
    IdentifierStart(c) || c in "._:-"
  }

  /** The identifier pattern, matched in full. */
  predicate Identifier(s: string) {
    && 1 <= |s| <= 128
    && IdentifierStart(s[0])
    && forall i | 1 <= i < |s| :: IdentifierChar(s[i])
  }

  /** What every event built by `FromMapping` satisfies. */
  predicate ValidEvent(e: Event) {
    && Identifier(e.eventId) && Identifier(e.sourceId) && Identifier(e.eventType)
    && e.sourceSequence >= 0
    && Finite(Obj(e.payload)) && Finite(Obj(e.metadata))
    && e.observedAt <= e.ingestedAt
  }

  function ParseUtc(lib: Library, value: Json, field: string): Result<int, Rejection> {
    if !value.Str? then Err(Rejection("invalid_type", field))
    else match lib.parseUtc(value.s)
      case Ok(t) => Ok(t)
      case Err(code) => Err(Rejection(code, field))
  }

  /** The identifier fields, in the order they are checked. */
  function IdentifierFault(fields: Fields): Option<string>
    requires FIELDS <= fields.Keys
  {
    if !IdentifierValue(fields["event_id"]) then Some("event_id")
    else if !IdentifierValue(fields["source_id"]) then Some("source_id")
    else if !IdentifierValue(fields["event_type"]) then Some("event_type")
    else None
  }

  predicate IdentifierValue(j: Json) {
    j.Str? && Identifier(j.s)
  }

  function ObjectFault(j: Json, field: string): Option<Rejection> {
    if !j.Obj? then Some(Rejection("invalid_type", field))
    else if !Finite(j) then Some(Rejection("non_finite_number", field))
    else None
  }

  /** `CanonicalEvent.from_mapping`. */
  function FromMapping(lib: Library, record: Json): Result<Event, Rejection> {
    if !record.Obj? then Err(Rejection("invalid_record", "$"))
    else
      var fields := record.fields;
      if FIELDS - fields.Keys != {} then
        Err(Rejection("missing_field", Text.Sorted(FIELDS - fields.Keys)[0]))
      else if fields.Keys - FIELDS != {} then
        Err(Rejection("unknown_field", Text.Sorted(fields.Keys - FIELDS)[0]))
      else FromFields(lib, fields)
  }

  function FromFields(lib: Library, fields: Fields): Result<Event, Rejection>
    requires fields.Keys == FIELDS
  {
    if fields["schema_version"] != Str(SCHEMA_VERSION) then
      Err(Rejection("unsupported_schema_version", "schema_version"))
    else if IdentifierFault(fields).Some? then
      Err(Rejection("invalid_identifier", IdentifierFault(fields).value))
    else if !fields["source_sequence"].Int? || fields["source_sequence"].n < 0 then
      Err(Rejection("invalid_source_sequence", "source_sequence"))
    else if ObjectFault(fields["payload"], "payload").Some? then
      Err(ObjectFault(fields["payload"], "payload").value)
    else if ObjectFault(fields["metadata"], "metadata").Some? then
      Err(ObjectFault(fields["metadata"], "metadata").value)
    else
      match ParseUtc(lib, fields["observed_at"], "observed_at")
      case Err(rejection) => Err(rejection)
      case Ok(observed) =>
        match ParseUtc(lib, fields["ingested_at"], "ingested_at")
        case Err(rejection) => Err(rejection)
        case Ok(ingested) =>
          if ingested < observed then Err(Rejection("ingestion_before_observation", "ingested_at"))
          else Ok(Event(
                 fields["event_id"].s, fields["source_id"].s, fields["source_sequence"].n,
                 fields["event_type"].s, observed, ingested,
                 fields["payload"].fields, fields["metadata"].fields))
  }

  /** `CanonicalEvent.to_mapping`. */
  function ToFields(lib: Library, e: Event): Fields {
    map[
      "event_id" := Str(e.eventId),
      "event_type" := Str(e.eventType),
      "ingested_at" := Str(lib.formatUtc(e.ingestedAt)),
      "metadata" := Obj(e.metadata),
      "observed_at" := Str(lib.formatUtc(e.observedAt)),
      "payload" := Obj(e.payload),
      "schema_version" := Str(SCHEMA_VERSION),
      "source_id" := Str(e.sourceId),
      "source_sequence" := Int(e.sourceSequence)
    ]
  }

  function ToMapping(lib: Library, e: Event): Json {
    Obj(ToFields(lib, e))
  }

  /** `canonical_json`, as UTF-8 bytes. */
  function Canonical(lib: Library, e: Event): Bytes {
    lib.encode(ToMapping(lib, e))
  }

  /** Whatever the record, an accepted one yields a valid event. */
  lemma AcceptedIsValid(lib: Library, record: Json)
    requires FromMapping(lib, record).Ok?
    ensures ValidEvent(FromMapping(lib, record).value)
  {
    assert FromFields(lib, record.fields).Ok?;
  }

  const TIMESTAMPS := {"observed_at", "ingested_at"}

  /** Acceptance keeps the record: mapping the event back gives the same document but for the
      rendering of the two timestamps, which were read from it. */
  lemma AcceptedIsKept(lib: Library, record: Json)
    requires FromMapping(lib, record).Ok?
    ensures record.Obj? && record.fields.Keys == FIELDS
    ensures var e := FromMapping(lib, record).value;
            && ToFields(lib, e) - TIMESTAMPS == record.fields - TIMESTAMPS
            && ParseUtc(lib, record.fields["observed_at"], "observed_at") == Ok(e.observedAt)
            && ParseUtc(lib, record.fields["ingested_at"], "ingested_at") == Ok(e.ingestedAt)
  {
    var e := FromMapping(lib, record).value;
    assert FIELDS - record.fields.Keys == {} && record.fields.Keys - FIELDS == {};
    KeptFields(lib, record.fields, e);
  }

  lemma KeptFields(lib: Library, fields: Fields, e: Event)
    requires fields.Keys == FIELDS && FromFields(lib, fields) == Ok(e)
    ensures ToFields(lib, e) - TIMESTAMPS == fields - TIMESTAMPS
  {
    var back := ToFields(lib, e);
    ToFieldsKeys(lib, e);
    assert back["event_id"] == fields["event_id"];
    assert back["source_id"] == fields["source_id"];
    assert back["event_type"] == fields["event_type"];
    assert back["source_sequence"] == fields["source_sequence"];
    assert back["payload"] == fields["payload"];
    assert back["metadata"] == fields["metadata"];
  }

  lemma ToFieldsKeys(lib: Library, e: Event)
    ensures ToFields(lib, e).Keys == FIELDS
  {
  }

  lemma FieldsRoundTrip(lib: Library, e: Event)
    requires lib.Lawful() && ValidEvent(e) && ToFields(lib, e).Keys == FIELDS
    ensures FromFields(lib, ToFields(lib, e)) == Ok(e)
  {
    lib.TimeRoundTrip(e.observedAt);
    lib.TimeRoundTrip(e.ingestedAt);
    var fields := ToFields(lib, e);
    assert ObjectFault(fields["payload"], "payload").None?;
    assert ObjectFault(fields["metadata"], "metadata").None?;
    assert IdentifierFault(fields).None?;
  }

  /** Mapping a valid event out and back is the identity. */
  lemma MappingRoundTrip(lib: Library, e: Event)
    requires lib.Lawful() && ValidEvent(e)
    ensures FromMapping(lib, ToMapping(lib, e)) == Ok(e)
  {
    ToFieldsKeys(lib, e);
    FieldsRoundTrip(lib, e);
    var fields := ToFields(lib, e);
    assert FIELDS - fields.Keys == {} && fields.Keys - FIELDS == {};
  }

  lemma MappingFinite(lib: Library, e: Event)
    requires ValidEvent(e)
    ensures Finite(ToMapping(lib, e))
  {
  }

  /** Canonical text identifies a valid event. */
  lemma CanonicalInjective(lib: Library, a: Event, b: Event)
    requires lib.Lawful() && ValidEvent(a) && ValidEvent(b)
    ensures Canonical(lib, a) == Canonical(lib, b) <==> a == b
  {
    MappingFinite(lib, a);
    MappingFinite(lib, b);
    if Canonical(lib, a) == Canonical(lib, b) {
      lib.EncodeInjective(ToMapping(lib, a), ToMapping(lib, b));
      MappingRoundTrip(lib, a);
      MappingRoundTrip(lib, b);
    }
  }

  /** The stored text of a valid event loads back as that event. */
  lemma CanonicalLoads(lib: Library, e: Event)
    requires lib.Lawful() && ValidEvent(e)
    ensures lib.loads(Canonical(lib, e)) == Value(ToMapping(lib, e))
    ensures FromMapping(lib, ToMapping(lib, e)) == Ok(e)
  {
    MappingFinite(lib, e);
    lib.DecodesBack(ToMapping(lib, e));
    MappingRoundTrip(lib, e);
  }
}
