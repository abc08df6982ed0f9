/** The historical import: `src/edge_evidence/historical.py`. */
module Historical {
  import opened Wrappers
  import opened JsonValues
  import opened Libraries
  import opened Events
  import opened Logs
  import opened Ledgers
  import opened Projection
  import opened Checkpoints

  const IMPORT_VERSION := "1.0"

  const PRIMARY_FIELDS := {"event_id", "quality", "schema_version", "sensor", "signal", "source", "ts"}
  const CONTROL_FIELDS := {"event_id", "signal", "source", "ts_utc", "type"}

  /** The import's explicit inputs, as its constructor accepts them. */
  datatype Config = Config(key: Bytes, importedAt: Instant, archiveSha256: string)

  function ConfigError(key: Bytes, importedAt: Instant, archiveSha256: string): Option<string> {
    if |key| < 16 then Some("pseudonym_key must contain at least 16 bytes")
    else if !importedAt.Utc? then Some("imported_at must use UTC")
    else if !HexDigest(archiveSha256) then Some("archive_sha256 must be 64 lowercase hex characters")
    else None
  }

  predicate ConfigOk(c: Config) {
    ConfigError(c.key, c.importedAt, c.archiveSha256).None?
  }

  /** `bytes.splitlines()`: the lines without their ends. */
  function LinesOf(content: Bytes): seq<Bytes> {
    var lines := SplitBytes(content);
    seq(|lines|, i requires 0 <= i < |lines| => StripEnd(lines[i]))
  }

  function StripEnd(line: Bytes): Bytes {
    if line != [] && line[|line| - 1] == LF then
      (if |line| > 1 && line[|line| - 2] == CR then line[..|line| - 2] else line[..|line| - 1])
    else if line != [] && line[|line| - 1] == CR then line[..|line| - 1]
    else line
  }

  datatype Shape = Primary | Control

  function FormatName(shape: Shape): string {
    if shape.Primary? then "primary-v1" else "control-v1"
  }

  function TimestampField(shape: Shape): string {
    if shape.Primary? then "ts" else "ts_utc"
  }

  /** The field that names both the event type and the channel. */
  function TypeField(shape: Shape): string {
    if shape.Primary? then "sensor" else "type"
  }

  /** `_shape`. */
  function ShapeOf(record: Fields): (shape: Option<Shape>)
    ensures shape.Some? ==>
            {"event_id", "source", "signal", TimestampField(shape.value), TypeField(shape.value)} <= record.Keys
  {
    if record.Keys == PRIMARY_FIELDS then Some(Primary)
    else if record.Keys == CONTROL_FIELDS then Some(Control)
    else None
  }

  /** `_pseudonym`: a prefix and the first 32 digits of a keyed digest. */
  function Pseudonym(lib: Library, key: Bytes, prefix: string, value: string): string {
    var digest := lib.hmac(key, value);
    prefix + "-" + (if |digest| <= 32 then digest else digest[..32])
  }

  /** The key of the sequence counter of a record's source and channel. */
  function Stream(source: string, channel: string): string {
    source + [0 as char] + channel
  }

  predicate TextField(record: Fields, field: string) {
    Get(record, field).Str? && Get(record, field).s != ""
  }

  /** The first of the required text fields that is missing or empty. */
  function BadField(record: Fields, shape: Shape): Option<string> {
    if !TextField(record, "event_id") then Some("event_id")
    else if !TextField(record, "source") then Some("source")
    else if !TextField(record, TimestampField(shape)) then Some(TimestampField(shape))
    else if !TextField(record, TypeField(shape)) then Some(TypeField(shape))
    else None
  }

  function Payload(signal: Json): Json {
    if signal.Obj? then signal else Obj(map["value" := signal])
  }

  function Provenance(lib: Library, config: Config, record: Fields, shape: Shape): Json {
    Obj(map[
      "archive_sha256" := Str(config.archiveSha256),
      "import_version" := Str(IMPORT_VERSION),
      "ingestion_mode" := Str("historical_import"),
      "original_receipt_timestamp_available" := Bool(false),
      "sequence_basis" := Str("accepted_source_stream_input_order"),
      "source_format" := Str(FormatName(shape)),
      "source_record_sha256" := Str(lib.sha256(lib.encode(Obj(record))))
    ])
  }

  function Metadata(lib: Library, config: Config, record: Fields, shape: Shape): Json {
    if shape.Primary? then
      Obj(map["historical_import" := Provenance(lib, config, record, shape),
              "original_schema_version" := Get(record, "schema_version"),
              "original_quality" := Get(record, "quality")])
    else Obj(map["historical_import" := Provenance(lib, config, record, shape)])
  }

  /** The canonical record a historical one is mapped to. */
  function Mapped(lib: Library, config: Config, record: Fields, shape: Shape, stream: string, eventType: string,
                  sequence: int): Json
    requires config.importedAt.Utc? && Get(record, "event_id").Str?
  {
    Obj(map[
      "schema_version" := Str(SCHEMA_VERSION),
      "event_id" := Str(Pseudonym(lib, config.key, "evt", Get(record, "event_id").s)),
      "source_id" := Str(Pseudonym(lib, config.key, "src", stream)),
      "source_sequence" := Int(sequence),
      "event_type" := Str(eventType),
      "observed_at" := Get(record, TimestampField(shape)),
      "ingested_at" := Str(lib.formatUtc(config.importedAt.micros)),
      "payload" := Payload(Get(record, "signal")),
      "metadata" := Metadata(lib, config, record, shape)
    ])
  }

  /** `_map_record`, with the reason of its exception. */
  function MapRecord(lib: Library, config: Config, record: Fields, shape: Shape, stream: string,
                     sequence: int): Result<Event, string>
    requires config.importedAt.Utc?
  {
    if BadField(record, shape).Some? then Err("invalid_" + BadField(record, shape).value)
    else if !Finite(Obj(record)) then Err("source record is not canonical JSON")
    else
      match lib.identifier(Get(record, TypeField(shape)).s)
      case None => Err("event type normalizes to an empty identifier")
      case Some(eventType) =>
        match FromMapping(lib, Mapped(lib, config, record, shape, stream, eventType, sequence))
        case Err(rejection) => Err("canonical_" + rejection.code)
        case Ok(e) => Ok(e)
  }

  /** The loop's variables: accepted events, the stream of each, the sequence counters, identities
      seen, and counts of formats and of rejection reasons. */
  datatype Import = Import(
    events: seq<Event>,
    streams: seq<string>,
    sequences: map<string, int>,
    seen: set<string>,
    formats: multiset<string>,
    rejections: multiset<string>
  )

  const NOTHING := Import([], [], map[], {}, multiset{}, multiset{})

  function Reject(s: Import, reason: string): Import {
    s.(rejections := s.rejections + multiset{reason})
  }

  /** `sequences[stream]` on a defaultdict: looking a stream up enters it. */
  function LookUp(s: Import, stream: string): Import {
    if stream in s.sequences then s else s.(sequences := s.sequences[stream := 0])
  }

  function Accept(s: Import, stream: string, shape: Shape, e: Event): Import
    requires stream in s.sequences
  {
    Import(s.events + [e], s.streams + [stream], s.sequences[stream := s.sequences[stream] + 1],
           s.seen + {e.eventId}, s.formats + multiset{FormatName(shape)}, s.rejections)
  }

  /** A record of known shape whose identity is new. */
  function ImportShaped(lib: Library, config: Config, s: Import, record: Fields, shape: Shape): Import
    requires config.importedAt.Utc?
  {
    var source, channel := Get(record, "source"), Get(record, TypeField(shape));
    if !source.Str? || !channel.Str? then Reject(s, "invalid_source_stream")
    else
      var stream := Stream(source.s, channel.s);
      var looked := LookUp(s, stream);
      match MapRecord(lib, config, record, shape, stream, looked.sequences[stream])
      case Err(reason) => Reject(looked, reason)
      case Ok(e) => Accept(looked, stream, shape, e)
  }

  function ImportRecord(lib: Library, config: Config, s: Import, record: Fields): Import
    requires config.importedAt.Utc?
  {
    var id := Get(record, "event_id");
    if !id.Str? || id.s == "" then Reject(s, "invalid_event_id")
    else if Pseudonym(lib, config.key, "evt", id.s) in s.seen then Reject(s, "duplicate_event_id")
    else
      match ShapeOf(record)
      case None => Reject(s, "unsupported_record_shape")
      case Some(shape) => ImportShaped(lib, config, s, record, shape)
  }

  /** One line; `None` is the exception of a line that is not UTF-8. */
  function ImportLine(lib: Library, config: Config, s: Import, line: Bytes): Option<Import>
    requires config.importedAt.Utc?
  {
    if Blank(line) then Some(Reject(s, "blank_line"))
    else
      match lib.loads(line)
      case Undecodable => None
      case Malformed => Some(Reject(s, "invalid_json"))
      case Value(j) => Some(if j.Obj? then ImportRecord(lib, config, s, j.fields) else Reject(s, "non_object"))
  }

  function ImportLines(lib: Library, config: Config, lines: seq<Bytes>): Option<Import>
    requires config.importedAt.Utc?
  {
    if lines == [] then Some(NOTHING)
    else
      match ImportLines(lib, config, lines[..|lines| - 1])
      case None => None
      case Some(s) => ImportLine(lib, config, s, lines[|lines| - 1])
  }

  datatype ImportReport = ImportReport(
    datasetSha256: string,
    canonicalEventsSha256: string,
    eventCount: nat,
    formatCounts: multiset<string>,
    rejectionCounts: multiset<string>,
    rejectionCount: nat,
    sourceCount: nat,
    stateSha256: string
  )

  datatype Qualification = Qualified(events: seq<Event>, report: ImportReport)

  /** The exceptions that leave the import. */
  datatype ImportError = NotUtf8 | LedgerRefuses(conflict: Conflict) | ReplaysDiffer

  function CanonicalLines(lib: Library, events: seq<Event>): Bytes {
    if events == [] then []
    else CanonicalLines(lib, events[..|events| - 1]) + lib.JsonLine(ToMapping(lib, events[|events| - 1]))
  }

  function StateDigest(lib: Library, log: Log): string {
    lib.sha256(lib.encode(StateJson(StateOf(lib, StoredRows(lib, log)))))
  }

  /** What `qualify_historical_jsonl` returns. */
  function Qualify(lib: Library, config: Config, content: Bytes): Result<Qualification, ImportError>
    requires config.importedAt.Utc?
  {
    match ImportLines(lib, config, LinesOf(content))
    case None => Err(NotUtf8)
    case Some(s) =>
      var t := Batch([], s.events);
      if t.Aborted? then Err(LedgerRefuses(t.conflict))
      else
        Ok(Qualified(s.events,
             ImportReport(lib.sha256(content), lib.sha256(CanonicalLines(lib, s.events)), |s.events|,
                          s.formats, s.rejections, |s.rejections|, |s.sequences|, StateDigest(lib, t.log))))
  }
}
