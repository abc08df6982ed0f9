/** Which historical lines become events, as which events, and the reason of every rejection
    (`src/edge_evidence/historical.py:80-218`). */
module HistoricalAcceptance {
  import opened Wrappers
  import opened JsonValues
  import opened Libraries
  import opened Events
  import opened Logs
  import opened Ledgers
  import opened Projection
  import opened Checkpoints
  import opened Historical
  import opened HistoricalProperties
  import Acceptance
  import Bundles
  import Campaigns
  import Streams

  // ---- The record, field by field ----

  /** The two record shapes: the names of their timestamp and of the field that is both type and channel. */
  predicate HasShape(r: Fields, stamp: string, kind: string) {
    || (&& stamp == "ts" && kind == "sensor"
        && r.Keys == {"event_id", "quality", "schema_version", "sensor", "signal", "source", "ts"})
    || (&& stamp == "ts_utc" && kind == "type"
        && r.Keys == {"event_id", "signal", "source", "ts_utc", "type"})
  }

  predicate NonEmptyText(r: Fields, field: string)
    requires field in r
  {
    r[field].Str? && r[field].s != ""
  }

  /** The first 32 characters of a keyed digest under a prefix. */
  function Keyed(lib: Library, config: Config, prefix: string, value: string): string {
    var digest := lib.hmac(config.key, value);
    prefix + digest[..if |digest| < 32 then |digest| else 32]
  }

  /** The keyed digests make identifiers, as hexadecimal ones do. */
  ghost predicate KeysIdentify(lib: Library, config: Config) {
    forall value :: Identifier(Keyed(lib, config, "evt-", value)) && Identifier(Keyed(lib, config, "src-", value))
  }

  lemma HexadecimalKeysIdentify(lib: Library, config: Config)
    requires forall value :: |lib.hmac(config.key, value)| == 64 && HexDigest(lib.hmac(config.key, value))
    ensures KeysIdentify(lib, config)
  {
    forall value
      ensures Identifier(Keyed(lib, config, "evt-", value)) && Identifier(Keyed(lib, config, "src-", value))
    {
      var digest := lib.hmac(config.key, value);
      PrefixedIdentifier("evt-", digest[..32]);
      PrefixedIdentifier("src-", digest[..32]);
    }
  }

  lemma PrefixedIdentifier(prefix: string, digits: string)
    requires prefix == "evt-" || prefix == "src-"
    requires |digits| == 32 && forall i | 0 <= i < 32 :: HexDigit(digits[i])
    ensures Identifier(prefix + digits)
  {
    var s := prefix + digits;
    forall i | 1 <= i < |s| ensures IdentifierChar(s[i]) {
      assert i >= 4 ==> s[i] == digits[i - 4];
      assert i < 4 ==> s[i] == prefix[i];
    }
  }

  /** A record that becomes an event, given the identities of the events before it: one of the two shapes,
      non-empty texts, a new identity, no non-finite number, a type with an identifier, and a timestamp not
      after the import. */
  ghost predicate Maps(lib: Library, config: Config, seen: set<string>, r: Fields, stamp: string, kind: string)
    requires config.importedAt.Utc?
  {
    && HasShape(r, stamp, kind)
    && NonEmptyText(r, "event_id") && NonEmptyText(r, "source") && NonEmptyText(r, stamp) && NonEmptyText(r, kind)
    && Keyed(lib, config, "evt-", r["event_id"].s) !in seen
    && Finite(Obj(r))
    && lib.identifier(r[kind].s).Some? && Identifier(lib.identifier(r[kind].s).value)
    && lib.parseUtc(r[stamp].s).Ok? && lib.parseUtc(r[stamp].s).value <= config.importedAt.micros
  }

  /** The event it becomes, field by field. */
  ghost predicate BecomesEvent(lib: Library, config: Config, r: Fields, stamp: string, kind: string, e: Event)
    requires HasShape(r, stamp, kind)
  {
    && r["event_id"].Str? && r["source"].Str? && r[kind].Str? && r[stamp].Str?
    && e.eventId == Keyed(lib, config, "evt-", r["event_id"].s)
    && e.sourceId == Keyed(lib, config, "src-", StreamOf(r["source"].s, r[kind].s))
    && lib.identifier(r[kind].s) == Some(e.eventType)
    && lib.parseUtc(r[stamp].s) == Ok(e.observedAt) && config.importedAt == Utc(e.ingestedAt)
    && e.payload == (if r["signal"].Obj? then r["signal"].fields else map["value" := r["signal"]])
    && MetadataTells(lib, config, r, kind, e.metadata)
  }

  /** Source and channel with a zero character between them. */
  function StreamOf(source: string, channel: string): string {
    source + [0 as char] + channel
  }

  /** The provenance of an imported event, and of the first shape its original version and quality. */
  ghost predicate MetadataTells(lib: Library, config: Config, r: Fields, kind: string, m: Fields) {
    && (if kind == "sensor" then
          && m.Keys == {"historical_import", "original_schema_version", "original_quality"}
          && "schema_version" in r && m["original_schema_version"] == r["schema_version"]
          && "quality" in r && m["original_quality"] == r["quality"]
        else m.Keys == {"historical_import"})
    && m["historical_import"].Obj? && ProvenanceTells(lib, config, r, kind, m["historical_import"].fields)
  }

  ghost predicate ProvenanceTells(lib: Library, config: Config, r: Fields, kind: string, p: Fields) {
    && p.Keys == {"archive_sha256", "import_version", "ingestion_mode", "original_receipt_timestamp_available",
                  "sequence_basis", "source_format", "source_record_sha256"}
    && p["archive_sha256"] == Str(config.archiveSha256) && p["import_version"] == Str("1.0")
    && p["ingestion_mode"] == Str("historical_import")
    && p["original_receipt_timestamp_available"] == Bool(false)
    && p["sequence_basis"] == Str("accepted_source_stream_input_order")
    && p["source_format"] == Str(if kind == "sensor" then "primary-v1" else "control-v1")
    && p["source_record_sha256"] == Str(lib.sha256(lib.encode(Obj(r))))
  }

  // ---- Mapping a record ----

  /** The shape's names are those of the model's shape. */
  lemma ShapeIff(r: Fields)
    ensures ShapeOf(r) == Some(Primary) <==> HasShape(r, "ts", "sensor")
    ensures ShapeOf(r) == Some(Control) <==> HasShape(r, "ts_utc", "type")
    ensures ShapeOf(r).None? <==> !HasShape(r, "ts", "sensor") && !HasShape(r, "ts_utc", "type")
  {
    if r.Keys == PRIMARY_FIELDS {
      assert "quality" in r.Keys && "quality" !in CONTROL_FIELDS;
    }
  }

  lemma KeyedIsPseudonym(lib: Library, config: Config, value: string)
    ensures Pseudonym(lib, config.key, "evt", value) == Keyed(lib, config, "evt-", value)
    ensures Pseudonym(lib, config.key, "src", value) == Keyed(lib, config, "src-", value)
  {
    assert "evt" + "-" == "evt-" && "src" + "-" == "src-";
  }

  lemma MappedMeets(lib: Library, config: Config, r: Fields, shape: Shape, stream: string, eventType: string,
                    sequence: int)
    requires lib.Lawful() && config.importedAt.Utc? && KeysIdentify(lib, config)
    requires HasShape(r, TimestampField(shape), TypeField(shape)) && ShapeOf(r) == Some(shape)
    requires NonEmptyText(r, "event_id") && NonEmptyText(r, TimestampField(shape)) && Finite(Obj(r)) && sequence >= 0
    ensures var parsed := lib.parseUtc(r[TimestampField(shape)].s);
            && (Acceptance.Meets(lib, Mapped(lib, config, r, shape, stream, eventType, sequence))
                <==> Identifier(eventType) && parsed.Ok? && parsed.value <= config.importedAt.micros)
  {
    hide Identifier, Finite, KeysIdentify, Mapped, HasShape, ShapeOf, Acceptance.Named, Acceptance.Document;
    MappedSound(lib, config, r, shape, stream, eventType, sequence);
    MappedType(eventType, Mapped(lib, config, r, shape, stream, eventType, sequence).fields);
  }

  lemma MappedType(eventType: string, m: Fields)
    requires "event_type" in m && m["event_type"] == Str(eventType)
    ensures Acceptance.Named(m, "event_type") <==> Identifier(eventType)
  {
  }

  /** What a mapped record always has: identities, a position, documents, and the import time. */
  lemma MappedSound(lib: Library, config: Config, r: Fields, shape: Shape, stream: string, eventType: string,
                    sequence: int)
    requires lib.Lawful() && config.importedAt.Utc? && KeysIdentify(lib, config)
    requires HasShape(r, TimestampField(shape), TypeField(shape)) && NonEmptyText(r, "event_id") && Finite(Obj(r))
    ensures Mapped(lib, config, r, shape, stream, eventType, sequence).Obj?
    ensures var m := Mapped(lib, config, r, shape, stream, eventType, sequence).fields;
            && m.Keys == FIELDS && m["schema_version"] == Str("1.0")
            && Acceptance.Named(m, "event_id") && Acceptance.Named(m, "source_id")
            && m["source_sequence"] == Int(sequence) && m["event_type"] == Str(eventType)
            && Acceptance.Document(m, "payload") && Acceptance.Document(m, "metadata")
            && m["observed_at"] == r[TimestampField(shape)]
            && Acceptance.TimeIn(lib, m["ingested_at"]) == Some(config.importedAt.micros)
  {
    hide Identifier, Finite, KeysIdentify, Metadata, Payload, Keyed, Pseudonym, Mapped;
    MappedKeys(lib, config, r, shape, stream, eventType, sequence);
    KeyedIsPseudonym(lib, config, r["event_id"].s);
    KeyedIsPseudonym(lib, config, stream);
    IdentifyingKeys(lib, config, r["event_id"].s);
    IdentifyingKeys(lib, config, stream);
    PayloadIsDocument(r["signal"], r);
    MetadataIsDocument(lib, config, r, shape);
    lib.TimeRoundTrip(config.importedAt.micros);
  }

  lemma IdentifyingKeys(lib: Library, config: Config, value: string)
    requires KeysIdentify(lib, config)
    ensures Identifier(Keyed(lib, config, "evt-", value)) && Identifier(Keyed(lib, config, "src-", value))
  {
  }

  lemma MappedKeys(lib: Library, config: Config, r: Fields, shape: Shape, stream: string, eventType: string,
                   sequence: int)
    requires config.importedAt.Utc? && HasShape(r, TimestampField(shape), TypeField(shape)) && r["event_id"].Str?
    ensures Mapped(lib, config, r, shape, stream, eventType, sequence).Obj?
    ensures var m := Mapped(lib, config, r, shape, stream, eventType, sequence).fields;
            && m.Keys == FIELDS && m["schema_version"] == Str("1.0")
            && m["event_id"] == Str(Pseudonym(lib, config.key, "evt", r["event_id"].s))
            && m["source_id"] == Str(Pseudonym(lib, config.key, "src", stream))
            && m["source_sequence"] == Int(sequence) && m["event_type"] == Str(eventType)
            && m["observed_at"] == r[TimestampField(shape)]
            && m["ingested_at"] == Str(lib.formatUtc(config.importedAt.micros))
            && m["payload"] == Payload(r["signal"]) && m["metadata"] == Metadata(lib, config, r, shape)
  {
    hide Pseudonym, Metadata, Payload, HasShape, TimestampField, TypeField;
    ShapeFields(r, TimestampField(shape), TypeField(shape));
  }

  lemma PayloadIsDocument(signal: Json, r: Fields)
    requires Finite(Obj(r)) && "signal" in r && r["signal"] == signal
    ensures Payload(signal).Obj? && Finite(Payload(signal))
    ensures Payload(signal).fields == if signal.Obj? then signal.fields else map["value" := signal]
  {
    assert Finite(signal);
  }

  lemma ProvenanceFinite(p: Fields)
    requires forall k | k in p :: p[k].Str? || p[k].Bool?
    ensures Finite(Obj(p))
  {
  }

  /** The metadata of an imported event, finite because the record is. */
  lemma MetadataIsDocument(lib: Library, config: Config, r: Fields, shape: Shape)
    requires HasShape(r, TimestampField(shape), TypeField(shape)) && Finite(Obj(r))
    ensures var m := Metadata(lib, config, r, shape);
            m.Obj? && Finite(m) && MetadataTells(lib, config, r, TypeField(shape), m.fields)
  {
    hide Finite, ProvenanceTells, Provenance;
    var m := Metadata(lib, config, r, shape);
    ProvenanceIs(lib, config, r, shape);
    assert Finite(m.fields["historical_import"]);
    if shape.Primary? {
      FieldFinite(r, "schema_version");
      FieldFinite(r, "quality");
      ThreeFinite(m.fields);
    } else {
      OneFinite(m.fields);
    }
  }

  lemma ProvenanceIs(lib: Library, config: Config, r: Fields, shape: Shape)
    ensures var p := Provenance(lib, config, r, shape);
            p.Obj? && Finite(p) && ProvenanceTells(lib, config, r, TypeField(shape), p.fields)
  {
    hide Finite;
    var p := Provenance(lib, config, r, shape);
    assert p.fields.Keys == {"archive_sha256", "import_version", "ingestion_mode",
                             "original_receipt_timestamp_available", "sequence_basis", "source_format",
                             "source_record_sha256"};
    ProvenanceFinite(p.fields);
  }

  lemma FieldFinite(r: Fields, field: string)
    requires Finite(Obj(r)) && field in r
    ensures Finite(r[field])
  {
  }

  lemma ThreeFinite(m: Fields)
    requires m.Keys == {"historical_import", "original_schema_version", "original_quality"}
    requires Finite(m["historical_import"]) && Finite(m["original_schema_version"]) && Finite(m["original_quality"])
    ensures Finite(Obj(m))
  {
  }

  lemma OneFinite(m: Fields)
    requires m.Keys == {"historical_import"} && Finite(m["historical_import"])
    ensures Finite(Obj(m))
  {
  }

  /** Everything a record must have once its shape is known and its identity new. */
  ghost predicate ContentOk(lib: Library, config: Config, r: Fields, stamp: string, kind: string)
    requires config.importedAt.Utc? && HasShape(r, stamp, kind)
  {
    && NonEmptyText(r, "event_id") && NonEmptyText(r, "source") && NonEmptyText(r, stamp) && NonEmptyText(r, kind)
    && Finite(Obj(r))
    && lib.identifier(r[kind].s).Some? && Identifier(lib.identifier(r[kind].s).value)
    && lib.parseUtc(r[stamp].s).Ok? && lib.parseUtc(r[stamp].s).value <= config.importedAt.micros
  }

  lemma RecordMapsIff(lib: Library, config: Config, r: Fields, shape: Shape, sequence: int)
    requires lib.Lawful() && config.importedAt.Utc? && KeysIdentify(lib, config) && sequence >= 0
    requires HasShape(r, TimestampField(shape), TypeField(shape)) && ShapeOf(r) == Some(shape)
    requires r["source"].Str? && r[TypeField(shape)].Str?
    ensures var stamp, kind := TimestampField(shape), TypeField(shape);
            var mapped := MapRecord(lib, config, r, shape, Stream(r["source"].s, r[kind].s), sequence);
            && (mapped.Ok? <==> ContentOk(lib, config, r, stamp, kind))
            && (mapped.Ok? ==> BecomesEvent(lib, config, r, stamp, kind, mapped.value)
                               && mapped.value.sourceSequence == sequence)
  {
    hide FromMapping, Mapped, Identifier, Finite, KeysIdentify, Metadata, Payload, Keyed, Pseudonym, MetadataTells;
    var stamp, kind := TimestampField(shape), TypeField(shape);
    var stream := Stream(r["source"].s, r[kind].s);
    if BadField(r, shape).None? && Finite(Obj(r)) && lib.identifier(r[kind].s).Some? {
      var eventType := lib.identifier(r[kind].s).value;
      var m := Mapped(lib, config, r, shape, stream, eventType, sequence);
      MappedMeets(lib, config, r, shape, stream, eventType, sequence);
      Acceptance.AcceptedIff(lib, m);
      if FromMapping(lib, m).Ok? {
        MappedBecomes(lib, config, r, shape, stream, eventType, sequence, FromMapping(lib, m).value);
      }
    }
  }

  lemma ShapeFields(r: Fields, stamp: string, kind: string)
    requires HasShape(r, stamp, kind)
    ensures {"event_id", "signal", "source", stamp, kind} <= r.Keys
  {
  }

  lemma MappedBecomes(lib: Library, config: Config, r: Fields, shape: Shape, stream: string, eventType: string,
                      sequence: int, e: Event)
    requires lib.Lawful() && config.importedAt.Utc?
    requires HasShape(r, TimestampField(shape), TypeField(shape))
    requires NonEmptyText(r, "event_id") && NonEmptyText(r, "source") && Finite(Obj(r))
    requires NonEmptyText(r, TimestampField(shape)) && NonEmptyText(r, TypeField(shape))
    requires stream == Stream(r["source"].s, r[TypeField(shape)].s)
    requires lib.identifier(r[TypeField(shape)].s) == Some(eventType)
    requires var m := Mapped(lib, config, r, shape, stream, eventType, sequence);
             m.Obj? && m.fields.Keys == FIELDS && Acceptance.Describes(lib, m.fields, e)
    ensures BecomesEvent(lib, config, r, TimestampField(shape), TypeField(shape), e) && e.sourceSequence == sequence
  {
    hide Mapped, Finite, Metadata, Payload, Keyed, Pseudonym, MetadataTells, HasShape, TimestampField, TypeField,
         KeysIdentify;
    ShapeFields(r, TimestampField(shape), TypeField(shape));
    MappedKeys(lib, config, r, shape, stream, eventType, sequence);
    KeyedIsPseudonym(lib, config, r["event_id"].s);
    KeyedIsPseudonym(lib, config, stream);
    PayloadIsDocument(r["signal"], r);
    MetadataIsDocument(lib, config, r, shape);
    lib.TimeRoundTrip(config.importedAt.micros);
  }

  // ---- Taking a line ----

  /** A line that becomes an event: JSON text of a record that maps, given the events before it. */
  ghost predicate Takes(lib: Library, config: Config, before: seq<Event>, line: Bytes, r: Fields, stamp: string,
                        kind: string)
    requires config.importedAt.Utc?
  {
    !Blank(line) && lib.loads(line) == Value(Obj(r)) && Maps(lib, config, Ids(before), r, stamp, kind)
  }

  /** What taking it adds: the event it becomes, one of its format, and no rejection. */
  ghost predicate Adds(lib: Library, config: Config, s: Import, t: Import, r: Fields, stamp: string, kind: string)
    requires HasShape(r, stamp, kind)
  {
    && t.events != [] && t.events[..|t.events| - 1] == s.events
    && BecomesEvent(lib, config, r, stamp, kind, t.events[|t.events| - 1])
    && t.formats == s.formats + multiset{if kind == "sensor" then "primary-v1" else "control-v1"}
    && t.rejections == s.rejections
  }

  /** A line becomes an event if and only if its text is that of a record that maps, and then the one it
      describes; otherwise it is one rejection. So it is at every line of every input. */
  lemma LineTakenIff(lib: Library, config: Config, lines: seq<Bytes>, i: nat)
    requires lib.Lawful() && config.importedAt.Utc? && KeysIdentify(lib, config)
    requires i < |lines| && ImportLines(lib, config, lines[..i]).Some? && ImportLines(lib, config, lines[..i + 1]).Some?
    ensures var s, t := ImportLines(lib, config, lines[..i]).value, ImportLines(lib, config, lines[..i + 1]).value;
            if exists r, stamp, kind :: Takes(lib, config, s.events, lines[i], r, stamp, kind) then
              exists r, stamp, kind :: Takes(lib, config, s.events, lines[i], r, stamp, kind)
                                       && Adds(lib, config, s, t, r, stamp, kind)
            else t.events == s.events && t.formats == s.formats && |t.rejections| == |s.rejections| + 1
  {
    hide ImportLine, Takes, Adds, Positioned, DistinctEventIds, AllValid, Counted, Blank;
    var s := ImportLines(lib, config, lines[..i]).value;
    assert lines[..i + 1][..i] == lines[..i];
    ImportIsGood(lib, config, lines[..i]);
    StateTakesIff(lib, config, s, lines[i]);
  }

  lemma StateTakesIff(lib: Library, config: Config, s: Import, line: Bytes)
    requires lib.Lawful() && config.importedAt.Utc? && KeysIdentify(lib, config)
    requires s.seen == Ids(s.events) && Counted(s) && ImportLine(lib, config, s, line).Some?
    ensures var t := ImportLine(lib, config, s, line).value;
            if exists r, stamp, kind :: Takes(lib, config, s.events, line, r, stamp, kind) then
              exists r, stamp, kind :: Takes(lib, config, s.events, line, r, stamp, kind)
                                       && Adds(lib, config, s, t, r, stamp, kind)
            else t.events == s.events && t.formats == s.formats && |t.rejections| == |s.rejections| + 1
  {
    hide ImportRecord, Adds, Maps, KeysIdentify, Counted, Ids, Blank;
    if !Blank(line) && lib.loads(line).Value? && lib.loads(line).json.Obj? {
      var r := lib.loads(line).json.fields;
      ShapeIff(r);
      OnlyShapes(lib, config, s.seen, r);
      if ShapeOf(r).Some? {
        RecordTakenIff(lib, config, s, r, ShapeOf(r).value);
      } else {
        NoShapeRejected(lib, config, s, r);
      }
      var t := ImportRecord(lib, config, s, r);
      if Maps(lib, config, s.seen, r, "ts", "sensor") {
        assert Takes(lib, config, s.events, line, r, "ts", "sensor") && Adds(lib, config, s, t, r, "ts", "sensor");
      } else if Maps(lib, config, s.seen, r, "ts_utc", "type") {
        assert Takes(lib, config, s.events, line, r, "ts_utc", "type") && Adds(lib, config, s, t, r, "ts_utc", "type");
      }
    }
  }

  /** Only the names of a shape can map. */
  lemma OnlyShapes(lib: Library, config: Config, seen: set<string>, r: Fields)
    requires config.importedAt.Utc?
    ensures forall stamp, kind | Maps(lib, config, seen, r, stamp, kind) ::
              HasShape(r, stamp, kind) && ((stamp == "ts" && kind == "sensor") || (stamp == "ts_utc" && kind == "type"))
  {
  }

  lemma RecordTakenIff(lib: Library, config: Config, s: Import, r: Fields, shape: Shape)
    requires lib.Lawful() && config.importedAt.Utc? && KeysIdentify(lib, config) && Counted(s)
    requires HasShape(r, TimestampField(shape), TypeField(shape)) && ShapeOf(r) == Some(shape)
    ensures var t, stamp, kind := ImportRecord(lib, config, s, r), TimestampField(shape), TypeField(shape);
            if Maps(lib, config, s.seen, r, stamp, kind) then Adds(lib, config, s, t, r, stamp, kind)
            else t.events == s.events && t.formats == s.formats && |t.rejections| == |s.rejections| + 1
  {
    hide ImportShaped, ContentOk, Adds, KeysIdentify, Pseudonym, Keyed, Counted, ShapeOf, TimestampField, TypeField,
         HasShape;
    MapsIsContent(lib, config, s.seen, r, TimestampField(shape), TypeField(shape));
    if r["event_id"].Str? && r["event_id"].s != "" {
      KeyedIsPseudonym(lib, config, r["event_id"].s);
      ShapedTakenIff(lib, config, s, r, shape);
    }
  }

  lemma MapsIsContent(lib: Library, config: Config, seen: set<string>, r: Fields, stamp: string, kind: string)
    requires config.importedAt.Utc? && HasShape(r, stamp, kind)
    ensures "event_id" in r
    ensures Maps(lib, config, seen, r, stamp, kind)
       <==> ContentOk(lib, config, r, stamp, kind) && Keyed(lib, config, "evt-", r["event_id"].s) !in seen
    ensures ContentOk(lib, config, r, stamp, kind) ==> r["event_id"].Str? && r["event_id"].s != ""
  {
  }

  lemma ShapedTakenIff(lib: Library, config: Config, s: Import, r: Fields, shape: Shape)
    requires lib.Lawful() && config.importedAt.Utc? && KeysIdentify(lib, config) && Counted(s)
    requires HasShape(r, TimestampField(shape), TypeField(shape)) && ShapeOf(r) == Some(shape)
    ensures var t, stamp, kind := ImportShaped(lib, config, s, r, shape), TimestampField(shape), TypeField(shape);
            if ContentOk(lib, config, r, stamp, kind) then Adds(lib, config, s, t, r, stamp, kind)
            else t.events == s.events && t.formats == s.formats && |t.rejections| == |s.rejections| + 1
  {
    hide MapRecord, BecomesEvent, Identifier, Finite, KeysIdentify, Counted, Stream, ShapeOf;
    var kind := TypeField(shape);
    if r["source"].Str? && r[kind].Str? {
      var stream := Stream(r["source"].s, r[kind].s);
      CounterNatural(s, stream);
      RecordMapsIff(lib, config, r, shape, LookUp(s, stream).sequences[stream]);
    }
  }

  lemma CounterNatural(s: Import, stream: string)
    requires Counted(s)
    ensures LookUp(s, stream).sequences[stream] >= 0
  {
    assert Counter(s, stream) == multiset(s.streams)[stream];
  }

  lemma NoShapeRejected(lib: Library, config: Config, s: Import, r: Fields)
    requires config.importedAt.Utc? && !HasShape(r, "ts", "sensor") && !HasShape(r, "ts_utc", "type")
    ensures var t := ImportRecord(lib, config, s, r);
            t.events == s.events && t.formats == s.formats && |t.rejections| == |s.rejections| + 1
  {
    ShapeIff(r);
  }

  // ---- The reason of a rejection ----

  /** One ground for rejecting a line, with the reason that is counted. */
  datatype Ground = Ground(applies: bool, reason: string)

  /** The grounds for rejecting a record, in order; the last three need digests that identify. */
  ghost function Grounds(lib: Library, config: Config, seen: set<string>, r: Fields): seq<Ground>
    requires config.importedAt.Utc?
  {
    var id, source := Get(r, "event_id"), Get(r, "source");
    var stamp := if HasShape(r, "ts", "sensor") then "ts" else "ts_utc";
    var kind := if HasShape(r, "ts", "sensor") then "sensor" else "type";
    var channel, text := Get(r, kind), Get(r, stamp);
    var eventType := if channel.Str? then lib.identifier(channel.s) else None;
    var time := if text.Str? then lib.parseUtc(text.s) else Ok(0);
    [
      Ground(!id.Str? || id.s == "", "invalid_event_id"),
      Ground(id.Str? && Keyed(lib, config, "evt-", id.s) in seen, "duplicate_event_id"),
      Ground(!HasShape(r, stamp, kind), "unsupported_record_shape"),
      Ground(!source.Str? || !channel.Str?, "invalid_source_stream"),
      Ground(source.Str? && source.s == "", "invalid_source"),
      Ground(!text.Str? || text.s == "", if kind == "sensor" then "invalid_ts" else "invalid_ts_utc"),
      Ground(channel.Str? && channel.s == "", if kind == "sensor" then "invalid_sensor" else "invalid_type"),
      Ground(!Finite(Obj(r)), "source record is not canonical JSON"),
      Ground(eventType.None?, "event type normalizes to an empty identifier"),
      Ground(eventType.Some? && !Identifier(eventType.value), "canonical_invalid_identifier"),
      Ground(time.Err?, "canonical_" + (if time.Err? then time.error else "")),
      Ground(time.Ok? && config.importedAt.micros < time.value, "canonical_ingestion_before_observation")
    ]
  }

  /** Lines that hold no record. */
  lemma NoRecordRejected(lib: Library, config: Config, s: Import, line: Bytes)
    requires config.importedAt.Utc?
    ensures Blank(line) ==> ImportLine(lib, config, s, line) == Some(Reject(s, "blank_line"))
    ensures !Blank(line) && lib.loads(line).Malformed? ==>
              ImportLine(lib, config, s, line) == Some(Reject(s, "invalid_json"))
    ensures !Blank(line) && lib.loads(line).Value? && !lib.loads(line).json.Obj? ==>
              ImportLine(lib, config, s, line) == Some(Reject(s, "non_object"))
    ensures !Blank(line) && lib.loads(line).Undecodable? ==> ImportLine(lib, config, s, line).None?
  {
  }

  /** The first ground that applies is the reason that is counted, and no event is added. */
  lemma FirstGroundDecides(lib: Library, config: Config, s: Import, r: Fields, k: nat)
    requires lib.Lawful() && config.importedAt.Utc? && KeysIdentify(lib, config) && Counted(s)
    requires k < |Grounds(lib, config, s.seen, r)| && Grounds(lib, config, s.seen, r)[k].applies
    requires forall i | 0 <= i < k :: !Grounds(lib, config, s.seen, r)[i].applies
    ensures var t := ImportRecord(lib, config, s, r);
            && t.rejections == s.rejections + multiset{Grounds(lib, config, s.seen, r)[k].reason}
            && t.events == s.events && t.formats == s.formats
  {
    hide ImportShaped, Finite, Identifier, KeysIdentify, Counted, Keyed, Pseudonym, HasShape, ShapeOf;
    var g := Grounds(lib, config, s.seen, r);
    assert (k > 0 ==> !g[0].applies) && (k > 1 ==> !g[1].applies) && (k > 2 ==> !g[2].applies);
    var id := Get(r, "event_id");
    if id.Str? {
      KeyedIsPseudonym(lib, config, id.s);
    }
    ShapeIff(r);
    if k > 2 {
      ShapedGroundDecides(lib, config, s, r, ShapeOf(r).value, k);
    }
  }

  lemma ShapedGroundDecides(lib: Library, config: Config, s: Import, r: Fields, shape: Shape, k: nat)
    requires lib.Lawful() && config.importedAt.Utc? && KeysIdentify(lib, config) && Counted(s)
    requires HasShape(r, TimestampField(shape), TypeField(shape)) && ShapeOf(r) == Some(shape)
    requires Get(r, "event_id").Str? && Get(r, "event_id").s != ""
    requires 3 <= k < |Grounds(lib, config, s.seen, r)| && Grounds(lib, config, s.seen, r)[k].applies
    requires forall i | 3 <= i < k :: !Grounds(lib, config, s.seen, r)[i].applies
    ensures var t := ImportShaped(lib, config, s, r, shape);
            && t.rejections == s.rejections + multiset{Grounds(lib, config, s.seen, r)[k].reason}
            && t.events == s.events && t.formats == s.formats
  {
    hide MapRecord, Finite, Identifier, KeysIdentify, Counted, Keyed, Pseudonym, ShapeOf, Stream;
    var g := Grounds(lib, config, s.seen, r);
    assert k > 3 ==> !g[3].applies;
    OneShape(r, shape);
    if k > 3 {
      var stream := Stream(r["source"].s, r[TypeField(shape)].s);
      CounterNatural(s, stream);
      MapGroundDecides(lib, config, s.seen, r, shape, LookUp(s, stream).sequences[stream], k);
    }
  }

  /** The shapes exclude each other. */
  lemma OneShape(r: Fields, shape: Shape)
    requires HasShape(r, TimestampField(shape), TypeField(shape))
    ensures HasShape(r, "ts", "sensor") <==> shape.Primary?
    ensures {"event_id", "source", TimestampField(shape), TypeField(shape)} <= r.Keys
  {
    if shape.Control? {
      assert "quality" !in r.Keys;
    }
  }

  lemma MapGroundDecides(lib: Library, config: Config, seen: set<string>, r: Fields, shape: Shape, sequence: int,
                         k: nat)
    requires lib.Lawful() && config.importedAt.Utc? && KeysIdentify(lib, config) && sequence >= 0
    requires HasShape(r, TimestampField(shape), TypeField(shape)) && ShapeOf(r) == Some(shape)
    requires NonEmptyText(r, "event_id") && r["source"].Str? && r[TypeField(shape)].Str?
    requires 4 <= k < |Grounds(lib, config, seen, r)| && Grounds(lib, config, seen, r)[k].applies
    requires forall i | 4 <= i < k :: !Grounds(lib, config, seen, r)[i].applies
    ensures MapRecord(lib, config, r, shape, Stream(r["source"].s, r[TypeField(shape)].s), sequence)
         == Err(Grounds(lib, config, seen, r)[k].reason)
  {
    hide MapRecord, Finite, Identifier, KeysIdentify, Keyed, Pseudonym, ShapeOf, Stream, HasShape;
    OneShape(r, shape);
    var stream := Stream(r["source"].s, r[TypeField(shape)].s);
    var g := Grounds(lib, config, seen, r);
    assert (k > 4 ==> !g[4].applies) && (k > 5 ==> !g[5].applies) && (k > 6 ==> !g[6].applies);
    assert (k > 7 ==> !g[7].applies) && (k > 8 ==> !g[8].applies) && (k > 9 ==> !g[9].applies);
    assert k > 10 ==> !g[10].applies;
    if k < 7 {
      FieldReasons(lib, config, r, shape, stream, sequence);
    } else {
      OtherReasons(lib, config, r, shape, stream, sequence);
    }
  }

  lemma FieldReasons(lib: Library, config: Config, r: Fields, shape: Shape, stream: string, sequence: int)
    requires config.importedAt.Utc? && HasShape(r, TimestampField(shape), TypeField(shape))
    requires NonEmptyText(r, "event_id") && r["source"].Str? && r[TypeField(shape)].Str?
    ensures var mapped := MapRecord(lib, config, r, shape, stream, sequence);
            if r["source"].s == "" then mapped == Err("invalid_source")
            else if !NonEmptyText(r, TimestampField(shape)) then
              mapped == Err(if shape.Primary? then "invalid_ts" else "invalid_ts_utc")
            else r[TypeField(shape)].s == "" ==>
              mapped == Err(if shape.Primary? then "invalid_sensor" else "invalid_type")
  {
    hide FromMapping, Mapped, Finite;
    ReasonTexts();
  }

  lemma ReasonTexts()
    ensures "invalid_" + "source" == "invalid_source"
    ensures "invalid_" + "ts" == "invalid_ts" && "invalid_" + "ts_utc" == "invalid_ts_utc"
    ensures "invalid_" + "sensor" == "invalid_sensor" && "invalid_" + "type" == "invalid_type"
    ensures "canonical_" + "invalid_identifier" == "canonical_invalid_identifier"
    ensures "canonical_" + "ingestion_before_observation" == "canonical_ingestion_before_observation"
  {
  }

  lemma OtherReasons(lib: Library, config: Config, r: Fields, shape: Shape, stream: string, sequence: int)
    requires lib.Lawful() && config.importedAt.Utc? && KeysIdentify(lib, config) && sequence >= 0
    requires HasShape(r, TimestampField(shape), TypeField(shape)) && ShapeOf(r) == Some(shape)
    requires NonEmptyText(r, "event_id") && NonEmptyText(r, "source")
    requires NonEmptyText(r, TimestampField(shape)) && NonEmptyText(r, TypeField(shape))
    ensures var mapped := MapRecord(lib, config, r, shape, stream, sequence);
            var eventType, parsed := lib.identifier(r[TypeField(shape)].s), lib.parseUtc(r[TimestampField(shape)].s);
            if !Finite(Obj(r)) then mapped == Err("source record is not canonical JSON")
            else if eventType.None? then mapped == Err("event type normalizes to an empty identifier")
            else if !Identifier(eventType.value) then mapped == Err("canonical_invalid_identifier")
            else if parsed.Err? then mapped == Err("canonical_" + parsed.error)
            else config.importedAt.micros < parsed.value ==> mapped == Err("canonical_ingestion_before_observation")
  {
    hide FromMapping, Mapped, Finite, Identifier, KeysIdentify, ShapeOf, HasShape;
    ReasonTexts();
    OneShape(r, shape);
    var eventType, parsed := lib.identifier(r[TypeField(shape)].s), lib.parseUtc(r[TimestampField(shape)].s);
    if Finite(Obj(r)) && eventType.Some? {
      if !Identifier(eventType.value) {
        CanonicalGroundDecides(lib, config, r, shape, stream, eventType.value, sequence, 9);
      } else if parsed.Err? {
        CanonicalGroundDecides(lib, config, r, shape, stream, eventType.value, sequence, 10);
      } else if config.importedAt.micros < parsed.value {
        CanonicalGroundDecides(lib, config, r, shape, stream, eventType.value, sequence, 11);
      }
    }
  }

  /** The canonical contract can only object to the type and to the timestamp. */
  lemma CanonicalGroundDecides(lib: Library, config: Config, r: Fields, shape: Shape, stream: string, eventType: string,
                               sequence: int, k: nat)
    requires lib.Lawful() && config.importedAt.Utc? && KeysIdentify(lib, config) && sequence >= 0 && 9 <= k < 12
    requires HasShape(r, TimestampField(shape), TypeField(shape)) && ShapeOf(r) == Some(shape)
    requires NonEmptyText(r, "event_id") && NonEmptyText(r, TimestampField(shape)) && Finite(Obj(r))
    requires var parsed := lib.parseUtc(r[TimestampField(shape)].s);
             && (k == 9 ==> !Identifier(eventType)) && (k > 9 ==> Identifier(eventType))
             && (k == 10 ==> parsed.Err?) && (k > 10 ==> parsed.Ok? && config.importedAt.micros < parsed.value)
    ensures FromMapping(lib, Mapped(lib, config, r, shape, stream, eventType, sequence))
         == Err(if k == 9 then Rejection("invalid_identifier", "event_type")
                else if k == 10 then Rejection(lib.parseUtc(r[TimestampField(shape)].s).error, "observed_at")
                else Rejection("ingestion_before_observation", "ingested_at"))
  {
    hide FromMapping, Mapped, Finite, Identifier, KeysIdentify, ShapeOf, HasShape, Acceptance.Named;
    var m := Mapped(lib, config, r, shape, stream, eventType, sequence);
    MappedSound(lib, config, r, shape, stream, eventType, sequence);
    MappedType(eventType, m.fields);
    Acceptance.FirstFailureDecides(lib, m.fields, if k == 9 then 3 else if k == 10 then 9 else 11);
  }

  /** So every line of every input that holds a rejected record is counted under the first ground. */
  lemma LineRejectedFor(lib: Library, config: Config, lines: seq<Bytes>, i: nat, k: nat)
    requires lib.Lawful() && config.importedAt.Utc? && KeysIdentify(lib, config)
    requires i < |lines| && ImportLines(lib, config, lines[..i]).Some?
    requires !Blank(lines[i]) && lib.loads(lines[i]).Value? && lib.loads(lines[i]).json.Obj?
    ensures var s, r := ImportLines(lib, config, lines[..i]).value, lib.loads(lines[i]).json.fields;
            var grounds := Grounds(lib, config, Ids(s.events), r);
            k < |grounds| && grounds[k].applies && (forall j | 0 <= j < k :: !grounds[j].applies) ==>
              var t := ImportLines(lib, config, lines[..i + 1]);
              t.Some? && t.value.events == s.events && t.value.rejections == s.rejections + multiset{grounds[k].reason}
  {
    hide ImportRecord, Grounds, Positioned, DistinctEventIds, AllValid, Counted, Blank, KeysIdentify;
    var s, r := ImportLines(lib, config, lines[..i]).value, lib.loads(lines[i]).json.fields;
    assert lines[..i + 1][..i] == lines[..i];
    ImportIsGood(lib, config, lines[..i]);
    var grounds := Grounds(lib, config, Ids(s.events), r);
    if k < |grounds| && grounds[k].applies && forall j | 0 <= j < k :: !grounds[j].applies {
      FirstGroundDecides(lib, config, s, r, k);
    }
  }

  // ---- The lines of a file ----

  /** Lines with their ends, one after the other. */
  function Lined(lines: seq<Bytes>, ends: seq<Bytes>): Bytes
    requires |lines| == |ends|
  {
    if lines == [] then [] else lines[0] + ends[0] + Lined(lines[1..], ends[1..])
  }

  predicate IsEnd(end: Bytes) {
    end == [LF] || end == [CR, LF]
  }

  lemma {:induction false} FirstLineEnds(line: Bytes, end: Bytes, rest: Bytes)
    requires OneLine(line) && IsEnd(end)
    ensures FirstLine(line + end + rest) == |line| + |end|
  {
    var whole := line + end + rest;
    if line == [] {
      assert whole[0] == end[0] && (|end| == 2 ==> whole[1] == LF);
    } else {
      assert whole[0] == line[0] && whole[1..] == line[1..] + end + rest;
      FirstLineEnds(line[1..], end, rest);
    }
  }

  lemma EndStrips(line: Bytes, end: Bytes)
    requires OneLine(line) && IsEnd(end)
    ensures StripEnd(line + end) == line
  {
    var whole := line + end;
    assert whole[|whole| - 1] == LF && whole[..|line|] == line;
    if |end| == 1 && line != [] {
      assert whole[|whole| - 2] == line[|line| - 1];
    }
  }

  /** A file of one-line texts, each under a line feed with or without a carriage return, has those lines; text
      after the last end is one more. */
  lemma {:induction false} LinesRead(lines: seq<Bytes>, ends: seq<Bytes>, last: Bytes)
    requires |lines| == |ends| && OneLine(last)
    requires forall i | 0 <= i < |lines| :: OneLine(lines[i]) && IsEnd(ends[i])
    ensures LinesOf(Lined(lines, ends) + last) == lines + if last == [] then [] else [last]
  {
    if lines == [] {
      assert [] + last == last;
      LastLine(last);
    } else {
      hide LinesOf;
      var rest := Lined(lines[1..], ends[1..]) + last;
      assert Lined(lines, ends) + last == lines[0] + ends[0] + rest;
      LinesRead(lines[1..], ends[1..], last);
      OneMoreLine(lines[0], ends[0], rest);
      assert lines == [lines[0]] + lines[1..];
    }
  }

  lemma OneMoreLine(line: Bytes, end: Bytes, rest: Bytes)
    requires OneLine(line) && IsEnd(end)
    ensures LinesOf(line + end + rest) == [line] + LinesOf(rest)
  {
    hide StripEnd, FirstLine;
    var whole, first := line + end + rest, line + end;
    FirstLineEnds(line, end, rest);
    assert whole[..|first|] == first && whole[|first|..] == rest;
    assert SplitBytes(whole) == [first] + SplitBytes(rest);
    EndStrips(line, end);
  }

  lemma LastLine(last: Bytes)
    requires OneLine(last)
    ensures LinesOf(last) == if last == [] then [] else [last]
  {
    if last != [] {
      WholeIsFirst(last);
      assert last[..|last|] == last && last[|last|..] == [];
      assert SplitBytes(last) == [last] + SplitBytes([]);
    }
  }

  lemma {:induction false} WholeIsFirst(line: Bytes)
    requires OneLine(line)
    ensures FirstLine(line) == |line|
  {
    if line != [] {
      WholeIsFirst(line[1..]);
    }
  }

  // ---- The report ----

  /** The report of a qualified import: the digests of the file, of the canonical text of its events, line by
      line, and of a document that tells of their replay. */
  ghost predicate ReportTells(lib: Library, content: Bytes, q: Qualification) {
    && q.report.datasetSha256 == lib.sha256(content)
    && (exists documents: seq<Json> ::
          && |documents| == |q.events|
          && (forall i | 0 <= i < |q.events| :: documents[i] == ToMapping(lib, q.events[i]))
          && q.report.canonicalEventsSha256 == lib.sha256(Bundles.JsonlBytes(lib, documents)))
    && (exists state :: StateTells(lib, q.events, state) && q.report.stateSha256 == lib.sha256(lib.encode(state)))
  }

  lemma QualifiedTells(lib: Library, config: Config, content: Bytes)
    requires lib.Lawful() && config.importedAt.Utc?
    ensures var qualified, s := Qualify(lib, config, content), ImportLines(lib, config, LinesOf(content));
            qualified.Ok? ==>
              s.Some? && qualified.value.events == s.value.events && ReportTells(lib, content, qualified.value)
  {
    hide ImportLines, LinesOf, Batch, StateTells, StateOf, StateJson, StoredRows, ToMapping, CanonicalLines, LogOk,
         Positioned, AllValid, Counted, Streams.Firsts;
    if Qualify(lib, config, content).Ok? {
      var s := ImportLines(lib, config, LinesOf(content)).value;
      var t := Batch([], s.events);
      ImportIsGood(lib, config, LinesOf(content));
      EmptyLogOk();
      BatchRows([], s.events);
      Campaigns.FirstsAreCommitted(s.events);
      DistinctAreFirsts(s.events);
      ReplayTells(lib, s.events);
      var documents := seq(|s.events|, i requires 0 <= i < |s.events| => ToMapping(lib, s.events[i]));
      CanonicalIsJsonl(lib, s.events, documents);
      assert StateTells(lib, s.events, StateJson(StateOf(lib, StoredRows(lib, s.events))));
    }
  }

  lemma {:induction false} DistinctAreFirsts(events: seq<Event>)
    requires DistinctEventIds(events)
    ensures Streams.Firsts(events) == events
  {
    hide Ids;
    if events != [] {
      var front, e := events[..|events| - 1], events[|events| - 1];
      DistinctAreFirsts(front);
      LastIsNew(events);
      assert events == front + [e];
    }
  }

  lemma LastIsNew(events: seq<Event>)
    requires DistinctEventIds(events) && events != []
    ensures events[|events| - 1].eventId !in Ids(events[..|events| - 1])
  {
    var front, e := events[..|events| - 1], events[|events| - 1];
    forall x | x in front ensures x.eventId != e.eventId {
      var i :| 0 <= i < |front| && front[i] == x;
      assert events[i] == x;
    }
  }

  lemma {:induction false} JsonlSnoc(lib: Library, documents: seq<Json>, d: Json)
    ensures Bundles.JsonlBytes(lib, documents + [d]) == Bundles.JsonlBytes(lib, documents) + lib.JsonLine(d)
  {
    if documents != [] {
      assert (documents + [d])[1..] == documents[1..] + [d];
      JsonlSnoc(lib, documents[1..], d);
    } else {
      assert [d][1..] == [] && lib.JsonLine(d) + [] == lib.JsonLine(d);
    }
  }

  /** Appending line after line writes the lines. */
  lemma {:induction false} CanonicalIsJsonl(lib: Library, events: seq<Event>, documents: seq<Json>)
    requires |documents| == |events| && forall i | 0 <= i < |events| :: documents[i] == ToMapping(lib, events[i])
    ensures CanonicalLines(lib, events) == Bundles.JsonlBytes(lib, documents)
  {
    if events != [] {
      hide ToMapping;
      var n := |events| - 1;
      CanonicalIsJsonl(lib, events[..n], documents[..n]);
      JsonlSnoc(lib, documents[..n], documents[n]);
      assert documents == documents[..n] + [documents[n]];
    }
  }
}
