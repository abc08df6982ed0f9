/** The MQTT topic/payload boundary: the pure half of `src/edge_evidence/mqtt.py`. */
module Mqtt {
  import opened Wrappers
  import opened JsonValues
  import opened Libraries
  import opened Events

  const PAYLOAD_FIELDS := {"event_id", "metadata", "observed_at", "payload", "source_sequence"}

  /** One MQTT publication as a consumer receives it. */
  datatype Message = Message(topic: string, payload: Bytes)

  datatype Reason =
    | Adapter(code: string)          // MqttAdapterError
    | Contract(rejection: Rejection) // event_contract:<code>:<field>
    | LedgerConflict                 // ledger_identity_conflict

  /** `text.split("/")`. */
  function Split(s: string): (parts: seq<string>)
    ensures parts != []
  {
    if s == "" then [""]
    else if s[0] == '/' then [""] + Split(s[1..])
    else
      var rest := Split(s[1..]);
      [[s[0]] + rest[0]] + rest[1..]
  }

  function Join(parts: seq<string>): string
    requires parts != []
  {
    if |parts| == 1 then parts[0] else parts[0] + "/" + Join(parts[1..])
  }

  lemma {:induction false} SplitHead(s: string, t: string)
    requires '/' !in s
    ensures Split(s + "/" + t) == [s] + Split(t)
  {
    var whole := s + "/" + t;
    if s == "" {
      assert whole[1..] == t;
    } else {
      SplitHead(s[1..], t);
      assert whole[1..] == s[1..] + "/" + t;
      assert [s[0]] + s[1..] == s;
      assert ([s[1..]] + Split(t))[1..] == Split(t);
    }
  }

  lemma {:induction false} SplitWhole(s: string)
    requires '/' !in s
    ensures Split(s) == [s]
  {
    if s != "" {
      SplitWhole(s[1..]);
      assert [s[0]] + s[1..] == s;
    }
  }

  lemma {:induction false} JoinSplit(s: string)
    ensures Join(Split(s)) == s
  {
    if s != "" {
      JoinSplit(s[1..]);
      var rest := Split(s[1..]);
      if s[0] != '/' {
        var parts := [[s[0]] + rest[0]] + rest[1..];
        assert parts[1..] == rest[1..];
        assert Join(parts) == [s[0]] + Join(rest);
      } else {
        assert ([""] + rest)[1..] == rest;
      }
      assert s == [s[0]] + s[1..];
    }
  }

  function Topic(e: Event): string {
    "edge-evidence" + "/" + ("v1" + "/" + (e.sourceId + "/" + e.eventType))
  }

  function PayloadDocument(lib: Library, e: Event): Json {
    Obj(map[
      "event_id" := Str(e.eventId),
      "metadata" := Obj(e.metadata),
      "observed_at" := Str(lib.formatUtc(e.observedAt)),
      "payload" := Obj(e.payload),
      "source_sequence" := Int(e.sourceSequence)
    ])
  }

  /** `event_to_mqtt`. */
  function EventToMqtt(lib: Library, e: Event): Message {
    Message(Topic(e), lib.encode(PayloadDocument(lib, e)))
  }

  /** The record that topic, payload and receipt time make together. */
  function Record(lib: Library, sourceId: string, eventType: string, document: Fields, receivedAt: int): Json
    requires document.Keys == PAYLOAD_FIELDS
  {
    Obj(map[
      "event_id" := document["event_id"],
      "event_type" := Str(eventType),
      "ingested_at" := Str(lib.formatUtc(receivedAt)),
      "metadata" := document["metadata"],
      "observed_at" := document["observed_at"],
      "payload" := document["payload"],
      "schema_version" := Str("1.0"),
      "source_id" := Str(sourceId),
      "source_sequence" := document["source_sequence"]
    ])
  }

  /** Topic and payload on their own: the source, the event type and the payload document. */
  function ParseMessage(lib: Library, m: Message): (r: Result<(string, string, Fields), string>)
    ensures r.Ok? ==> r.value.2.Keys == PAYLOAD_FIELDS
  {
    var parts := Split(m.topic);
    if |parts| != 4 || parts[..2] != ["edge-evidence", "v1"] then Err("unsupported_topic")
    else if lib.text(m.payload).None? then Err("payload_not_utf8")
    else
      match lib.loadsText(lib.text(m.payload).value)
      case None => Err("payload_not_json")
      case Some(document) =>
        if !document.Obj? then Err("payload_not_object")
        else if PAYLOAD_FIELDS - document.fields.Keys != {} then Err("missing_payload_field")
        else if document.fields.Keys - PAYLOAD_FIELDS != {} then Err("unknown_payload_field")
        else Ok((parts[2], parts[3], document.fields))
  }

  /** `mqtt_to_event`. */
  function MqttToEvent(lib: Library, m: Message, receivedAt: Instant): Result<Event, Reason> {
    match ParseMessage(lib, m)
    case Err(code) => Err(Adapter(code))
    case Ok((sourceId, eventType, document)) =>
      if receivedAt.NotUtc? then Err(Adapter("received_at_not_utc"))
      else Stamp(lib, sourceId, eventType, document, receivedAt.micros)
  }

  function Stamp(lib: Library, sourceId: string, eventType: string, document: Fields,
                 receivedAt: int): Result<Event, Reason>
    requires document.Keys == PAYLOAD_FIELDS
  {
    match FromMapping(lib, Record(lib, sourceId, eventType, document, receivedAt))
    case Err(rejection) => Err(Contract(rejection))
    case Ok(e) => Ok(e)
  }

  lemma RecordMaps(lib: Library, sourceId: string, eventType: string, document: Fields, receivedAt: int)
    requires document.Keys == PAYLOAD_FIELDS
    ensures Record(lib, sourceId, eventType, document, receivedAt).Obj?
    ensures var r := Record(lib, sourceId, eventType, document, receivedAt);
            r.fields.Keys == FIELDS && FromMapping(lib, r) == FromFields(lib, r.fields)
  {
    var r := Record(lib, sourceId, eventType, document, receivedAt).fields;
    assert r.Keys == FIELDS;
    assert FIELDS - r.Keys == {} && r.Keys - FIELDS == {};
  }

  /** Records of one message differ in their receipt stamp alone. */
  lemma RecordStamp(lib: Library, sourceId: string, eventType: string, document: Fields, first: int, later: int)
    requires document.Keys == PAYLOAD_FIELDS
    ensures var a := Record(lib, sourceId, eventType, document, first).fields;
            && Record(lib, sourceId, eventType, document, later).fields == a["ingested_at" := Str(lib.formatUtc(later))]
            && a["ingested_at"] == Str(lib.formatUtc(first))
            && a["source_id"] == Str(sourceId) && a["event_type"] == Str(eventType)
  {
  }

  lemma PayloadShape(lib: Library, e: Event)
    requires ValidEvent(e)
    ensures PayloadDocument(lib, e).Obj?
    ensures var d := PayloadDocument(lib, e);
            && d.fields.Keys == PAYLOAD_FIELDS && Finite(d)
            && PAYLOAD_FIELDS - d.fields.Keys == {} && d.fields.Keys - PAYLOAD_FIELDS == {}
  {
    assert PayloadDocument(lib, e).fields.Keys == PAYLOAD_FIELDS;
  }

  lemma IdentifierHasNoSlash(s: string)
    requires Identifier(s)
    ensures '/' !in s
  {
  }

  lemma TopicSplits(e: Event)
    requires ValidEvent(e)
    ensures Split(Topic(e)) == ["edge-evidence", "v1", e.sourceId, e.eventType]
  {
    IdentifierHasNoSlash(e.sourceId);
    IdentifierHasNoSlash(e.eventType);
    SplitWhole(e.eventType);
    SplitHead(e.sourceId, e.eventType);
    SplitHead("v1", e.sourceId + "/" + e.eventType);
    SplitHead("edge-evidence", "v1" + "/" + (e.sourceId + "/" + e.eventType));
  }

  lemma EncodedParses(lib: Library, e: Event)
    requires lib.Lawful() && ValidEvent(e)
    ensures ParseMessage(lib, EventToMqtt(lib, e))
         == Ok((e.sourceId, e.eventType, PayloadDocument(lib, e).fields))
  {
    hide PayloadDocument, Topic, ValidEvent, Split;
    TopicSplits(e);
    PayloadShape(lib, e);
    lib.DecodesBack(PayloadDocument(lib, e));
  }

  /** Decoding an encoded event gives it back with the receipt time of the delivery, whenever that
      time is not before the observation. */
  lemma MqttRoundTrip(lib: Library, e: Event, at: int)
    requires lib.Lawful() && ValidEvent(e) && e.observedAt <= at
    ensures MqttToEvent(lib, EventToMqtt(lib, e), Utc(at)) == Ok(e.(ingestedAt := at))
  {
    hide ParseMessage, EventToMqtt, FromMapping, ToMapping, Record, ValidEvent;
    EncodedParses(lib, e);
    PayloadShape(lib, e);
    var received := e.(ingestedAt := at);
    RecordIsMapping(lib, e, at);
    assert ValidEvent(received) by { ReceivedIsValid(e, at); }
    MappingRoundTrip(lib, received);
  }

  lemma ReceivedIsValid(e: Event, at: int)
    requires ValidEvent(e) && e.observedAt <= at
    ensures ValidEvent(e.(ingestedAt := at))
  {
  }

  /** The record rebuilt from topic and payload is the event's own mapping, restamped. */
  lemma RecordIsMapping(lib: Library, e: Event, at: int)
    requires PayloadDocument(lib, e).fields.Keys == PAYLOAD_FIELDS
    ensures Record(lib, e.sourceId, e.eventType, PayloadDocument(lib, e).fields, at)
         == ToMapping(lib, e.(ingestedAt := at))
  {
  }

  /** An accepted delivery came on the one topic its event encodes to. */
  lemma TopicDetermined(lib: Library, m: Message, at: Instant)
    requires MqttToEvent(lib, m, at).Ok?
    ensures Topic(MqttToEvent(lib, m, at).value) == m.topic
  {
    hide FromMapping, FromFields, Record;
    var parsed := ParseMessage(lib, m).value;
    assert ParseMessage(lib, m) == Ok((parsed.0, parsed.1, parsed.2));
    RecordMaps(lib, parsed.0, parsed.1, parsed.2, at.micros);
    RecordStamp(lib, parsed.0, parsed.1, parsed.2, at.micros, at.micros);
    IdentitiesKept(lib, Record(lib, parsed.0, parsed.1, parsed.2, at.micros).fields);
    TopicRejoins(m.topic, parsed.0, parsed.1);
  }

  lemma IdentitiesKept(lib: Library, fields: Fields)
    requires fields.Keys == FIELDS && FromFields(lib, fields).Ok?
    ensures var e := FromFields(lib, fields).value;
            fields["source_id"] == Str(e.sourceId) && fields["event_type"] == Str(e.eventType)
  {
  }

  lemma TopicRejoins(topic: string, sourceId: string, eventType: string)
    requires var parts := Split(topic);
             |parts| == 4 && parts[..2] == ["edge-evidence", "v1"] && parts[2] == sourceId && parts[3] == eventType
    ensures topic == "edge-evidence" + "/" + ("v1" + "/" + (sourceId + "/" + eventType))
  {
    var parts := Split(topic);
    JoinSplit(topic);
    assert parts[..2][0] == parts[0] && parts[..2][1] == parts[1];
    assert Join(parts[3..]) == eventType;
    assert parts[2..][1..] == parts[3..] && Join(parts[2..]) == sourceId + "/" + eventType;
    assert parts[1..][1..] == parts[2..] && Join(parts[1..]) == "v1" + "/" + (sourceId + "/" + eventType);
  }

  lemma DecodedIsValid(lib: Library, m: Message, at: Instant)
    requires MqttToEvent(lib, m, at).Ok?
    ensures ValidEvent(MqttToEvent(lib, m, at).value)
  {
    var parsed := ParseMessage(lib, m).value;
    AcceptedIsValid(lib, Record(lib, parsed.0, parsed.1, parsed.2, at.micros));
  }

  /** The receipt time only sets `ingested_at`, and only a time before the observation rejects. */
  lemma ReceiptTimeOnlyStamps(lib: Library, m: Message, first: Instant, later: int)
    requires lib.Lawful() && MqttToEvent(lib, m, first).Ok?
    ensures var e := MqttToEvent(lib, m, first).value;
            && first == Utc(e.ingestedAt)
            && MqttToEvent(lib, m, Utc(later))
            == if later < e.observedAt
               then Err(Contract(Rejection("ingestion_before_observation", "ingested_at")))
               else Ok(e.(ingestedAt := later))
  {
    var parsed := ParseMessage(lib, m).value;
    StampAgain(lib, parsed.0, parsed.1, parsed.2, first.micros, later);
  }

  lemma StampAgain(lib: Library, sourceId: string, eventType: string, document: Fields, first: int, later: int)
    requires lib.Lawful() && document.Keys == PAYLOAD_FIELDS
    requires Stamp(lib, sourceId, eventType, document, first).Ok?
    ensures var e := Stamp(lib, sourceId, eventType, document, first).value;
            && first == e.ingestedAt
            && Stamp(lib, sourceId, eventType, document, later)
            == if later < e.observedAt
               then Err(Contract(Rejection("ingestion_before_observation", "ingested_at")))
               else Ok(e.(ingestedAt := later))
  {
    RecordMaps(lib, sourceId, eventType, document, first);
    RecordMaps(lib, sourceId, eventType, document, later);
    RecordStamp(lib, sourceId, eventType, document, first, later);
    lib.TimeRoundTrip(first);
    lib.TimeRoundTrip(later);
    RestampedFields(lib,
      Record(lib, sourceId, eventType, document, first).fields,
      Record(lib, sourceId, eventType, document, later).fields, first, later);
  }

  lemma RestampedFields(lib: Library, a: Fields, b: Fields, first: int, later: int)
    requires a.Keys == FIELDS && b == a["ingested_at" := Str(lib.formatUtc(later))] && b.Keys == FIELDS
    requires a["ingested_at"] == Str(lib.formatUtc(first))
    requires lib.parseUtc(lib.formatUtc(first)) == Ok(first) && lib.parseUtc(lib.formatUtc(later)) == Ok(later)
    requires FromFields(lib, a).Ok?
    ensures var e := FromFields(lib, a).value;
            && first == e.ingestedAt
            && FromFields(lib, b)
            == if later < e.observedAt then Err(Rejection("ingestion_before_observation", "ingested_at"))
               else Ok(e.(ingestedAt := later))
  {
    assert IdentifierFault(a) == IdentifierFault(b);
  }
}
