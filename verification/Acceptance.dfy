/** Which records and which MQTT messages the event contract takes, and the reason of every refusal
    (`src/edge_evidence/event.py:41-145`, `src/edge_evidence/mqtt.py:62-106`). */
module Acceptance {
  import opened Wrappers
  import opened JsonValues
  import opened Libraries
  import opened Events
  import opened Mqtt
  import Text

  // ---- Identifiers ----

  const LETTERS := "abcdefghijklmnopqrstuvwxyz"
  const DIGITS := "0123456789"
  const PUNCTUATION := "._:-"

  lemma IsLetter(c: char)
    ensures 'a' <= c <= 'z' <==> c in LETTERS
  {
    if 'a' <= c <= 'z' {
      assert LETTERS[c as int - 'a' as int] == c;
    }
  }

  lemma IsDigit(c: char)
    ensures '0' <= c <= '9' <==> c in DIGITS
  {
    if '0' <= c <= '9' {
      assert DIGITS[c as int - '0' as int] == c;
    }
  }

  /** Identifiers of one character. */
  lemma ShortIdentifier(c: char)
    ensures !Identifier("")
    ensures Identifier([c]) <==> c in LETTERS || c in DIGITS
  {
    IsLetter(c);
    IsDigit(c);
  }

  /** And each longer one is an identifier of fewer than 128 characters with one more. */
  lemma LongerIdentifier(s: string, c: char)
    requires s != ""
    ensures Identifier(s + [c])
       <==> Identifier(s) && |s| < 128 && (c in LETTERS || c in DIGITS || c in PUNCTUATION)
  {
    IsLetter(c);
    IsDigit(c);
    var longer := s + [c];
    assert longer[|s|] == c && forall i | 0 <= i < |s| :: longer[i] == s[i];
  }

  // ---- Records ----

  predicate Named(f: Fields, field: string)
    requires field in f
  {
    f[field].Str? && Identifier(f[field].s)
  }

  predicate Document(f: Fields, field: string)
    requires field in f
  {
    f[field].Obj? && Finite(f[field])
  }

  /** The moment a timestamp text stands for. */
  function TimeIn(lib: Library, j: Json): Option<int> {
    if j.Str? && lib.parseUtc(j.s).Ok? then Some(lib.parseUtc(j.s).value) else None
  }

  /** A record that meets the contract: exactly the nine fields, each of its kind, received no earlier than
      observed. */
  ghost predicate Meets(lib: Library, record: Json) {
    && record.Obj?
    && var f := record.fields;
       && f.Keys == {"schema_version", "event_id", "source_id", "source_sequence", "event_type", "observed_at",
                     "ingested_at", "payload", "metadata"}
       && f["schema_version"] == Str("1.0")
       && Named(f, "event_id") && Named(f, "source_id") && Named(f, "event_type")
       && f["source_sequence"].Int? && f["source_sequence"].n >= 0
       && Document(f, "payload") && Document(f, "metadata")
       && var observed, ingested := TimeIn(lib, f["observed_at"]), TimeIn(lib, f["ingested_at"]);
          observed.Some? && ingested.Some? && observed.value <= ingested.value
  }

  /** The event a record describes, value by value. */
  ghost predicate Describes(lib: Library, f: Fields, e: Event)
    requires f.Keys == FIELDS
  {
    && f["event_id"] == Str(e.eventId) && f["source_id"] == Str(e.sourceId) && f["event_type"] == Str(e.eventType)
    && f["source_sequence"] == Int(e.sourceSequence)
    && TimeIn(lib, f["observed_at"]) == Some(e.observedAt) && TimeIn(lib, f["ingested_at"]) == Some(e.ingestedAt)
    && f["payload"] == Obj(e.payload) && f["metadata"] == Obj(e.metadata)
  }

  /** A record becomes an event if and only if it meets the contract, and then the one it describes. */
  lemma AcceptedIff(lib: Library, record: Json)
    ensures FromMapping(lib, record).Ok? <==> Meets(lib, record)
    ensures var accepted := FromMapping(lib, record);
            accepted.Ok? ==>
              record.Obj? && record.fields.Keys == FIELDS && Describes(lib, record.fields, accepted.value)
  {
    hide Identifier, Finite, FromFields;
    if record.Obj? {
      var f := record.fields;
      if FIELDS - f.Keys == {} && f.Keys - FIELDS == {} {
        assert f.Keys == FIELDS;
        FieldsAcceptedIff(lib, f);
      }
    }
  }

  lemma FieldsAcceptedIff(lib: Library, f: Fields)
    requires f.Keys == FIELDS
    ensures FromFields(lib, f).Ok? <==> Meets(lib, Obj(f))
    ensures FromFields(lib, f).Ok? ==> Describes(lib, f, FromFields(lib, f).value)
  {
    hide Identifier, Finite;
  }

  // ---- The reason of a refusal ----

  lemma NotARecord(lib: Library, record: Json)
    requires !record.Obj?
    ensures FromMapping(lib, record) == Err(Rejection("invalid_record", "$"))
  {
  }

  /** Missing fields come first and are named by the first in code-point order; then unknown ones. */
  lemma WrongFieldsAreNamed(lib: Library, f: Fields)
    ensures FIELDS - f.Keys != {} ==>
              exists name ::
                name in FIELDS - f.Keys && (forall other | other in FIELDS - f.Keys :: Text.Leq(name, other))
                && FromMapping(lib, Obj(f)) == Err(Rejection("missing_field", name))
    ensures FIELDS <= f.Keys && f.Keys - FIELDS != {} ==>
              exists name ::
                name in f.Keys - FIELDS && (forall other | other in f.Keys - FIELDS :: Text.Leq(name, other))
                && FromMapping(lib, Obj(f)) == Err(Rejection("unknown_field", name))
  {
    hide FromFields;
    var missing, unknown := FIELDS - f.Keys, f.Keys - FIELDS;
    if missing != {} {
      FirstIsLeast(missing);
      assert FromMapping(lib, Obj(f)) == Err(Rejection("missing_field", Text.Sorted(missing)[0]));
    } else if unknown != {} {
      FirstIsLeast(unknown);
      assert FromMapping(lib, Obj(f)) == Err(Rejection("unknown_field", Text.Sorted(unknown)[0]));
    }
  }

  lemma FirstIsLeast(names: set<string>)
    requires names != {}
    ensures Text.Sorted(names) != [] && Text.Sorted(names)[0] in names
    ensures forall other | other in names :: Text.Leq(Text.Sorted(names)[0], other)
  {
    var sorted := Text.Sorted(names);
    forall other | other in names ensures Text.Leq(sorted[0], other) {
      assert other in sorted;
    }
  }

  /** One check of the contract: whether a record fails it, and the rejection that says so. */
  datatype Check = Check(fails: bool, rejection: Rejection)

  /** Why a text is not a UTC timestamp, if it is not. */
  function TimeCode(lib: Library, j: Json): string {
    if !j.Str? then "invalid_type"
    else match lib.parseUtc(j.s)
      case Ok(_) => ""
      case Err(code) => code
  }

  /** The checks of a record with the right fields, in order. */
  ghost function Checks(lib: Library, f: Fields): seq<Check>
    requires f.Keys == FIELDS
  {
    var observed, ingested := TimeIn(lib, f["observed_at"]), TimeIn(lib, f["ingested_at"]);
    [
      Check(f["schema_version"] != Str("1.0"), Rejection("unsupported_schema_version", "schema_version")),
      Check(!Named(f, "event_id"), Rejection("invalid_identifier", "event_id")),
      Check(!Named(f, "source_id"), Rejection("invalid_identifier", "source_id")),
      Check(!Named(f, "event_type"), Rejection("invalid_identifier", "event_type")),
      Check(!(f["source_sequence"].Int? && f["source_sequence"].n >= 0),
            Rejection("invalid_source_sequence", "source_sequence")),
      Check(!f["payload"].Obj?, Rejection("invalid_type", "payload")),
      Check(!Finite(f["payload"]), Rejection("non_finite_number", "payload")),
      Check(!f["metadata"].Obj?, Rejection("invalid_type", "metadata")),
      Check(!Finite(f["metadata"]), Rejection("non_finite_number", "metadata")),
      Check(observed.None?, Rejection(TimeCode(lib, f["observed_at"]), "observed_at")),
      Check(ingested.None?, Rejection(TimeCode(lib, f["ingested_at"]), "ingested_at")),
      Check(observed.Some? && ingested.Some? && ingested.value < observed.value,
            Rejection("ingestion_before_observation", "ingested_at"))
    ]
  }

  /** The first check that fails decides the rejection. */
  lemma FirstFailureDecides(lib: Library, f: Fields, k: nat)
    requires f.Keys == FIELDS
    requires k < |Checks(lib, f)| && Checks(lib, f)[k].fails && forall i | 0 <= i < k :: !Checks(lib, f)[i].fails
    ensures FromMapping(lib, Obj(f)) == Err(Checks(lib, f)[k].rejection)
  {
    hide Identifier, Finite, FromFields;
    var c := Checks(lib, f);
    assert (k > 0 ==> !c[0].fails) && (k > 1 ==> !c[1].fails) && (k > 2 ==> !c[2].fails) && (k > 3 ==> !c[3].fails);
    assert (k > 4 ==> !c[4].fails) && (k > 5 ==> !c[5].fails) && (k > 6 ==> !c[6].fails) && (k > 7 ==> !c[7].fails);
    assert (k > 8 ==> !c[8].fails) && (k > 9 ==> !c[9].fails) && (k > 10 ==> !c[10].fails);
    assert FIELDS - f.Keys == {} && f.Keys - FIELDS == {};
    if k < 4 {
      NamesDecide(lib, f, k);
    } else if k < 9 {
      ContentsDecide(lib, f, k);
    } else {
      TimesDecide(lib, f, k);
    }
  }

  lemma NamesDecide(lib: Library, f: Fields, k: nat)
    requires f.Keys == FIELDS && k < 4
    requires k > 0 ==> f["schema_version"] == Str("1.0")
    requires (k > 1 ==> Named(f, "event_id")) && (k > 2 ==> Named(f, "source_id"))
    requires Checks(lib, f)[k].fails
    ensures FromFields(lib, f) == Err(Checks(lib, f)[k].rejection)
  {
    hide Identifier, Finite;
  }

  lemma ContentsDecide(lib: Library, f: Fields, k: nat)
    requires f.Keys == FIELDS && 4 <= k < 9
    requires f["schema_version"] == Str("1.0") && Named(f, "event_id") && Named(f, "source_id")
             && Named(f, "event_type")
    requires k > 4 ==> f["source_sequence"].Int? && f["source_sequence"].n >= 0
    requires (k > 5 ==> f["payload"].Obj?) && (k > 6 ==> Finite(f["payload"])) && (k > 7 ==> f["metadata"].Obj?)
    requires Checks(lib, f)[k].fails
    ensures FromFields(lib, f) == Err(Checks(lib, f)[k].rejection)
  {
    hide Identifier, Finite;
  }

  lemma TimesDecide(lib: Library, f: Fields, k: nat)
    requires f.Keys == FIELDS && 9 <= k < 12
    requires f["schema_version"] == Str("1.0") && Named(f, "event_id") && Named(f, "source_id")
             && Named(f, "event_type")
    requires f["source_sequence"].Int? && f["source_sequence"].n >= 0 && Document(f, "payload")
             && Document(f, "metadata")
    requires (k > 9 ==> TimeIn(lib, f["observed_at"]).Some?) && (k > 10 ==> TimeIn(lib, f["ingested_at"]).Some?)
    requires Checks(lib, f)[k].fails
    ensures FromFields(lib, f) == Err(Checks(lib, f)[k].rejection)
  {
    hide Identifier, Finite;
  }

  // ---- Messages ----

  /** A message that delivers an event at a moment: its topic is the event's source and type under the root,
      its payload is JSON text of the five producer fields, and the receipt is no earlier than the observation. */
  ghost predicate Delivers(lib: Library, m: Message, at: int, d: Fields, e: Event) {
    && m.topic == "edge-evidence/v1/" + e.sourceId + "/" + e.eventType
    && Identifier(e.sourceId) && Identifier(e.eventType)
    && lib.text(m.payload).Some? && lib.loadsText(lib.text(m.payload).value) == Some(Obj(d))
    && d.Keys == {"event_id", "metadata", "observed_at", "payload", "source_sequence"}
    && d["event_id"] == Str(e.eventId) && Identifier(e.eventId)
    && d["source_sequence"] == Int(e.sourceSequence) && e.sourceSequence >= 0
    && d["payload"] == Obj(e.payload) && Finite(Obj(e.payload))
    && d["metadata"] == Obj(e.metadata) && Finite(Obj(e.metadata))
    && TimeIn(lib, d["observed_at"]) == Some(e.observedAt)
    && e.ingestedAt == at && e.observedAt <= at
  }

  lemma TopicText(topic: string, sourceId: string, eventType: string)
    ensures "edge-evidence" + "/" + ("v1" + "/" + (sourceId + "/" + eventType))
         == "edge-evidence/v1/" + sourceId + "/" + eventType
  {
    var left := "edge-evidence" + "/" + ("v1" + "/" + (sourceId + "/" + eventType));
    var root := "edge-evidence/v1/";
    assert "edge-evidence" + "/" + ("v1" + "/") == root;
    assert left == root + (sourceId + "/" + eventType);
  }

  /** A message becomes an event if and only if it delivers it, at a receipt time in UTC. */
  lemma MessageAcceptedIff(lib: Library, m: Message, at: Instant, e: Event)
    requires lib.Lawful()
    ensures MqttToEvent(lib, m, at) == Ok(e) <==> at.Utc? && exists d :: Delivers(lib, m, at.micros, d, e)
  {
    hide MqttToEvent, Delivers;
    if MqttToEvent(lib, m, at) == Ok(e) {
      AcceptedDelivers(lib, m, at, e);
    }
    if at.Utc? && exists d :: Delivers(lib, m, at.micros, d, e) {
      var d :| Delivers(lib, m, at.micros, d, e);
      DeliveredIsAccepted(lib, m, at.micros, d, e);
    }
  }

  lemma RecordKeys(lib: Library, sourceId: string, eventType: string, d: Fields, at: int)
    requires d.Keys == PAYLOAD_FIELDS
    ensures Record(lib, sourceId, eventType, d, at).Obj?
    ensures var f := Record(lib, sourceId, eventType, d, at).fields;
            && f.Keys == FIELDS && f["schema_version"] == Str("1.0")
            && f["event_id"] == d["event_id"] && f["source_id"] == Str(sourceId) && f["event_type"] == Str(eventType)
            && f["source_sequence"] == d["source_sequence"]
            && f["payload"] == d["payload"] && f["metadata"] == d["metadata"]
            && f["observed_at"] == d["observed_at"] && f["ingested_at"] == Str(lib.formatUtc(at))
  {
  }

  lemma AcceptedDelivers(lib: Library, m: Message, at: Instant, e: Event)
    requires lib.Lawful() && MqttToEvent(lib, m, at) == Ok(e)
    ensures at.Utc? && exists d :: Delivers(lib, m, at.micros, d, e)
  {
    hide FromMapping, Record, Identifier, Finite, ParseMessage, Meets;
    var parsed := ParseMessage(lib, m).value;
    ParsedPayload(lib, m);
    RecordKeys(lib, parsed.0, parsed.1, parsed.2, at.micros);
    var record := Record(lib, parsed.0, parsed.1, parsed.2, at.micros);
    AcceptedIff(lib, record);
    MetFields(lib, record);
    lib.TimeRoundTrip(at.micros);
    TopicDetermined(lib, m, at);
    TopicText(m.topic, e.sourceId, e.eventType);
    assert Delivers(lib, m, at.micros, parsed.2, e);
  }

  lemma MetFields(lib: Library, record: Json)
    requires Meets(lib, record) && record.Obj? && record.fields.Keys == FIELDS
    ensures var f := record.fields;
            && Named(f, "event_id") && Named(f, "source_id") && Named(f, "event_type")
            && f["source_sequence"].Int? && f["source_sequence"].n >= 0
            && Document(f, "payload") && Document(f, "metadata")
            && var observed, ingested := TimeIn(lib, f["observed_at"]), TimeIn(lib, f["ingested_at"]);
               observed.Some? && ingested.Some? && observed.value <= ingested.value
  {
  }

  lemma ParsedPayload(lib: Library, m: Message)
    requires ParseMessage(lib, m).Ok?
    ensures lib.text(m.payload).Some?
            && lib.loadsText(lib.text(m.payload).value) == Some(Obj(ParseMessage(lib, m).value.2))
  {
  }

  lemma DeliveredIsAccepted(lib: Library, m: Message, at: int, d: Fields, e: Event)
    requires lib.Lawful() && Delivers(lib, m, at, d, e)
    ensures MqttToEvent(lib, m, Utc(at)) == Ok(e)
  {
    hide FromMapping, Record, Identifier, Finite, ParseMessage;
    DeliveredParses(lib, m, at, d, e);
    DeliveredStamps(lib, m, at, d, e);
  }

  lemma DeliveredStamps(lib: Library, m: Message, at: int, d: Fields, e: Event)
    requires lib.Lawful() && Delivers(lib, m, at, d, e)
    ensures FromMapping(lib, Record(lib, e.sourceId, e.eventType, d, at)) == Ok(e)
  {
    hide FromMapping, Record, Identifier, Finite;
    RecordKeys(lib, e.sourceId, e.eventType, d, at);
    lib.TimeRoundTrip(at);
    AcceptedIff(lib, Record(lib, e.sourceId, e.eventType, d, at));
  }

  lemma DeliveredParses(lib: Library, m: Message, at: int, d: Fields, e: Event)
    requires Delivers(lib, m, at, d, e)
    ensures ParseMessage(lib, m) == Ok((e.sourceId, e.eventType, d))
  {
    hide Finite, Split;
    TopicText(m.topic, e.sourceId, e.eventType);
    TopicParts(e.sourceId, e.eventType);
    assert PAYLOAD_FIELDS - d.Keys == {} && d.Keys - PAYLOAD_FIELDS == {};
  }

  lemma TopicParts(sourceId: string, eventType: string)
    requires Identifier(sourceId) && Identifier(eventType)
    ensures Split("edge-evidence" + "/" + ("v1" + "/" + (sourceId + "/" + eventType)))
         == ["edge-evidence", "v1", sourceId, eventType]
  {
    IdentifierHasNoSlash(sourceId);
    IdentifierHasNoSlash(eventType);
    SplitWhole(eventType);
    SplitHead(sourceId, eventType);
    SplitHead("v1", sourceId + "/" + eventType);
    SplitHead("edge-evidence", "v1" + "/" + (sourceId + "/" + eventType));
  }

  // ---- The reason of a refused message ----

  /** Exactly two more levels under the root. */
  ghost predicate UnderRoot(topic: string) {
    exists source, kind :: Levels(topic, source, kind)
  }

  predicate Levels(topic: string, source: string, kind: string) {
    '/' !in source && '/' !in kind && topic == "edge-evidence/v1/" + source + "/" + kind
  }

  lemma {:induction false} PartsHaveNoSlash(s: string)
    ensures forall part | part in Split(s) :: '/' !in part
  {
    if s != "" {
      PartsHaveNoSlash(s[1..]);
      var rest := Split(s[1..]);
      assert rest[0] in rest && forall part | part in rest[1..] :: part in rest;
    }
  }

  lemma UnderRootIff(topic: string)
    ensures UnderRoot(topic) <==> var parts := Split(topic); |parts| == 4 && parts[..2] == ["edge-evidence", "v1"]
  {
    hide Split;
    var parts := Split(topic);
    if |parts| == 4 && parts[..2] == ["edge-evidence", "v1"] {
      PartsHaveNoSlash(topic);
      TopicRejoins(topic, parts[2], parts[3]);
      TopicText(topic, parts[2], parts[3]);
      assert Levels(topic, parts[2], parts[3]);
    }
    if UnderRoot(topic) {
      var source, kind :| Levels(topic, source, kind);
      TopicText(topic, source, kind);
      SplitWhole(kind);
      SplitHead(source, kind);
      SplitHead("v1", source + "/" + kind);
      SplitHead("edge-evidence", "v1" + "/" + (source + "/" + kind));
    }
  }

  /** What is wrong with a message itself, with the adapter's code; the first wrong decides. */
  datatype Fault = Fault(wrong: bool, code: string)

  ghost function Faults(lib: Library, m: Message, at: Instant): seq<Fault> {
    var text := lib.text(m.payload);
    var json := if text.Some? then lib.loadsText(text.value) else None;
    var keys := if json.Some? && json.value.Obj? then json.value.fields.Keys else {};
    var five := {"event_id", "metadata", "observed_at", "payload", "source_sequence"};
    [
      Fault(!UnderRoot(m.topic), "unsupported_topic"),
      Fault(text.None?, "payload_not_utf8"),
      Fault(json.None?, "payload_not_json"),
      Fault(json.Some? && !json.value.Obj?, "payload_not_object"),
      Fault(!(five <= keys), "missing_payload_field"),
      Fault(!(keys <= five), "unknown_payload_field"),
      Fault(at.NotUtc?, "received_at_not_utc")
    ]
  }

  lemma FirstFaultDecides(lib: Library, m: Message, at: Instant, k: nat)
    requires k < |Faults(lib, m, at)| && Faults(lib, m, at)[k].wrong
    requires forall i | 0 <= i < k :: !Faults(lib, m, at)[i].wrong
    ensures MqttToEvent(lib, m, at) == Err(Adapter(Faults(lib, m, at)[k].code))
  {
    hide Split, UnderRoot, Stamp;
    UnderRootIff(m.topic);
    var f := Faults(lib, m, at);
    assert (k > 0 ==> !f[0].wrong) && (k > 1 ==> !f[1].wrong) && (k > 2 ==> !f[2].wrong) && (k > 3 ==> !f[3].wrong);
    assert (k > 4 ==> !f[4].wrong) && (k > 5 ==> !f[5].wrong);
    if k > 3 {
      var keys := lib.loadsText(lib.text(m.payload).value).value.fields.Keys;
      SubsetIff(PAYLOAD_FIELDS, keys);
      SubsetIff(keys, PAYLOAD_FIELDS);
    }
  }

  lemma SubsetIff(a: set<string>, b: set<string>)
    ensures a <= b <==> a - b == {}
  {
    forall x | a - b == {} && x in a ensures x in b {
      assert x !in a - b;
    }
  }
}
