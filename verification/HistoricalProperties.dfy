/** What every import produces. */
module HistoricalProperties {
  import opened Wrappers
  import opened JsonValues
  import opened Libraries
  import opened Events
  import opened Logs
  import opened Historical

  function Counter(s: Import, stream: string): int {
    if stream in s.sequences then s.sequences[stream] else 0
  }

  /** A record taken in: a valid event of a new identity, in the next position of its stream. */
  ghost predicate Accepts(lib: Library, config: Config, s: Import, t: Import) {
    exists e, stream, shape :: AcceptsOne(lib, config, s, t, e, stream, shape)
  }

  ghost predicate AcceptsOne(lib: Library, config: Config, s: Import, t: Import, e: Event, stream: string,
                             shape: Shape) {
    && ValidEvent(e) && e.eventId !in s.seen
    && e.sourceId == Pseudonym(lib, config.key, "src", stream) && e.sourceSequence == Counter(s, stream)
    && t == Accept(LookUp(s, stream), stream, shape, e)
  }

  /** A record turned away, which may leave its stream entered. */
  ghost predicate Rejects(s: Import, t: Import) {
    exists looked, reason :: RejectsOne(s, t, looked, reason)
  }

  ghost predicate RejectsOne(s: Import, t: Import, looked: Option<string>, reason: string) {
    t == Reject(if looked.Some? then LookUp(s, looked.value) else s, reason)
  }

  lemma MappedFields(lib: Library, config: Config, record: Fields, shape: Shape, stream: string, eventType: string,
                     sequence: int)
    requires config.importedAt.Utc? && Get(record, "event_id").Str?
    ensures Mapped(lib, config, record, shape, stream, eventType, sequence).Obj?
    ensures var m := Mapped(lib, config, record, shape, stream, eventType, sequence).fields - TIMESTAMPS;
            && {"event_id", "source_id", "source_sequence"} <= m.Keys
            && m["event_id"] == Str(Pseudonym(lib, config.key, "evt", Get(record, "event_id").s))
            && m["source_id"] == Str(Pseudonym(lib, config.key, "src", stream))
            && m["source_sequence"] == Int(sequence)
  {
    hide Pseudonym, Metadata, Payload, TimestampField;
  }

  lemma KeptIdentity(lib: Library, e: Event)
    ensures var m := ToFields(lib, e) - TIMESTAMPS;
            && {"event_id", "source_id", "source_sequence"} <= m.Keys
            && m["event_id"] == Str(e.eventId) && m["source_id"] == Str(e.sourceId)
            && m["source_sequence"] == Int(e.sourceSequence)
  {
  }

  /** The event a record maps to has the pseudonyms and the position it was given. */
  lemma MappedEvent(lib: Library, config: Config, record: Fields, shape: Shape, stream: string, sequence: int)
    requires config.importedAt.Utc?
    ensures var mapped := MapRecord(lib, config, record, shape, stream, sequence);
            mapped.Ok? ==>
              && Get(record, "event_id").Str? && ValidEvent(mapped.value)
              && mapped.value.eventId == Pseudonym(lib, config.key, "evt", Get(record, "event_id").s)
              && mapped.value.sourceId == Pseudonym(lib, config.key, "src", stream)
              && mapped.value.sourceSequence == sequence
  {
    hide FromMapping, ValidEvent, Mapped, ToFields, Pseudonym, Get;
    if MapRecord(lib, config, record, shape, stream, sequence).Ok? {
      assert TextField(record, "event_id");
      var eventType := lib.identifier(Get(record, TypeField(shape)).s).value;
      var m := Mapped(lib, config, record, shape, stream, eventType, sequence);
      var e := MapRecord(lib, config, record, shape, stream, sequence).value;
      AcceptedIsValid(lib, m);
      AcceptedIsKept(lib, m);
      MappedFields(lib, config, record, shape, stream, eventType, sequence);
      KeptIdentity(lib, e);
    }
  }

  lemma MappedContentFields(lib: Library, config: Config, record: Fields, shape: Shape, stream: string,
                            eventType: string, sequence: int)
    requires config.importedAt.Utc? && Get(record, "event_id").Str?
    ensures Mapped(lib, config, record, shape, stream, eventType, sequence).Obj?
    ensures var m := Mapped(lib, config, record, shape, stream, eventType, sequence).fields;
            && {"payload", "observed_at", "ingested_at"} <= m.Keys && "payload" !in TIMESTAMPS
            && m["payload"] == Payload(Get(record, "signal"))
            && m["observed_at"] == Get(record, TimestampField(shape))
            && m["ingested_at"] == Str(lib.formatUtc(config.importedAt.micros))
  {
    hide Pseudonym, Metadata, Payload, TimestampField;
  }

  lemma KeptPayload(lib: Library, e: Event)
    ensures "payload" in ToFields(lib, e) - TIMESTAMPS && (ToFields(lib, e) - TIMESTAMPS)["payload"] == Obj(e.payload)
  {
  }

  /** And it carries the record's signal and timestamp, received at the import time. */
  lemma MappedContent(lib: Library, config: Config, record: Fields, shape: Shape, stream: string, sequence: int)
    requires lib.Lawful() && config.importedAt.Utc?
    ensures var mapped := MapRecord(lib, config, record, shape, stream, sequence);
            mapped.Ok? ==>
              && Obj(mapped.value.payload) == Payload(Get(record, "signal"))
              && ParseUtc(lib, Get(record, TimestampField(shape)), "observed_at") == Ok(mapped.value.observedAt)
              && mapped.value.ingestedAt == config.importedAt.micros
  {
    hide FromMapping, ValidEvent, Mapped, ToFields, Pseudonym, Get, Payload;
    if MapRecord(lib, config, record, shape, stream, sequence).Ok? {
      assert TextField(record, "event_id");
      var eventType := lib.identifier(Get(record, TypeField(shape)).s).value;
      var m := Mapped(lib, config, record, shape, stream, eventType, sequence);
      var e := MapRecord(lib, config, record, shape, stream, sequence).value;
      AcceptedIsKept(lib, m);
      MappedContentFields(lib, config, record, shape, stream, eventType, sequence);
      KeptPayload(lib, e);
      lib.TimeRoundTrip(config.importedAt.micros);
      assert (m.fields - TIMESTAMPS)["payload"] == m.fields["payload"];
    }
  }

  lemma ShapedSteps(lib: Library, config: Config, s: Import, record: Fields, shape: Shape)
    requires config.importedAt.Utc?
    requires Get(record, "event_id").Str? && Pseudonym(lib, config.key, "evt", Get(record, "event_id").s) !in s.seen
    ensures var t := ImportShaped(lib, config, s, record, shape); Accepts(lib, config, s, t) || Rejects(s, t)
  {
    hide MapRecord, Pseudonym, ValidEvent, Get;
    var source, channel := Get(record, "source"), Get(record, TypeField(shape));
    var t := ImportShaped(lib, config, s, record, shape);
    if source.Str? && channel.Str? {
      var stream := Stream(source.s, channel.s);
      var looked := LookUp(s, stream);
      var mapped := MapRecord(lib, config, record, shape, stream, looked.sequences[stream]);
      if mapped.Ok? {
        MappedEvent(lib, config, record, shape, stream, looked.sequences[stream]);
        assert AcceptsOne(lib, config, s, t, mapped.value, stream, shape);
      } else {
        assert RejectsOne(s, t, Some(stream), mapped.error);
      }
    } else {
      assert RejectsOne(s, t, None, "invalid_source_stream");
    }
  }

  lemma RecordSteps(lib: Library, config: Config, s: Import, record: Fields)
    requires config.importedAt.Utc?
    ensures var t := ImportRecord(lib, config, s, record); Accepts(lib, config, s, t) || Rejects(s, t)
  {
    hide ImportShaped, Pseudonym, ShapeOf, Accepts, Reject, LookUp, Get;
    var t, id := ImportRecord(lib, config, s, record), Get(record, "event_id");
    if !id.Str? || id.s == "" {
      assert RejectsOne(s, t, None, "invalid_event_id");
    } else if Pseudonym(lib, config.key, "evt", id.s) in s.seen {
      assert RejectsOne(s, t, None, "duplicate_event_id");
    } else if ShapeOf(record).None? {
      assert RejectsOne(s, t, None, "unsupported_record_shape");
    } else {
      ShapedSteps(lib, config, s, record, ShapeOf(record).value);
    }
  }

  /** Each line either takes one record in or counts one rejection. */
  lemma LineSteps(lib: Library, config: Config, s: Import, line: Bytes)
    requires config.importedAt.Utc? && ImportLine(lib, config, s, line).Some?
    ensures var t := ImportLine(lib, config, s, line).value; Accepts(lib, config, s, t) || Rejects(s, t)
  {
    hide ImportShaped, Pseudonym, ShapeOf, Blank, Accepts, Reject, LookUp;
    var t := ImportLine(lib, config, s, line).value;
    if !Blank(line) && lib.loads(line).Value? && lib.loads(line).json.Obj? {
      RecordSteps(lib, config, s, lib.loads(line).json.fields);
    } else {
      assert RejectsOne(s, t, None,
                        if Blank(line) then "blank_line"
                        else if lib.loads(line).Malformed? then "invalid_json"
                        else "non_object");
    }
  }

  /** The position of an accepted record: how many of its stream came before. */
  ghost predicate Positioned(lib: Library, config: Config, events: seq<Event>, streams: seq<string>) {
    && |streams| == |events|
    && forall k | 0 <= k < |events| ::
         && events[k].sourceId == Pseudonym(lib, config.key, "src", streams[k])
         && events[k].sourceSequence == multiset(streams[..k])[streams[k]]
  }

  ghost predicate DistinctEventIds(events: seq<Event>) {
    forall i, j | 0 <= i < j < |events| :: events[i].eventId != events[j].eventId
  }

  ghost predicate Counted(s: Import) {
    && (forall stream :: Counter(s, stream) == multiset(s.streams)[stream])
    && (forall stream | stream in s.streams :: stream in s.sequences)
  }

  /** What holds after any number of lines. */
  ghost predicate Good(lib: Library, config: Config, s: Import, lines: nat) {
    && |s.events| + |s.rejections| == lines
    && |s.formats| == |s.events|
    && AllValid(s.events)
    && s.seen == Ids(s.events) && DistinctEventIds(s.events)
    && Positioned(lib, config, s.events, s.streams)
    && Counted(s)
  }

  lemma RejectKeepsGood(lib: Library, config: Config, s: Import, t: Import, lines: nat)
    requires Good(lib, config, s, lines) && Rejects(s, t)
    ensures Good(lib, config, t, lines + 1) && s.events == t.events && s.sequences.Keys <= t.sequences.Keys
  {
    hide Positioned, DistinctEventIds, AllValid;
    var looked, reason :| RejectsOne(s, t, looked, reason);
    assert forall stream :: Counter(t, stream) == Counter(s, stream);
  }

  lemma PositionedStep(lib: Library, config: Config, events: seq<Event>, streams: seq<string>, e: Event, stream: string)
    requires Positioned(lib, config, events, streams)
    requires e.sourceId == Pseudonym(lib, config.key, "src", stream) && e.sourceSequence == multiset(streams)[stream]
    ensures Positioned(lib, config, events + [e], streams + [stream])
  {
    hide Pseudonym;
    var es, ss := events + [e], streams + [stream];
    forall k | 0 <= k < |es|
      ensures es[k].sourceId == Pseudonym(lib, config.key, "src", ss[k])
              && es[k].sourceSequence == multiset(ss[..k])[ss[k]]
    {
      if k < |events| {
        assert ss[..k] == streams[..k];
      } else {
        assert ss[..k] == streams;
      }
    }
  }

  lemma IdsStep(events: seq<Event>, e: Event)
    requires DistinctEventIds(events) && e.eventId !in Ids(events)
    ensures DistinctEventIds(events + [e]) && Ids(events + [e]) == Ids(events) + {e.eventId}
  {
    forall i | 0 <= i < |events| ensures events[i].eventId != e.eventId {
      assert events[i].eventId in Ids(events);
    }
  }

  lemma CountedStep(s: Import, t: Import, stream: string)
    requires Counted(s) && t.streams == s.streams + [stream]
    requires t.sequences == LookUp(s, stream).sequences[stream := Counter(s, stream) + 1]
    ensures Counted(t)
  {
  }

  lemma AcceptKeepsGood(lib: Library, config: Config, s: Import, t: Import, lines: nat)
    requires Good(lib, config, s, lines) && Accepts(lib, config, s, t)
    ensures Good(lib, config, t, lines + 1)
  {
    hide Positioned, DistinctEventIds, ValidEvent, Pseudonym;
    var e, stream, shape :| AcceptsOne(lib, config, s, t, e, stream, shape);
    PositionedStep(lib, config, s.events, s.streams, e, stream);
    IdsStep(s.events, e);
    CountedStep(s, t, stream);
  }

  /** Whatever the lines, the import keeps its books: events and rejections add up to the lines, event
      identities are distinct, and each stream is numbered 0, 1, 2, ... in input order. */
  lemma {:induction false} ImportIsGood(lib: Library, config: Config, lines: seq<Bytes>)
    requires config.importedAt.Utc? && ImportLines(lib, config, lines).Some?
    ensures Good(lib, config, ImportLines(lib, config, lines).value, |lines|)
  {
    if lines == [] {
      assert Good(lib, config, NOTHING, 0);
    } else {
      hide ImportLine, Good, Accepts, Rejects;
      var front := lines[..|lines| - 1];
      ImportIsGood(lib, config, front);
      var s, t := ImportLines(lib, config, front).value, ImportLines(lib, config, lines).value;
      LineSteps(lib, config, s, lines[|lines| - 1]);
      if Accepts(lib, config, s, t) {
        AcceptKeepsGood(lib, config, s, t, |front|);
      } else {
        RejectKeepsGood(lib, config, s, t, |front|);
      }
    }
  }

  lemma ImportedAreValid(lib: Library, config: Config, lines: seq<Bytes>)
    requires config.importedAt.Utc? && ImportLines(lib, config, lines).Some?
    ensures AllValid(ImportLines(lib, config, lines).value.events)
  {
    hide AllValid, Positioned, DistinctEventIds, Counted, ImportLines;
    ImportIsGood(lib, config, lines);
  }
}
