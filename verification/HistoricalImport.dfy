/** The import as a program: `qualify_historical_jsonl`. */
module HistoricalImport {
  import opened Wrappers
  import opened JsonValues
  import opened Libraries
  import opened Events
  import opened Logs
  import opened Ledgers
  import opened Projection
  import opened Checkpoints
  import opened Historical
  import opened HistoricalProperties

  /** `_replay_digest`: ingest the events into a fresh ledger and digest its projection. */
  method ReplayDigest(lib: Library, events: seq<Event>) returns (r: Result<string, LedgerError>)
    requires lib.Lawful() && AllValid(events)
    ensures r == if Batch([], events).Committed? then Ok(StateDigest(lib, Batch([], events).log))
                 else Err(Conflicting(Batch([], events).conflict))
  {
    hide LogOk, Stores, StoredRows, StateOf, Batch, ValidEvent;
    var ledger := new EventLedger(lib);
    var records: seq<Record> := seq(|events|, i requires 0 <= i < |events| => Canonicalised(events[i]));
    CanonicalisedCoerce(lib, events);
    assert Sound(records) by {
      forall rec | rec in records && rec.Canonicalised? ensures ValidEvent(rec.event) {
        assert rec.event in events;
      }
    }
    var ingested := ledger.IngestMany(records);
    if ingested.Err? {
      return Err(ingested.error);
    }
    var projection := Replay(ledger);
    r := Ok(lib.sha256(lib.encode(StateJson(projection.value))));
  }

  lemma {:induction false} CanonicalisedCoerce(lib: Library, events: seq<Event>)
    ensures Coerced(lib, seq(|events|, i requires 0 <= i < |events| => Canonicalised(events[i]))) == Ok(events)
  {
    var records: seq<Record> := seq(|events|, i requires 0 <= i < |events| => Canonicalised(events[i]));
    if events != [] {
      var front := events[..|events| - 1];
      CanonicalisedCoerce(lib, front);
      assert records[..|records| - 1] == seq(|front|, i requires 0 <= i < |front| => Canonicalised(front[i]));
      assert events == front + [events[|events| - 1]];
    } else {
      assert records == [];
    }
  }

  /** The loop over the lines. */
  method ImportAll(lib: Library, config: Config, lines: seq<Bytes>)
    returns (ok: bool, events: seq<Event>, sequences: map<string, int>, formats: multiset<string>,
             rejections: multiset<string>)
    requires ConfigOk(config)
    ensures ok == ImportLines(lib, config, lines).Some?
    ensures ok ==> var s := ImportLines(lib, config, lines).value;
                   events == s.events && sequences == s.sequences && formats == s.formats && rejections == s.rejections
  {
    hide MapRecord, Pseudonym, ShapeOf, Blank;
    ok, events, sequences, formats, rejections := true, [], map[], multiset{}, multiset{};
    var seen: set<string> := {};
    ghost var streams: seq<string> := [];
    for i := 0 to |lines|
      invariant ok
                && ImportLines(lib, config, lines[..i])
                  == Some(Import(events, streams, sequences, seen, formats, rejections))
    {
      ghost var s := Import(events, streams, sequences, seen, formats, rejections);
      var line := lines[i];
      assert lines[..i + 1][..i] == lines[..i];
      if Blank(line) {
        rejections := rejections + multiset{"blank_line"};
        continue;
      }
      var loaded := lib.loads(line);
      if loaded.Undecodable? {
        StopsImport(lib, config, lines, i + 1);
        ok := false;
        return;
      }
      if loaded.Malformed? {
        rejections := rejections + multiset{"invalid_json"};
        continue;
      }
      if !loaded.json.Obj? {
        rejections := rejections + multiset{"non_object"};
        continue;
      }
      var record := loaded.json.fields;
      var id := Get(record, "event_id");
      if !id.Str? || id.s == "" {
        rejections := rejections + multiset{"invalid_event_id"};
        continue;
      }
      if Pseudonym(lib, config.key, "evt", id.s) in seen {
        rejections := rejections + multiset{"duplicate_event_id"};
        continue;
      }
      var shape := ShapeOf(record);
      if shape.None? {
        rejections := rejections + multiset{"unsupported_record_shape"};
        continue;
      }
      var source, channel := Get(record, "source"), Get(record, TypeField(shape.value));
      if !source.Str? || !channel.Str? {
        rejections := rejections + multiset{"invalid_source_stream"};
        continue;
      }
      var stream := Stream(source.s, channel.s);
      if stream !in sequences {
        sequences := sequences[stream := 0];
      }
      var mapped := MapRecord(lib, config, record, shape.value, stream, sequences[stream]);
      assert ImportLine(lib, config, s, line) == Some(ImportShaped(lib, config, s, record, shape.value));
      if mapped.Err? {
        rejections := rejections + multiset{mapped.error};
        continue;
      }
      var event := mapped.value;
      seen := seen + {event.eventId};
      sequences := sequences[stream := sequences[stream] + 1];
      formats := formats + multiset{FormatName(shape.value)};
      events := events + [event];
      streams := streams + [stream];
    }
    assert lines[..|lines|] == lines;
  }

  lemma {:induction false} StopsImport(lib: Library, config: Config, lines: seq<Bytes>, n: nat)
    requires config.importedAt.Utc? && n <= |lines| && ImportLines(lib, config, lines[..n]).None?
    ensures ImportLines(lib, config, lines).None?
    decreases |lines|
  {
    if n == |lines| {
      assert lines[..n] == lines;
    } else {
      var front := lines[..|lines| - 1];
      assert front[..n] == lines[..n];
      StopsImport(lib, config, front, n);
    }
  }

  /** `qualify_historical_jsonl`. */
  method QualifyHistorical(lib: Library, config: Config, content: Bytes) returns (r: Result<Qualification, ImportError>)
    requires lib.Lawful() && ConfigOk(config)
    ensures r == Qualify(lib, config, content)
  {
    hide Batch, StateDigest, LinesOf, ImportLines, CanonicalLines, HexDigest;
    var ok, events, sequences, formats, rejections := ImportAll(lib, config, LinesOf(content));
    if !ok {
      return Err(NotUtf8);
    }
    ImportedAreValid(lib, config, LinesOf(content));
    var first := ReplayDigest(lib, events);
    if first.Err? {
      return Err(LedgerRefuses(first.error.conflict));
    }
    var second := ReplayDigest(lib, events);
    if second.Err? || first.value != second.value {
      return Err(ReplaysDiffer);
    }
    r := Ok(Qualified(events,
          ImportReport(lib.sha256(content), lib.sha256(CanonicalLines(lib, events)), |events|,
                       formats, rejections, |rejections|, |sequences|, first.value)));
  }
}
