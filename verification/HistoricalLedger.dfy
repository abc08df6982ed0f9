/** A historical import fits a ledger (`src/edge_evidence/historical.py:180-251`). */
module HistoricalLedger {
  import opened Wrappers
  import opened JsonValues
  import opened Libraries
  import opened Events
  import opened Logs
  import opened Ledgers
  import opened QualityRules
  import opened QualityProperties
  import opened FindingIdentity
  import opened Historical
  import opened HistoricalProperties
  import Campaigns
  import Sorting
  import Streams
  import Text

  // ---- Counting within a stream ----

  lemma {:induction false} CountAtMost(streams: seq<string>, stream: string)
    ensures multiset(streams)[stream] <= |streams|
  {
    if streams != [] {
      CountAtMost(streams[..|streams| - 1], stream);
      assert streams == streams[..|streams| - 1] + [streams[|streams| - 1]];
    }
  }

  lemma CountGrows(streams: seq<string>, i: nat, j: nat)
    requires i < j <= |streams|
    ensures multiset(streams[..i])[streams[i]] < multiset(streams[..j])[streams[i]]
  {
    assert streams[..j] == streams[..i] + [streams[i]] + streams[i + 1..j];
  }

  /** Every count below the total is reached at an occurrence. */
  lemma {:induction false} CountReached(streams: seq<string>, stream: string, n: nat) returns (k: nat)
    requires n < multiset(streams)[stream]
    ensures k < |streams| && streams[k] == stream && multiset(streams[..k])[stream] == n
  {
    var front := streams[..|streams| - 1];
    assert streams == front + [streams[|streams| - 1]];
    if n < multiset(front)[stream] {
      k := CountReached(front, stream, n);
      assert front[..k] == streams[..k];
    } else {
      k := |front|;
      assert streams[..k] == front;
    }
  }

  // ---- Ledger compatibility ----

  /** No two streams share a source pseudonym. */
  ghost predicate DistinctPseudonyms(events: seq<Event>, streams: seq<string>)
    requires |events| == |streams|
  {
    forall i, j | 0 <= i < |events| && 0 <= j < |events| && events[i].sourceId == events[j].sourceId ::
      streams[i] == streams[j]
  }

  lemma LaterIsHigher(lib: Library, config: Config, events: seq<Event>, streams: seq<string>, i: nat, j: nat)
    requires Positioned(lib, config, events, streams) && i < j < |events| && streams[i] == streams[j]
    ensures events[i].sourceSequence < events[j].sourceSequence
  {
    CountGrows(streams, i, j);
  }

  lemma PositionsFit(lib: Library, config: Config, events: seq<Event>, streams: seq<string>)
    requires Positioned(lib, config, events, streams) && |events| <= SEQUENCE_LIMIT
    ensures AllStorable(events)
  {
    forall k | 0 <= k < |events| ensures Storable(events[k]) {
      CountAtMost(streams[..k], streams[k]);
    }
  }

  lemma DistinctPseudonymsAreUnique(lib: Library, config: Config, events: seq<Event>, streams: seq<string>)
    requires Positioned(lib, config, events, streams) && DistinctEventIds(events) && DistinctPseudonyms(events, streams)
    ensures Unique(events)
  {
    forall i, j | 0 <= i < j < |events| ensures !SamePosition(events[i], events[j]) {
      if events[i].sourceId == events[j].sourceId {
        LaterIsHigher(lib, config, events, streams, i, j);
      }
    }
  }

  /** Two streams that collide both have a first event, and those two claim one position. */
  lemma CollisionConflicts(lib: Library, config: Config, events: seq<Event>, streams: seq<string>)
    requires Positioned(lib, config, events, streams) && DistinctEventIds(events)
             && !DistinctPseudonyms(events, streams)
    ensures !PairwiseCompatible(events)
  {
    var i, j :| 0 <= i < |events| && 0 <= j < |events| && events[i].sourceId == events[j].sourceId
      && streams[i] != streams[j];
    var a := FirstOf(streams, i);
    var b := FirstOf(streams, j);
    assert a != b && events[a].eventId != events[b].eventId;
    assert SamePosition(events[a], events[b]);
    assert events[a] in events && events[b] in events && !Compatible(events[a], events[b]);
  }

  lemma FirstOf(streams: seq<string>, i: nat) returns (k: nat)
    requires i < |streams|
    ensures k < |streams| && streams[k] == streams[i] && multiset(streams[..k])[streams[i]] == 0
  {
    assert streams[i] in streams;
    assert multiset(streams)[streams[i]] > 0;
    k := CountReached(streams, streams[i], 0);
  }

  /** A fresh ledger takes an import exactly when no two of its streams share a pseudonym. */
  lemma LedgerTakesImportIff(lib: Library, config: Config, lines: seq<Bytes>)
    requires config.importedAt.Utc? && ImportLines(lib, config, lines).Some? && |lines| <= SEQUENCE_LIMIT
    ensures var s := ImportLines(lib, config, lines).value;
            |s.events| == |s.streams| && (Batch([], s.events).Committed? <==> DistinctPseudonyms(s.events, s.streams))
  {
    hide ImportLines, Positioned, DistinctEventIds, Counted, AllValid, Batch, DistinctPseudonyms, AllStorable,
         PairwiseCompatible;
    var s := ImportLines(lib, config, lines).value;
    ImportIsGood(lib, config, lines);
    assert |s.events| == |s.streams| by { SameLength(lib, config, s.events, s.streams); }
    PositionsFit(lib, config, s.events, s.streams);
    assert LogOk([]) by { EmptyLogOk(); }
    BatchCommitsIff([], s.events);
    assert [] + s.events == s.events;
    if DistinctPseudonyms(s.events, s.streams) {
      DistinctPseudonymsAreUnique(lib, config, s.events, s.streams);
      UniqueIsCompatible(s.events);
    } else {
      CollisionConflicts(lib, config, s.events, s.streams);
    }
  }

  lemma SameLength(lib: Library, config: Config, events: seq<Event>, streams: seq<string>)
    requires Positioned(lib, config, events, streams)
    ensures |events| == |streams|
  {
  }

  /** A batch of distinct identities that commits to an empty ledger is the ledger, all of it ACCEPTED. */
  lemma {:induction false} AllAccepted(events: seq<Event>)
    requires DistinctEventIds(events) && Batch([], events).Committed?
    ensures Batch([], events).log == events
    ensures forall k | 0 <= k < |events| :: Batch([], events).receipts[k] == Receipt(Accepted, k + 1)
  {
    if events != [] {
      var front, e := events[..|events| - 1], events[|events| - 1];
      AllAccepted(front);
      assert IdIndex(front, e.eventId) == |front|;
      assert events == front + [e];
    }
  }

  // ---- Quality of an import ----

  lemma ImportInOrder(lib: Library, config: Config, events: seq<Event>, streams: seq<string>)
    requires Positioned(lib, config, events, streams) && DistinctPseudonyms(events, streams)
    ensures Streams.OutOfOrder(events) == {}
  {
    forall k | 0 <= k < |events| ensures !Streams.NotAbove(events, k) {
      forall j | 0 <= j < k && events[j].sourceId == events[k].sourceId
        ensures events[j].sourceSequence < events[k].sourceSequence
      {
        LaterIsHigher(lib, config, events, streams, j, k);
      }
    }
  }

  /** A source that has a position has every position below it. */
  lemma PositionsBelow(lib: Library, config: Config, events: seq<Event>, streams: seq<string>, e: Event, p: int)
    returns (x: Event)
    requires Positioned(lib, config, events, streams) && e in events && 0 <= p <= e.sourceSequence
    ensures x in events && x.sourceId == e.sourceId && x.sourceSequence == p
  {
    var k :| 0 <= k < |events| && events[k] == e;
    if p == e.sourceSequence {
      x := e;
    } else {
      var i := CountReached(streams[..k], streams[k], p);
      assert streams[..k][..i] == streams[..i];
      x := events[i];
    }
  }

  /** Where there is a gap, a position between the extremes is missing. */
  lemma GapMeansMissing(ordered: seq<StoredEvent>)
    requires StrictlyProduced(ordered) && ordered != [] && GapPairs(ordered) != []
    ensures var p := GapPairs(ordered)[0].0.event.sourceSequence + 1;
            First(ordered) <= p <= Last(ordered) && !Present(ordered, p)
  {
    hide GapPairs;
    var pair := GapPairs(ordered)[0];
    GapsWithin(ordered);
    GapPairsAreGaps(ordered, 0);
    GapsPartitionMissing(ordered, pair.0.event.sourceSequence + 1);
  }

  lemma {:induction false} GapPairsAreGaps(ordered: seq<StoredEvent>, k: nat)
    requires k < |GapPairs(ordered)|
    ensures Covers(GapPairs(ordered)[k], GapPairs(ordered)[k].0.event.sourceSequence + 1)
  {
    if |ordered| >= 2 {
      var front := ordered[..|ordered| - 1];
      if k < |GapPairs(front)| {
        GapPairsAreGaps(front, k);
      }
    }
  }

  lemma ImportHasNoGaps(lib: Library, config: Config, events: seq<Event>, streams: seq<string>, source: string)
    requires Positioned(lib, config, events, streams) && Unique(events) && AllValid(events)
    ensures GapPairs(Produced(StoredRows(lib, events), source)) == []
  {
    hide StoredRows, Produced, GapPairs, Positioned, Unique, Present, Events.Identifier;
    var ordered := Produced(StoredRows(lib, events), source);
    LedgerRowsDistinct(lib, events);
    ProducedIsStrict(StoredRows(lib, events), source);
    if GapPairs(ordered) != [] {
      NonEmptyProduced(ordered);
      GapMeansMissing(ordered);
      var p := GapPairs(ordered)[0].0.event.sourceSequence + 1;
      var last := ordered[|ordered| - 1].event;
      AllPositionsPresent(lib, config, events, streams, source, p);
    }
  }

  lemma NonEmptyProduced(ordered: seq<StoredEvent>)
    ensures GapPairs(ordered) != [] ==> ordered != []
  {
  }

  lemma AllPositionsPresent(lib: Library, config: Config, events: seq<Event>, streams: seq<string>, source: string,
                            p: int)
    requires Positioned(lib, config, events, streams) && Unique(events) && AllValid(events)
    requires Produced(StoredRows(lib, events), source) != []
    requires var ordered := Produced(StoredRows(lib, events), source); First(ordered) <= p <= Last(ordered)
    ensures Present(Produced(StoredRows(lib, events), source), p)
  {
    hide StoredRows, Produced, Positioned, Unique, Events.Identifier;
    var ordered := Produced(StoredRows(lib, events), source);
    var first, last := ordered[0].event, ordered[|ordered| - 1].event;
    assert Has(ordered, first) && Has(ordered, last);
    ProducedEvents(lib, events, source, first);
    ProducedEvents(lib, events, source, last);
    var x := PositionsBelow(lib, config, events, streams, last, p);
    ProducedEvents(lib, events, source, x);
  }

  lemma {:induction false} SourcesWithoutGaps(lib: Library, policy: Policy, asOf: int, rows: seq<StoredEvent>,
                                              sources: seq<string>)
    requires forall source :: GapPairs(Produced(rows, source)) == []
    ensures forall f | f in AllSourceFindings(lib, policy, asOf, rows, sources) :: !f.rule.SequenceGap?
  {
    hide Produced, GapPairs;
    if sources != [] {
      SourcesWithoutGaps(lib, policy, asOf, rows, sources[..|sources| - 1]);
      OnlyRunsAndStale(lib, policy, asOf, sources[|sources| - 1], Produced(rows, sources[|sources| - 1]));
    }
  }

  lemma OnlyRunsAndStale(lib: Library, policy: Policy, asOf: int, source: string, ordered: seq<StoredEvent>)
    requires GapPairs(ordered) == []
    ensures forall f | f in SourceFindings(lib, policy, asOf, source, ordered) :: !f.rule.SequenceGap?
  {
    hide GapPairs;
    RunFindingIff(lib, policy, source, PayloadRuns(ordered));
  }

  /** An import that a ledger takes evaluates, under any policy and at any time, without a sequence gap
      and without a sequence regression. */
  lemma ImportHasNoSequenceFindings(lib: Library, config: Config, lines: seq<Bytes>, policy: Policy, asOf: int,
                                    f: Finding)
    requires lib.Lawful() && config.importedAt.Utc? && ImportLines(lib, config, lines).Some?
             && |lines| <= SEQUENCE_LIMIT
    ensures var t := Batch([], ImportLines(lib, config, lines).value.events);
            t.Committed? && f in Evaluate(lib, policy, asOf, StoredRows(lib, t.log)) ==>
              !f.rule.SequenceGap? && !f.rule.SequenceRegression?
  {
    hide ImportLines, Positioned, DistinctEventIds, Counted, Batch, DistinctPseudonyms, StoredRows, Evaluate;
    var s := ImportLines(lib, config, lines).value;
    if Batch([], s.events).Committed? {
      ImportIsGood(lib, config, lines);
      LedgerTakesImportIff(lib, config, lines);
      DistinctPseudonymsAreUnique(lib, config, s.events, s.streams);
      AllAccepted(s.events);
      if f in Evaluate(lib, policy, asOf, StoredRows(lib, s.events)) {
        ImportInOrder(lib, config, s.events, s.streams);
        NoRegressionFinding(lib, policy, asOf, s.events, f);
        forall source ensures GapPairs(Produced(StoredRows(lib, s.events), source)) == [] {
          ImportHasNoGaps(lib, config, s.events, s.streams, source);
        }
        NoGapFinding(lib, policy, asOf, s.events, f);
      }
    }
  }

  lemma NoRegressionFinding(lib: Library, policy: Policy, asOf: int, log: Log, f: Finding)
    requires lib.Lawful() && Unique(log) && Streams.OutOfOrder(log) == {}
             && f in Evaluate(lib, policy, asOf, StoredRows(lib, log))
    ensures !f.rule.SequenceRegression?
  {
    hide StoredRows, Evaluate, Unique, Streams.OutOfOrder;
    Campaigns.EvaluationNames(lib, policy, asOf, log);
    FindingsAreSupported(lib, policy, asOf, StoredRows(lib, log));
    var supporting :| SupportedBy(lib, StoredRows(lib, log), f, supporting);
    SubjectOf(Evaluate(lib, policy, asOf, StoredRows(lib, log)), f);
  }

  lemma SubjectOf(findings: seq<Finding>, f: Finding)
    requires f in findings && f.eventIds != []
    ensures Campaigns.Subjects(findings, f.rule) != {}
  {
    assert f.eventIds[|f.eventIds| - 1] in Campaigns.Subjects(findings, f.rule);
  }

  lemma NoGapFinding(lib: Library, policy: Policy, asOf: int, log: Log, f: Finding)
    requires Unique(log) && f in Evaluate(lib, policy, asOf, StoredRows(lib, log))
    requires forall source :: GapPairs(Produced(StoredRows(lib, log), source)) == []
    ensures !f.rule.SequenceGap?
  {
    hide StoredRows, AppendFindings, AllSourceFindings, GapPairs, Produced, Unique, DistinctRows;
    var rows := StoredRows(lib, log);
    LedgerRowsDistinct(lib, log);
    assert DistinctOrdinals(rows) by { RowsHaveDistinctOrdinals(rows); }
    AppendKeyed(lib, policy, rows);
    SourcesWithoutGaps(lib, policy, asOf, rows, Text.Sorted(SourceIds(rows)));
    Sorting.SortMembers(ById, AllFindings(lib, policy, asOf, rows));
  }

  lemma RowsHaveDistinctOrdinals(rows: seq<StoredEvent>)
    requires DistinctRows(rows)
    ensures DistinctOrdinals(rows)
  {
  }

  // ---- The report ----

  /** The loop reaches the end exactly when no line but a blank one fails to decode. */
  lemma {:induction false} DecodableIff(lib: Library, config: Config, lines: seq<Bytes>)
    requires config.importedAt.Utc?
    ensures ImportLines(lib, config, lines).Some?
       <==> forall line | line in lines && !Blank(line) :: !lib.loads(line).Undecodable?
  {
    hide Blank, ImportRecord, Reject;
    if lines != [] {
      var front, line := lines[..|lines| - 1], lines[|lines| - 1];
      DecodableIff(lib, config, front);
      assert lines == front + [line];
    }
  }

  /** An import is qualified exactly when its file is UTF-8 throughout and no two streams share a pseudonym. */
  lemma QualifiesIff(lib: Library, config: Config, content: Bytes)
    requires config.importedAt.Utc? && |LinesOf(content)| <= SEQUENCE_LIMIT
    ensures var lines, s := LinesOf(content), ImportLines(lib, config, LinesOf(content));
            Qualify(lib, config, content).Ok? <==>
              && (forall line | line in lines && !Blank(line) :: !lib.loads(line).Undecodable?)
              && s.Some? && |s.value.events| == |s.value.streams|
              && DistinctPseudonyms(s.value.events, s.value.streams)
  {
    hide ImportLines, LinesOf, Batch, StateDigest, CanonicalLines, DistinctPseudonyms, Blank;
    DecodableIff(lib, config, LinesOf(content));
    if ImportLines(lib, config, LinesOf(content)).Some? {
      LedgerTakesImportIff(lib, config, LinesOf(content));
    }
  }

  /** What the report of a qualified import says: every line is an event or a rejection; every event has
      one format; and at least as many sources are counted as have events. */
  lemma ReportAddsUp(lib: Library, config: Config, content: Bytes)
    requires config.importedAt.Utc?
    ensures var qualified, s := Qualify(lib, config, content), ImportLines(lib, config, LinesOf(content));
            qualified.Ok? ==>
              var q := qualified.value;
              && q.report.eventCount == |q.events| && q.report.rejectionCount == |q.report.rejectionCounts|
              && q.report.eventCount + q.report.rejectionCount == |LinesOf(content)|
              && |q.report.formatCounts| == q.report.eventCount
              && DistinctEventIds(q.events)
              && s.Some? && |set stream | stream in s.value.streams| <= q.report.sourceCount
  {
    hide ImportLines, LinesOf, Batch, StateDigest, CanonicalLines, Positioned, DistinctEventIds, AllValid;
    if Qualify(lib, config, content).Ok? {
      var s := ImportLines(lib, config, LinesOf(content)).value;
      ImportIsGood(lib, config, LinesOf(content));
      var used := set stream | stream in s.streams;
      assert used <= s.sequences.Keys;
      SubsetCount(used, s.sequences.Keys);
      assert |s.sequences| == |s.sequences.Keys|;
    }
  }

  // ---- The number of sources ----

  /** A record of known shape and fresh identity whose source and channel are text: its stream is looked up. */
  datatype Lookup = Lookup(record: Fields, shape: Shape, stream: string)

  function RecordLookup(lib: Library, config: Config, seen: set<string>, record: Fields): Option<Lookup> {
    var id, shape := Get(record, "event_id"), ShapeOf(record);
    if !id.Str? || id.s == "" || Pseudonym(lib, config.key, "evt", id.s) in seen || shape.None? then None
    else
      var source, channel := Get(record, "source"), Get(record, TypeField(shape.value));
      if !source.Str? || !channel.Str? then None
      else Some(Lookup(record, shape.value, Stream(source.s, channel.s)))
  }

  function LookupOf(lib: Library, config: Config, seen: set<string>, line: Bytes): Option<Lookup> {
    if Blank(line) || !lib.loads(line).Value? || !lib.loads(line).json.Obj? then None
    else RecordLookup(lib, config, seen, lib.loads(line).json.fields)
  }

  /** Line i reaches the lookup of a stream. */
  ghost predicate LooksUp(lib: Library, config: Config, lines: seq<Bytes>, i: nat, stream: string)
    requires config.importedAt.Utc?
  {
    && i < |lines| && ImportLines(lib, config, lines[..i]).Some?
    && var l := LookupOf(lib, config, ImportLines(lib, config, lines[..i]).value.seen, lines[i]);
       l.Some? && l.value.stream == stream
  }

  /** And its record is accepted there. */
  ghost predicate TakesIn(lib: Library, config: Config, lines: seq<Bytes>, i: nat, stream: string)
    requires config.importedAt.Utc?
  {
    && LooksUp(lib, config, lines, i, stream)
    && var s := ImportLines(lib, config, lines[..i]).value;
       var l := LookupOf(lib, config, s.seen, lines[i]).value;
       MapRecord(lib, config, l.record, l.shape, stream, Counter(s, stream)).Ok?
  }

  /** What a lookup, or none, does to the counters and to the streams with events. */
  ghost predicate Follows(lib: Library, config: Config, s: Import, t: Import, l: Option<Lookup>)
    requires config.importedAt.Utc?
  {
    if l.None? then t.sequences == s.sequences && t.streams == s.streams
    else
      var stream := l.value.stream;
      var taken := MapRecord(lib, config, l.value.record, l.value.shape, stream, Counter(s, stream)).Ok?;
      && t.sequences.Keys == s.sequences.Keys + {stream}
      && t.streams == s.streams + (if taken then [stream] else [])
  }

  lemma LineLooksUp(lib: Library, config: Config, s: Import, line: Bytes)
    requires config.importedAt.Utc? && ImportLine(lib, config, s, line).Some?
    ensures Follows(lib, config, s, ImportLine(lib, config, s, line).value, LookupOf(lib, config, s.seen, line))
  {
    hide ImportRecord, RecordLookup, Blank, MapRecord, Reject;
    RejectKeepsStreams(s);
    if !Blank(line) && lib.loads(line).Value? && lib.loads(line).json.Obj? {
      RecordLooksUp(lib, config, s, lib.loads(line).json.fields);
    }
  }

  lemma RecordLooksUp(lib: Library, config: Config, s: Import, record: Fields)
    requires config.importedAt.Utc?
    ensures Follows(lib, config, s, ImportRecord(lib, config, s, record), RecordLookup(lib, config, s.seen, record))
  {
    hide ImportShaped, Pseudonym, Get, ShapeOf, Stream, TypeField, MapRecord, Counter, Reject;
    RejectKeepsStreams(s);
    if ShapeOf(record).Some? {
      ShapedLooksUp(lib, config, s, record, ShapeOf(record).value);
    }
  }

  lemma RejectKeepsStreams(s: Import)
    ensures forall reason :: Reject(s, reason).sequences == s.sequences && Reject(s, reason).streams == s.streams
  {
  }

  lemma ShapedLooksUp(lib: Library, config: Config, s: Import, record: Fields, shape: Shape)
    requires config.importedAt.Utc?
    ensures var t := ImportShaped(lib, config, s, record, shape);
            var source, channel := Get(record, "source"), Get(record, TypeField(shape));
            if source.Str? && channel.Str? then
              var stream := Stream(source.s, channel.s);
              var taken := MapRecord(lib, config, record, shape, stream, Counter(s, stream)).Ok?;
              && t.sequences.Keys == s.sequences.Keys + {stream}
              && t.streams == s.streams + (if taken then [stream] else [])
            else t.sequences == s.sequences && t.streams == s.streams
  {
    hide MapRecord, Get, Stream, TypeField;
  }

  /** The streams entered are those looked up; the streams with events are those that took a record in. */
  lemma {:induction false} StreamsAre(lib: Library, config: Config, lines: seq<Bytes>)
    requires config.importedAt.Utc? && ImportLines(lib, config, lines).Some?
    ensures var s := ImportLines(lib, config, lines).value;
            forall stream ::
              && (stream in s.sequences <==> exists i :: LooksUp(lib, config, lines, i, stream))
              && (stream in s.streams <==> exists i :: TakesIn(lib, config, lines, i, stream))
  {
    hide ImportLine, LookupOf, MapRecord;
    if lines != [] {
      var n := |lines| - 1;
      StreamsAre(lib, config, lines[..n]);
      LineLooksUp(lib, config, ImportLines(lib, config, lines[..n]).value, lines[n]);
      forall stream
        ensures stream in ImportLines(lib, config, lines).value.sequences
           <==> exists i :: LooksUp(lib, config, lines, i, stream)
        ensures stream in ImportLines(lib, config, lines).value.streams
           <==> exists i :: TakesIn(lib, config, lines, i, stream)
      {
        LookupsExtend(lib, config, lines, stream);
      }
    }
  }

  lemma LookupsExtend(lib: Library, config: Config, lines: seq<Bytes>, stream: string)
    requires config.importedAt.Utc? && lines != []
    ensures var n := |lines| - 1;
            && ((exists i :: LooksUp(lib, config, lines, i, stream))
                <==> ((exists i :: LooksUp(lib, config, lines[..n], i, stream))
                      || LooksUp(lib, config, lines, n, stream)))
            && ((exists i :: TakesIn(lib, config, lines, i, stream))
                <==> ((exists i :: TakesIn(lib, config, lines[..n], i, stream))
                      || TakesIn(lib, config, lines, n, stream)))
  {
    hide ImportLines, LookupOf, MapRecord;
    var n := |lines| - 1;
    forall i: nat | i < n
      ensures LooksUp(lib, config, lines, i, stream) <==> LooksUp(lib, config, lines[..n], i, stream)
      ensures TakesIn(lib, config, lines, i, stream) <==> TakesIn(lib, config, lines[..n], i, stream)
    {
      assert lines[..n][..i] == lines[..i] && lines[..n][i] == lines[i];
    }
  }

  lemma SubsetCount(a: set<string>, b: set<string>)
    requires a <= b
    ensures |a| <= |b|
  {
    assert b == a + (b - a);
  }

  lemma SubsetCountsEqual(a: set<string>, b: set<string>)
    requires a <= b
    ensures |a| == |b| <==> a == b
  {
    assert b == a + (b - a);
  }

  /** The sources counted are exactly the streams with events if and only if every stream that a record
      was looked up in also took a record in. */
  lemma SourceCountIff(lib: Library, config: Config, content: Bytes)
    requires config.importedAt.Utc?
    ensures var lines := LinesOf(content);
            var qualified, s := Qualify(lib, config, content), ImportLines(lib, config, lines);
            qualified.Ok? ==>
              && s.Some?
              && (qualified.value.report.sourceCount == |set stream | stream in s.value.streams|
                  <==> forall i, stream | LooksUp(lib, config, lines, i, stream) ::
                         exists k :: TakesIn(lib, config, lines, k, stream))
  {
    hide ImportLines, LinesOf, Batch, StateDigest, CanonicalLines, LooksUp, TakesIn, Good;
    var lines := LinesOf(content);
    if Qualify(lib, config, content).Ok? {
      var s := ImportLines(lib, config, lines).value;
      StreamsAre(lib, config, lines);
      ImportIsGood(lib, config, lines);
      UsedAreCounted(lib, config, s, |lines|);
      var used := set stream | stream in s.streams;
      SubsetCountsEqual(used, s.sequences.Keys);
      assert |s.sequences| == |s.sequences.Keys|;
      if used == s.sequences.Keys {
        forall i, stream | LooksUp(lib, config, lines, i, stream)
          ensures exists k :: TakesIn(lib, config, lines, k, stream)
        {
          assert stream in s.sequences.Keys;
          assert stream in s.streams;
        }
      }
      if forall i, stream | LooksUp(lib, config, lines, i, stream) ::
           exists k :: TakesIn(lib, config, lines, k, stream)
      {
        forall stream | stream in s.sequences ensures stream in used {
          var i :| LooksUp(lib, config, lines, i, stream);
        }
      }
    }
  }

  lemma UsedAreCounted(lib: Library, config: Config, s: Import, lines: nat)
    requires Good(lib, config, s, lines)
    ensures forall stream | stream in s.streams :: stream in s.sequences
  {
  }

  /** A control record whose source is empty text. */
  const SOURCELESS := map[
    "event_id" := Str("a"), "signal" := Null, "source" := Str(""), "ts_utc" := Str("x"), "type" := Str("t")
  ]

  lemma SourcelessRecord(lib: Library, config: Config)
    requires config.importedAt.Utc?
    ensures ShapeOf(SOURCELESS) == Some(Control) && Finite(Obj(SOURCELESS))
    ensures Get(SOURCELESS, "event_id") == Str("a") && Get(SOURCELESS, "source") == Str("")
    ensures Get(SOURCELESS, TypeField(Control)) == Str("t")
    ensures MapRecord(lib, config, SOURCELESS, Control, Stream("", "t"), 0) == Err("invalid_" + "source")
  {
    hide MapRecord, Stream;
    assert SOURCELESS.Keys == CONTROL_FIELDS;
    assert "sensor" !in SOURCELESS.Keys;
    EmptySourceIsBad(lib, config, SOURCELESS, Control, Stream("", "t"));
  }

  lemma EmptySourceIsBad(lib: Library, config: Config, record: Fields, shape: Shape, stream: string)
    requires config.importedAt.Utc?
    requires Get(record, "event_id").Str? && Get(record, "event_id").s != "" && Get(record, "source") == Str("")
    ensures MapRecord(lib, config, record, shape, stream, 0) == Err("invalid_" + "source")
  {
    hide FromMapping, Mapped;
  }

  lemma OneLineIsLine(b: Bytes)
    requires OneLine(b) && b != []
    ensures LinesOf(b) == [b]
  {
    WholeLine(b);
    assert b[..|b|] == b && b[|b|..] == [];
    assert SplitBytes(b) == [b];
  }

  lemma {:induction false} WholeLine(b: Bytes)
    requires OneLine(b)
    ensures FirstLine(b) == |b|
  {
    if b != [] { WholeLine(b[1..]); }
  }

  /** The count can exceed the streams with events: the one record of this file is rejected for its empty
      source, but only after its stream was looked up, so a source without any event is counted. */
  lemma RejectedSourceIsCounted(lib: Library, config: Config)
    requires lib.Lawful() && config.importedAt.Utc?
    ensures var q := Qualify(lib, config, lib.encode(Obj(SOURCELESS)));
            && q.Ok? && q.value.events == []
            && q.value.report.eventCount == 0 && q.value.report.rejectionCounts == multiset{"invalid_" + "source"}
            && q.value.report.rejectionCount == 1 && q.value.report.sourceCount == 1
  {
    hide MapRecord, Get, Stream, ShapeOf, Pseudonym, Blank, StateDigest, CanonicalLines, SplitBytes, LinesOf;
    var line := lib.encode(Obj(SOURCELESS));
    SourcelessRecord(lib, config);
    lib.DecodesBack(Obj(SOURCELESS));
    assert line != [] by { NotBlankNotEmpty(line); }
    OneLineIsLine(line);
    assert [line][..0] == [];
    assert ImportLines(lib, config, []) == Some(NOTHING);
    assert ImportLines(lib, config, [line]) == Some(ImportShaped(lib, config, NOTHING, SOURCELESS, Control));
    assert |NOTHING.sequences[Stream("", "t") := 0]| == 1;
  }

  lemma NotBlankNotEmpty(b: Bytes)
    requires !Blank(b)
    ensures b != []
  {
  }
}
