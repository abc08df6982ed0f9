/** The projector: `src/edge_evidence/projection.py`. */
module Projection {
  import opened Wrappers
  import opened JsonValues
  import opened Libraries
  import opened Events
  import opened Logs
  import opened Ledgers

  const PROJECTOR_VERSION := "1.0"

  /** A source's count and the event of its greatest sequence; times as rendered text. */
  datatype SourceState = SourceState(
    eventCount: nat,
    latestEventId: string,
    latestEventType: string,
    latestIngestedAt: string,
    latestObservedAt: string,
    latestPayload: Fields,
    latestSequence: int
  )

  datatype State = State(eventCount: nat, lastOrdinal: nat, sources: map<string, SourceState>)

  datatype ProjectionError = UnsupportedVersion | OrdinalsNotIncreasing

  function Latest(lib: Library, count: nat, e: Event): SourceState {
    SourceState(count, e.eventId, e.eventType, lib.formatUtc(e.ingestedAt), lib.formatUtc(e.observedAt),
                e.payload, e.sourceSequence)
  }

  /** One loop iteration on the `sources` dictionary. */
  function Absorb(lib: Library, sources: map<string, SourceState>, e: Event): map<string, SourceState> {
    if e.sourceId !in sources then sources[e.sourceId := Latest(lib, 1, e)]
    else
      var known := sources[e.sourceId];
      if e.sourceSequence > known.latestSequence
      then sources[e.sourceId := Latest(lib, known.eventCount + 1, e)]
      else sources[e.sourceId := known.(eventCount := known.eventCount + 1)]
  }

  function Sources(lib: Library, events: seq<Event>): map<string, SourceState> {
    if events == [] then map[]
    else Absorb(lib, Sources(lib, events[..|events| - 1]), events[|events| - 1])
  }

  function EventsOf(rows: seq<StoredEvent>): seq<Event> {
    seq(|rows|, i requires 0 <= i < |rows| => rows[i].event)
  }

  lemma RowsGiveLog(lib: Library, log: Log)
    ensures EventsOf(StoredRows(lib, log)) == log
  {
  }

  predicate Increasing(rows: seq<StoredEvent>) {
    && (forall i | 0 <= i < |rows| :: rows[i].ordinal > 0)
    && (forall i | 0 < i < |rows| :: rows[i - 1].ordinal < rows[i].ordinal)
  }

  /** What the projector computes of rows in increasing ordinal order. */
  function StateOf(lib: Library, rows: seq<StoredEvent>): State {
    State(|rows|, if rows == [] then 0 else rows[|rows| - 1].ordinal, Sources(lib, EventsOf(rows)))
  }

  /** `project_events`: one pass over the rows, failing closed on ordinals that do not increase. */
  method ProjectEvents(lib: Library, rows: seq<StoredEvent>, version: string)
    returns (r: Result<State, ProjectionError>)
    ensures version != PROJECTOR_VERSION ==> r == Err(UnsupportedVersion)
    ensures version == PROJECTOR_VERSION ==>
              r == if Increasing(rows) then Ok(StateOf(lib, rows)) else Err(OrdinalsNotIncreasing)
  {
    if version != PROJECTOR_VERSION {
      return Err(UnsupportedVersion);
    }
    hide Sources, Latest, EventsOf, Increasing;
    var sources: map<string, SourceState> := map[];
    var eventCount, lastOrdinal := 0, 0;
    NothingProjected(lib);
    for i := 0 to |rows|
      invariant Increasing(rows[..i])
      invariant eventCount == i && lastOrdinal == if i == 0 then 0 else rows[i - 1].ordinal
      invariant sources == Sources(lib, EventsOf(rows[..i]))
    {
      if rows[i].ordinal <= lastOrdinal {
        IncreasingFails(rows, i);
        return Err(OrdinalsNotIncreasing);
      }
      lastOrdinal := rows[i].ordinal;
      eventCount := eventCount + 1;
      var event := rows[i].event;
      assert rows[..i + 1] == rows[..i] + [rows[i]];
      IncreasingStep(rows[..i], rows[i]);
      SourcesStep(lib, rows[..i], rows[i]);
      if event.sourceId !in sources {
        sources := sources[event.sourceId := Latest(lib, 1, event)];
      } else {
        var source := sources[event.sourceId];
        source := source.(eventCount := source.eventCount + 1);
        if event.sourceSequence > source.latestSequence {
          source := Latest(lib, source.eventCount, event);
        }
        sources := sources[event.sourceId := source];
      }
    }
    assert rows[..|rows|] == rows;
    r := Ok(State(eventCount, lastOrdinal, sources));
  }

  lemma NothingProjected(lib: Library)
    ensures Increasing([]) && Sources(lib, EventsOf([])) == map[]
  {
  }

  lemma IncreasingStep(rows: seq<StoredEvent>, row: StoredEvent)
    requires Increasing(rows) && row.ordinal > (if rows == [] then 0 else rows[|rows| - 1].ordinal)
    ensures Increasing(rows + [row])
  {
  }

  lemma IncreasingFails(rows: seq<StoredEvent>, i: nat)
    requires i < |rows| && rows[i].ordinal <= if i == 0 then 0 else rows[i - 1].ordinal
    ensures !Increasing(rows)
  {
  }

  lemma SourcesStep(lib: Library, rows: seq<StoredEvent>, row: StoredEvent)
    ensures Sources(lib, EventsOf(rows + [row])) == Absorb(lib, Sources(lib, EventsOf(rows)), row.event)
  {
    assert EventsOf(rows + [row])[..|rows|] == EventsOf(rows);
  }

  /** `replay`: the projection of the whole ledger. */
  method Replay(ledger: EventLedger) returns (r: Result<State, ProjectionError>)
    requires ledger.Valid()
    ensures r == Ok(StateOf(ledger.lib, StoredRows(ledger.lib, ledger.log)))
  {
    hide LogOk, Stores;
    var rows := ledger.ReadEvents();
    assert Increasing(StoredRows(ledger.lib, ledger.log));
    r := ProjectEvents(ledger.lib, rows.value, PROJECTOR_VERSION);
  }

  function OfSource(events: seq<Event>, source: string): set<Event> {
    set e | e in events && e.sourceId == source
  }

  /** The event of a source that no other event of that source comes after. */
  ghost predicate IsLatest(events: seq<Event>, e: Event) {
    e in events && forall x | x in events && x.sourceId == e.sourceId :: x.sourceSequence <= e.sourceSequence
  }

  /** An entry that counts n events and shows the latest as this one, with its times rendered. */
  ghost predicate Shows(lib: Library, state: SourceState, n: nat, e: Event) {
    && state.eventCount == n
    && state.latestEventId == e.eventId && state.latestEventType == e.eventType
    && state.latestObservedAt == lib.formatUtc(e.observedAt) && state.latestIngestedAt == lib.formatUtc(e.ingestedAt)
    && state.latestPayload == e.payload && state.latestSequence == e.sourceSequence
  }

  lemma LatestShows(lib: Library, n: nat, e: Event)
    ensures Shows(lib, Latest(lib, n, e), n, e)
  {
  }

  /** What a projection says of one source, without reference to any order: as many events as the
      source has, and the one with the greatest sequence. */
  ghost predicate Summarises(lib: Library, events: seq<Event>, source: string, state: SourceState) {
    exists e :: IsLatest(events, e) && e.sourceId == source && Shows(lib, state, |OfSource(events, source)|, e)
  }

  ghost predicate SourcesOk(lib: Library, events: seq<Event>, sources: map<string, SourceState>) {
    && (forall e | e in events :: e.sourceId in sources)
    && (forall source | source in sources :: Summarises(lib, events, source, sources[source]))
  }

  /** The loop computes that summary for every source, over any order of distinct events. */
  lemma {:induction false} SourcesSummarise(lib: Library, events: seq<Event>)
    requires Unique(events)
    ensures SourcesOk(lib, events, Sources(lib, events))
  {
    hide Absorb, Summarises;
    if events != [] {
      var front, e := events[..|events| - 1], events[|events| - 1];
      SourcesSummarise(lib, front);
      assert events == front + [e];
      AbsorbSummarises(lib, front, e, Sources(lib, front));
    }
  }

  lemma AbsorbSummarises(lib: Library, front: seq<Event>, e: Event, sources: map<string, SourceState>)
    requires Unique(front + [e]) && SourcesOk(lib, front, sources)
    ensures SourcesOk(lib, front + [e], Absorb(lib, sources, e))
  {
    hide Summarises, Latest;
    var after := Absorb(lib, sources, e);
    forall source | source in after ensures Summarises(lib, front + [e], source, after[source]) {
      if source != e.sourceId {
        assert after[source] == sources[source];
        OtherSourceSummary(lib, front, e, source, sources[source]);
      } else if source !in sources {
        FirstSummary(lib, front, e);
      } else {
        NextSummary(lib, front, e, sources[source]);
      }
    }
  }

  lemma OtherSourceSummary(lib: Library, front: seq<Event>, e: Event, source: string, state: SourceState)
    requires source != e.sourceId && Summarises(lib, front, source, state)
    ensures Summarises(lib, front + [e], source, state)
  {
    var x :| IsLatest(front, x) && x.sourceId == source && Shows(lib, state, |OfSource(front, source)|, x);
    assert OfSource(front + [e], source) == OfSource(front, source);
    assert IsLatest(front + [e], x);
  }

  lemma FirstSummary(lib: Library, front: seq<Event>, e: Event)
    requires forall x | x in front :: x.sourceId != e.sourceId
    ensures Summarises(lib, front + [e], e.sourceId, Latest(lib, 1, e))
  {
    assert OfSource(front + [e], e.sourceId) == {e};
    assert IsLatest(front + [e], e);
  }

  lemma NextSummary(lib: Library, front: seq<Event>, e: Event, state: SourceState)
    requires Unique(front + [e]) && Summarises(lib, front, e.sourceId, state)
    ensures Summarises(lib, front + [e], e.sourceId,
              if e.sourceSequence > state.latestSequence then Latest(lib, state.eventCount + 1, e)
              else state.(eventCount := state.eventCount + 1))
  {
    var x :| IsLatest(front, x) && x.sourceId == e.sourceId
             && Shows(lib, state, |OfSource(front, e.sourceId)|, x);
    NotAmongEarlier(front, e);
    CountsOneMore(front, e);
    LatestOfMore(front, e, x);
  }

  lemma CountsOneMore(front: seq<Event>, e: Event)
    requires e !in front
    ensures |OfSource(front + [e], e.sourceId)| == |OfSource(front, e.sourceId)| + 1
  {
    assert OfSource(front + [e], e.sourceId) == OfSource(front, e.sourceId) + {e};
  }

  lemma LatestOfMore(front: seq<Event>, e: Event, x: Event)
    requires IsLatest(front, x) && x.sourceId == e.sourceId
    ensures IsLatest(front + [e], if e.sourceSequence > x.sourceSequence then e else x)
  {
  }

  lemma NotAmongEarlier(front: seq<Event>, e: Event)
    requires Unique(front + [e])
    ensures e !in front
  {
    forall i | 0 <= i < |front| ensures front[i] != e {
      assert (front + [e])[i] == front[i] && (front + [e])[|front|] == e;
    }
  }

  /** Only one event can be the latest of its source. */
  lemma LatestIsUnique(events: seq<Event>, a: Event, b: Event)
    requires Unique(events) && IsLatest(events, a) && IsLatest(events, b) && a.sourceId == b.sourceId
    ensures a == b
  {
    var i :| 0 <= i < |events| && events[i] == a;
    var j :| 0 <= j < |events| && events[j] == b;
    assert SamePosition(events[i], events[j]) && SamePosition(events[j], events[i]);
  }

  lemma SummaryDetermined(lib: Library, events: seq<Event>, other: seq<Event>, source: string, a: SourceState,
                          b: SourceState)
    requires Unique(events) && (forall x :: x in events <==> x in other)
    requires Summarises(lib, events, source, a) && Summarises(lib, other, source, b)
    ensures a == b
  {
    var x :| IsLatest(events, x) && x.sourceId == source && Shows(lib, a, |OfSource(events, source)|, x);
    var y :| IsLatest(other, y) && y.sourceId == source && Shows(lib, b, |OfSource(other, source)|, y);
    assert OfSource(events, source) == OfSource(other, source);
    assert IsLatest(events, y);
    LatestIsUnique(events, x, y);
  }

  lemma SameEventsSameLength(log: Log, other: Log)
    requires Unique(log) && Unique(other) && forall x :: x in log <==> x in other
    ensures |log| == |other|
  {
    IdsCountRows(log);
    IdsCountRows(other);
    assert Ids(log) == Ids(other);
  }

  /** Two ledgers with the same events, whatever order and batches they arrived in, replay to the
      same state, last ordinal included. */
  lemma ReplayIgnoresArrivalOrder(lib: Library, log: Log, other: Log)
    requires LogOk(log) && LogOk(other) && forall x :: x in log <==> x in other
    ensures StateOf(lib, StoredRows(lib, log)) == StateOf(lib, StoredRows(lib, other))
  {
    hide AllValid, AllStorable, Unique, Sources;
    SameEventsSameLength(log, other);
    SourcesIgnoreOrder(lib, log, other);
    StateOfRows(lib, log);
    StateOfRows(lib, other);
  }

  lemma StateOfRows(lib: Library, log: Log)
    ensures StateOf(lib, StoredRows(lib, log)) == State(|log|, |log|, Sources(lib, log))
  {
    RowsGiveLog(lib, log);
  }

  /** The `sources` dictionary depends on which distinct events were projected, not on their order. */
  lemma SourcesIgnoreOrder(lib: Library, events: seq<Event>, other: seq<Event>)
    requires Unique(events) && Unique(other) && forall x :: x in events <==> x in other
    ensures Sources(lib, events) == Sources(lib, other)
  {
    hide Unique, Sources, Summarises;
    var a, b := Sources(lib, events), Sources(lib, other);
    SourcesSummarise(lib, events);
    SourcesSummarise(lib, other);
    forall source ensures source in a <==> source in b {
      if source in a { SummarisedHasEvent(lib, events, source, a[source]); }
      if source in b { SummarisedHasEvent(lib, other, source, b[source]); }
    }
    forall source | source in a ensures a[source] == b[source] {
      SummaryDetermined(lib, events, other, source, a[source], b[source]);
    }
  }

  lemma SummarisedHasEvent(lib: Library, events: seq<Event>, source: string, state: SourceState)
    requires Summarises(lib, events, source, state)
    ensures exists e :: e in events && e.sourceId == source
  {
    var e :| IsLatest(events, e) && e.sourceId == source && Shows(lib, state, |OfSource(events, source)|, e);
  }

  /** In particular, any two ways of committing the same batches of events from an empty ledger. */
  lemma BatchingIsInvisible(lib: Library, batch: seq<Event>, other: seq<Event>)
    requires AllValid(batch) && AllValid(other) && forall x :: x in batch <==> x in other
    requires Batch([], batch).Committed?
    ensures Batch([], other).Committed?
    ensures StateOf(lib, StoredRows(lib, Batch([], batch).log)) == StateOf(lib, StoredRows(lib, Batch([], other).log))
  {
    assert LogOk([]);
    BatchOrderIrrelevant([], batch, other);
    BatchRows([], batch);
    BatchRows([], other);
    ReplayIgnoresArrivalOrder(lib, Batch([], batch).log, Batch([], other).log);
  }
}
