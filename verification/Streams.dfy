/** The stateless stream inspector: `src/edge_evidence/stream.py`. */
module Streams {
  import opened Wrappers
  import opened JsonValues
  import opened Libraries
  import opened Events
  import opened Logs

  const INVALID_EVENT := "invalid_event"
  const DUPLICATE_EVENT_ID := "duplicate_event_id"
  const SEQUENCE_REGRESSION := "source_sequence_regression"
  const DELAYED_ARRIVAL := "delayed_arrival"

  datatype StreamFinding = StreamFinding(code: string, recordIndex: nat, eventId: Option<string>)

  /** The events of the records that validate. */
  function EventsIn(lib: Library, records: seq<Json>): seq<Event> {
    if records == [] then []
    else
      var before := EventsIn(lib, records[..|records| - 1]);
      match FromMapping(lib, records[|records| - 1])
      case Err(_) => before
      case Ok(e) => before + [e]
  }

  /** The first event of each identity. */
  function Firsts(events: seq<Event>): seq<Event> {
    if events == [] then []
    else
      var before, e := Firsts(events[..|events| - 1]), events[|events| - 1];
      if e.eventId in Ids(before) then before else before + [e]
  }

  function Uniques(lib: Library, records: seq<Json>): seq<Event> {
    Firsts(EventsIn(lib, records))
  }

  /** The greatest sequence seen of a source. */
  function LastSequence(events: seq<Event>, source: string): Option<int> {
    if events == [] then None
    else
      var before, e := LastSequence(events[..|events| - 1], source), events[|events| - 1];
      if e.sourceId != source then before
      else if before.None? || e.sourceSequence > before.value then Some(e.sourceSequence)
      else before
  }

  /** What is found of one record, given the events already seen. */
  function InspectOne(lib: Library, threshold: int, seen: seq<Event>, index: nat, record: Json): seq<StreamFinding> {
    match FromMapping(lib, record)
    case Err(_) => [StreamFinding(INVALID_EVENT, index, None)]
    case Ok(e) =>
      if e.eventId in Ids(seen) then [StreamFinding(DUPLICATE_EVENT_ID, index, Some(e.eventId))]
      else RegressionOf(LastSequence(seen, e.sourceId), index, e) + DelayOf(threshold, index, e)
  }

  function RegressionOf(previous: Option<int>, index: nat, e: Event): seq<StreamFinding> {
    if previous.Some? && e.sourceSequence <= previous.value
    then [StreamFinding(SEQUENCE_REGRESSION, index, Some(e.eventId))] else []
  }

  function DelayOf(threshold: int, index: nat, e: Event): seq<StreamFinding> {
    if e.ingestedAt - e.observedAt > threshold * SECOND
    then [StreamFinding(DELAYED_ARRIVAL, index, Some(e.eventId))] else []
  }

  function Inspect(lib: Library, threshold: int, records: seq<Json>): seq<StreamFinding> {
    if records == [] then []
    else
      var front := records[..|records| - 1];
      Inspect(lib, threshold, front) + InspectOne(lib, threshold, Uniques(lib, front), |front|, records[|records| - 1])
  }

  /** The dictionary of greatest sequences. */
  ghost predicate Tracks(last: map<string, int>, seen: seq<Event>) {
    forall s :: LastSequence(seen, s) == if s in last then Some(last[s]) else None
  }

  /** The first events of the identities are one for each identity. */
  lemma {:induction false} FirstsAreAll(events: seq<Event>)
    ensures Ids(Firsts(events)) == Ids(events) && |Firsts(events)| == |Ids(events)|
  {
    if events != [] {
      var front, e := events[..|events| - 1], events[|events| - 1];
      hide Ids;
      FirstsAreAll(front);
      assert events == front + [e];
      IdsExtend(front, e);
      IdsExtend(Firsts(front), e);
    } else {
      assert Firsts(events) == events && |Ids(events)| == 0;
    }
  }

  lemma IdsExtend(events: seq<Event>, e: Event)
    ensures Ids(events + [e]) == Ids(events) + {e.eventId}
  {
  }

  lemma UniquesStep(lib: Library, records: seq<Json>, record: Json)
    ensures Uniques(lib, records + [record])
         == match FromMapping(lib, record)
            case Err(_) => Uniques(lib, records)
            case Ok(e) =>
              if e.eventId in Ids(Uniques(lib, records)) then Uniques(lib, records) else Uniques(lib, records) + [e]
  {
    assert (records + [record])[..|records|] == records;
    match FromMapping(lib, record) {
      case Err(_) =>
      case Ok(e) =>
        assert (EventsIn(lib, records) + [e])[..|EventsIn(lib, records)|] == EventsIn(lib, records);
    }
  }

  lemma InspectStep(lib: Library, threshold: int, records: seq<Json>, record: Json)
    ensures Inspect(lib, threshold, records + [record])
         == Inspect(lib, threshold, records) + InspectOne(lib, threshold, Uniques(lib, records), |records|, record)
  {
    assert (records + [record])[..|records|] == records;
  }

  lemma TracksStep(last: map<string, int>, seen: seq<Event>, e: Event)
    requires Tracks(last, seen) && e.sourceSequence >= 0
    ensures Tracks(last[e.sourceId := Max(e.sourceSequence, if e.sourceId in last then last[e.sourceId] else -1)],
                   seen + [e])
  {
    assert (seen + [e])[..|seen|] == seen;
    var after := last[e.sourceId := Max(e.sourceSequence, if e.sourceId in last then last[e.sourceId] else -1)];
    assert LastSequence(seen, e.sourceId) == if e.sourceId in last then Some(last[e.sourceId]) else None;
    forall s ensures LastSequence(seen + [e], s) == if s in after then Some(after[s]) else None {
      assert LastSequence(seen, s) == if s in last then Some(last[s]) else None;
    }
  }

  function Max(a: int, b: int): int {
    if a >= b then a else b
  }

  /** `inspect_stream`. */
  method InspectStream(lib: Library, records: seq<Json>, threshold: int) returns (findings: seq<StreamFinding>)
    ensures findings == Inspect(lib, threshold, records)
  {
    hide Inspect, Uniques, LastSequence, FromMapping;
    findings := [];
    var seenIds: set<string> := {};
    var lastSequence: map<string, int> := map[];
    assert Uniques(lib, []) == [] && Inspect(lib, threshold, []) == [] && Tracks(map[], []) by {
      NothingSeen(lib, threshold);
    }
    for index := 0 to |records|
      invariant findings == Inspect(lib, threshold, records[..index])
      invariant seenIds == Ids(Uniques(lib, records[..index])) && Tracks(lastSequence, Uniques(lib, records[..index]))
    {
      var seen := Uniques(lib, records[..index]);
      assert records[..index + 1] == records[..index] + [records[index]];
      UniquesStep(lib, records[..index], records[index]);
      InspectStep(lib, threshold, records[..index], records[index]);
      match FromMapping(lib, records[index]) {
        case Err(_) =>
          findings := findings + [StreamFinding(INVALID_EVENT, index, None)];
        case Ok(event) =>
          if event.eventId in seenIds {
            findings := findings + [StreamFinding(DUPLICATE_EVENT_ID, index, Some(event.eventId))];
          } else {
            AcceptedIsValid(lib, records[index]);
            TracksStep(lastSequence, seen, event);
            assert Ids(seen + [event]) == Ids(seen) + {event.eventId};
            seenIds := seenIds + {event.eventId};
            var found: seq<StreamFinding> := [];
            if event.sourceId in lastSequence && event.sourceSequence <= lastSequence[event.sourceId] {
              found := found + [StreamFinding(SEQUENCE_REGRESSION, index, Some(event.eventId))];
            }
            assert found == RegressionOf(LastSequence(seen, event.sourceId), index, event);
            lastSequence := lastSequence[event.sourceId := Max(event.sourceSequence,
              if event.sourceId in lastSequence then lastSequence[event.sourceId] else -1)];
            if event.ingestedAt - event.observedAt > threshold * SECOND {
              found := found + [StreamFinding(DELAYED_ARRIVAL, index, Some(event.eventId))];
            }
            findings := findings + found;
          }
      }
    }
    assert records[..|records|] == records;
  }

  lemma NothingSeen(lib: Library, threshold: int)
    ensures Uniques(lib, []) == [] && Inspect(lib, threshold, []) == [] && Tracks(map[], [])
  {
  }

  // ---- What the findings mean ----

  function CountCode(findings: seq<StreamFinding>, code: string): nat {
    if findings == [] then 0
    else CountCode(findings[..|findings| - 1], code) + (if findings[|findings| - 1].code == code then 1 else 0)
  }

  lemma {:induction false} CountCodeSplit(a: seq<StreamFinding>, b: seq<StreamFinding>, code: string)
    ensures CountCode(a + b, code) == CountCode(a, code) + CountCode(b, code)
  {
    if b == [] {
      assert a + b == a;
    } else {
      var front := b[..|b| - 1];
      CountCodeSplit(a, front, code);
      assert (a + b)[..|a + b| - 1] == a + front;
    }
  }

  /** One more record is one more invalid one, duplicate or unique event. */
  lemma ClassifiedStep(lib: Library, threshold: int, records: seq<Json>, record: Json)
    ensures var before, after := Inspect(lib, threshold, records), Inspect(lib, threshold, records + [record]);
            var event := FromMapping(lib, record);
            var repeated := event.Ok? && event.value.eventId in Ids(Uniques(lib, records));
            && CountCode(after, INVALID_EVENT) == CountCode(before, INVALID_EVENT) + (if event.Err? then 1 else 0)
            && CountCode(after, DUPLICATE_EVENT_ID)
              == CountCode(before, DUPLICATE_EVENT_ID) + (if repeated then 1 else 0)
            && |Uniques(lib, records + [record])| == |Uniques(lib, records)| + (if event.Ok? && !repeated then 1 else 0)
  {
    hide FromMapping, Inspect, InspectOne, Uniques, CountCode;
    InspectStep(lib, threshold, records, record);
    UniquesStep(lib, records, record);
    OneIsClassified(lib, threshold, Uniques(lib, records), |records|, record);
    var more := InspectOne(lib, threshold, Uniques(lib, records), |records|, record);
    CountCodeSplit(Inspect(lib, threshold, records), more, INVALID_EVENT);
    CountCodeSplit(Inspect(lib, threshold, records), more, DUPLICATE_EVENT_ID);
  }

  /** The records split into invalid ones, duplicates, and one per event identity. */
  lemma RecordsAreClassified(lib: Library, threshold: int, records: seq<Json>)
    ensures CountCode(Inspect(lib, threshold, records), INVALID_EVENT) == |records| - |EventsIn(lib, records)|
    ensures |Uniques(lib, records)| == |Ids(EventsIn(lib, records))|
    ensures CountCode(Inspect(lib, threshold, records), DUPLICATE_EVENT_ID)
         == |EventsIn(lib, records)| - |Ids(EventsIn(lib, records))|
  {
    FirstsAreAll(EventsIn(lib, records));
    DuplicatesAreClassified(lib, threshold, records);
  }

  lemma {:induction false} DuplicatesAreClassified(lib: Library, threshold: int, records: seq<Json>)
    ensures CountCode(Inspect(lib, threshold, records), INVALID_EVENT) == |records| - |EventsIn(lib, records)|
    ensures CountCode(Inspect(lib, threshold, records), DUPLICATE_EVENT_ID)
         == |EventsIn(lib, records)| - |Uniques(lib, records)|
  {
    if records == [] {
      NothingSeen(lib, threshold);
    } else {
      hide FromMapping, Inspect, Uniques, EventsIn, CountCode;
      var front, record := records[..|records| - 1], records[|records| - 1];
      assert records == front + [record];
      DuplicatesAreClassified(lib, threshold, front);
      ClassifiedStep(lib, threshold, front, record);
      EventsInCount(lib, front, record);
    }
  }

  lemma EventsInCount(lib: Library, records: seq<Json>, record: Json)
    ensures |EventsIn(lib, records + [record])|
         == |EventsIn(lib, records)| + (if FromMapping(lib, record).Ok? then 1 else 0)
  {
    assert (records + [record])[..|records|] == records;
  }

  lemma OneIsClassified(lib: Library, threshold: int, seen: seq<Event>, index: nat, record: Json)
    ensures var found, event := InspectOne(lib, threshold, seen, index, record), FromMapping(lib, record);
            && CountCode(found, INVALID_EVENT) == (if event.Err? then 1 else 0)
            && CountCode(found, DUPLICATE_EVENT_ID) == (if event.Ok? && event.value.eventId in Ids(seen) then 1 else 0)
  {
    hide FromMapping;
    match FromMapping(lib, record) {
      case Err(_) =>
      case Ok(e) =>
        var a, b := RegressionOf(LastSequence(seen, e.sourceId), index, e), DelayOf(threshold, index, e);
        CountCodeSplit(a, b, INVALID_EVENT);
        CountCodeSplit(a, b, DUPLICATE_EVENT_ID);
    }
  }

  /** What a finding says of its record: that it does not validate; that its identity came before; or, of the first
      event of an identity, that an earlier one of its source was not below it, or that it arrived late. */
  ghost predicate SaysOf(lib: Library, threshold: int, before: seq<Json>, record: Json, f: StreamFinding) {
    var event := FromMapping(lib, record);
    if event.Err? then f.code == "invalid_event" && f.eventId == None
    else
      var e, seen := event.value, Uniques(lib, before);
      && f.eventId == Some(e.eventId)
      && if exists x :: x in EventsIn(lib, before) && x.eventId == e.eventId then f.code == "duplicate_event_id"
         else
           || (&& f.code == "source_sequence_regression"
               && exists x :: x in seen && x.sourceId == e.sourceId && x.sourceSequence >= e.sourceSequence)
           || (f.code == "delayed_arrival" && e.ingestedAt - e.observedAt > threshold * 1_000_000)
  }

  /** Record by record, everything that can be said is found, with the record's index, and nothing else. */
  lemma {:induction false} InspectionIff(lib: Library, threshold: int, records: seq<Json>, f: StreamFinding)
    ensures f in Inspect(lib, threshold, records)
       <==> f.recordIndex < |records|
            && SaysOf(lib, threshold, records[..f.recordIndex], records[f.recordIndex], f)
  {
    if records == [] {
      NothingSeen(lib, threshold);
    } else {
      hide Inspect, InspectOne, Uniques, SaysOf;
      var front, record := records[..|records| - 1], records[|records| - 1];
      InspectionIff(lib, threshold, front, f);
      assert records == front + [record];
      InspectStep(lib, threshold, front, record);
      InspectOneIff(lib, threshold, front, record, f);
      if f.recordIndex < |front| {
        assert front[..f.recordIndex] == records[..f.recordIndex];
      }
    }
  }

  lemma InspectOneIff(lib: Library, threshold: int, before: seq<Json>, record: Json, f: StreamFinding)
    ensures f in InspectOne(lib, threshold, Uniques(lib, before), |before|, record)
       <==> f.recordIndex == |before| && SaysOf(lib, threshold, before, record, f)
  {
    hide FromMapping, LastSequence, RegressionOf, DelayOf, Uniques, EventsIn;
    var event, seen := FromMapping(lib, record), Uniques(lib, before);
    if event.Ok? {
      var e := event.value;
      SeenBefore(lib, before, e.eventId);
      RegressionFoundIff(seen, |before|, e, f);
      DelayFoundIff(threshold, |before|, e, f);
    }
  }

  lemma SeenBefore(lib: Library, before: seq<Json>, id: string)
    ensures id in Ids(Uniques(lib, before)) <==> exists x :: x in EventsIn(lib, before) && x.eventId == id
  {
    FirstsAreAll(EventsIn(lib, before));
    SeenIff(EventsIn(lib, before), id);
  }

  lemma RegressionFoundIff(seen: seq<Event>, index: nat, e: Event, f: StreamFinding)
    ensures f in RegressionOf(LastSequence(seen, e.sourceId), index, e)
       <==> && f == StreamFinding("source_sequence_regression", index, Some(e.eventId))
            && exists x :: x in seen && x.sourceId == e.sourceId && x.sourceSequence >= e.sourceSequence
  {
    hide LastSequence;
    NotBelowIff(seen, e);
  }

  lemma DelayFoundIff(threshold: int, index: nat, e: Event, f: StreamFinding)
    ensures f in DelayOf(threshold, index, e)
       <==> && f == StreamFinding("delayed_arrival", index, Some(e.eventId))
            && e.ingestedAt - e.observedAt > threshold * 1_000_000
  {
  }

  lemma SeenIff(events: seq<Event>, id: string)
    ensures id in Ids(events) <==> exists x :: x in events && x.eventId == id
  {
  }

  lemma NotBelowIff(seen: seq<Event>, e: Event)
    ensures var last := LastSequence(seen, e.sourceId);
            (last.Some? && e.sourceSequence <= last.value)
            <==> exists x :: x in seen && x.sourceId == e.sourceId && x.sourceSequence >= e.sourceSequence
  {
    hide LastSequence;
    LastSequenceIsGreatest(seen, e.sourceId);
    var last := LastSequence(seen, e.sourceId);
    if last.Some? {
      var j :| 0 <= j < |seen| && seen[j].sourceId == e.sourceId && seen[j].sourceSequence == last.value;
      assert seen[j] in seen;
    }
  }

  /** Findings come in the order of their records. */
  lemma {:induction false} InspectionOrder(lib: Library, threshold: int, records: seq<Json>)
    ensures var found := Inspect(lib, threshold, records);
            forall i, j | 0 <= i < j < |found| :: found[i].recordIndex <= found[j].recordIndex < |records|
  {
    if records != [] {
      hide InspectOne;
      var front, record := records[..|records| - 1], records[|records| - 1];
      InspectionOrder(lib, threshold, front);
      var found, more := Inspect(lib, threshold, front),
                         InspectOne(lib, threshold, Uniques(lib, front), |front|, record);
      forall i | 0 <= i < |found| ensures found[i].recordIndex < |front| {
        InspectionIff(lib, threshold, front, found[i]);
      }
      forall i | 0 <= i < |more| ensures more[i].recordIndex == |front| {
        InspectOneIff(lib, threshold, front, record, more[i]);
      }
    }
  }

  /** The events a code names. */
  ghost function Named(findings: seq<StreamFinding>, code: string): set<string> {
    set f | f in findings && f.code == code && f.eventId.Some? :: f.eventId.value
  }

  /** An event is out of order: an earlier one of its source has at least its sequence. */
  predicate NotAbove(events: seq<Event>, k: nat)
    requires k < |events|
  {
    exists j | 0 <= j < k ::
      events[j].sourceId == events[k].sourceId && events[j].sourceSequence >= events[k].sourceSequence
  }

  lemma {:induction false} LastSequenceIsGreatest(events: seq<Event>, source: string)
    ensures var last := LastSequence(events, source);
            && (forall e | e in events && e.sourceId == source :: last.Some? && e.sourceSequence <= last.value)
            && (last.Some? ==>
                exists j :: 0 <= j < |events| && events[j].sourceId == source && events[j].sourceSequence == last.value)
  {
    if events != [] {
      var front := events[..|events| - 1];
      LastSequenceIsGreatest(front, source);
      assert events == front + [events[|events| - 1]];
      if LastSequence(front, source).Some? {
        var j :| 0 <= j < |front| && front[j].sourceId == source
          && front[j].sourceSequence == LastSequence(front, source).value;
        assert events[j] == front[j];
      }
      if events[|events| - 1].sourceId == source {
        assert events[|events| - 1].sourceId == source;
      }
    }
  }

  lemma RegressionIsNotAbove(seen: seq<Event>, index: nat, e: Event)
    ensures RegressionOf(LastSequence(seen, e.sourceId), index, e) != [] <==> NotAbove(seen + [e], |seen|)
  {
    hide LastSequence;
    var last, all := LastSequence(seen, e.sourceId), seen + [e];
    LastSequenceIsGreatest(seen, e.sourceId);
    if last.Some? && e.sourceSequence <= last.value {
      var j :| 0 <= j < |seen| && seen[j].sourceId == e.sourceId && seen[j].sourceSequence == last.value;
      assert all[j] == seen[j];
    }
    if NotAbove(all, |seen|) {
      var j :| 0 <= j < |seen| && all[j].sourceId == e.sourceId && all[j].sourceSequence >= e.sourceSequence;
      assert all[j] == seen[j] && seen[j] in seen;
    }
  }

  ghost function OutOfOrder(events: seq<Event>): set<string> {
    set k | 0 <= k < |events| && NotAbove(events, k) :: events[k].eventId
  }

  ghost function Late(threshold: int, events: seq<Event>): set<string> {
    set e | e in events && e.ingestedAt - e.observedAt > threshold * SECOND :: e.eventId
  }

  lemma OutOfOrderStep(seen: seq<Event>, e: Event)
    ensures OutOfOrder(seen + [e]) == OutOfOrder(seen) + (if NotAbove(seen + [e], |seen|) then {e.eventId} else {})
  {
    var all := seen + [e];
    forall k | 0 <= k < |seen| ensures NotAbove(all, k) <==> NotAbove(seen, k) {
      assert forall j | 0 <= j <= k :: all[j] == seen[j];
    }
    assert all[|seen|] == e;
  }

  lemma LateStep(threshold: int, seen: seq<Event>, e: Event)
    ensures Late(threshold, seen + [e])
         == Late(threshold, seen) + (if e.ingestedAt - e.observedAt > threshold * SECOND then {e.eventId} else {})
  {
  }

  /** Regressions and delays are found of exactly the out-of-order and late unique events. */
  lemma {:induction false} InspectionNames(lib: Library, threshold: int, records: seq<Json>)
    ensures Named(Inspect(lib, threshold, records), SEQUENCE_REGRESSION) == OutOfOrder(Uniques(lib, records))
    ensures Named(Inspect(lib, threshold, records), DELAYED_ARRIVAL) == Late(threshold, Uniques(lib, records))
  {
    hide Inspect, Uniques, InspectOne, OutOfOrder, Late, Named;
    if records == [] {
      NothingSeen(lib, threshold);
      assert Named([], SEQUENCE_REGRESSION) == OutOfOrder([]) && Named([], DELAYED_ARRIVAL) == Late(threshold, []) by {
        NothingNamed(threshold);
      }
    } else {
      var front, record := records[..|records| - 1], records[|records| - 1];
      InspectionNames(lib, threshold, front);
      assert records == front + [record];
      InspectStep(lib, threshold, front, record);
      UniquesStep(lib, front, record);
      OneNames(lib, threshold, Uniques(lib, front), |front|, record);
      NamedSplit(Inspect(lib, threshold, front), InspectOne(lib, threshold, Uniques(lib, front), |front|, record));
    }
  }

  lemma NothingNamed(threshold: int)
    ensures Named([], SEQUENCE_REGRESSION) == OutOfOrder([]) && Named([], DELAYED_ARRIVAL) == Late(threshold, [])
  {
  }

  lemma NamedSplit(a: seq<StreamFinding>, b: seq<StreamFinding>)
    ensures Named(a + b, SEQUENCE_REGRESSION) == Named(a, SEQUENCE_REGRESSION) + Named(b, SEQUENCE_REGRESSION)
    ensures Named(a + b, DELAYED_ARRIVAL) == Named(a, DELAYED_ARRIVAL) + Named(b, DELAYED_ARRIVAL)
  {
  }

  lemma OneNames(lib: Library, threshold: int, seen: seq<Event>, index: nat, record: Json)
    ensures var found := InspectOne(lib, threshold, seen, index, record);
            match FromMapping(lib, record)
            case Err(_) => Named(found, SEQUENCE_REGRESSION) == {} && Named(found, DELAYED_ARRIVAL) == {}
            case Ok(e) =>
              if e.eventId in Ids(seen)
              then Named(found, SEQUENCE_REGRESSION) == {} && Named(found, DELAYED_ARRIVAL) == {}
              else && OutOfOrder(seen + [e]) == OutOfOrder(seen) + Named(found, SEQUENCE_REGRESSION)
                   && Late(threshold, seen + [e]) == Late(threshold, seen) + Named(found, DELAYED_ARRIVAL)
  {
    hide FromMapping, LastSequence, OutOfOrder, Late, NotAbove;
    match FromMapping(lib, record) {
      case Err(_) =>
      case Ok(e) =>
        RegressionIsNotAbove(seen, index, e);
        OutOfOrderStep(seen, e);
        LateStep(threshold, seen, e);
        FoundNames(RegressionOf(LastSequence(seen, e.sourceId), index, e), DelayOf(threshold, index, e), e,
                   LastSequence(seen, e.sourceId), threshold, index);
    }
  }

  lemma FoundNames(a: seq<StreamFinding>, b: seq<StreamFinding>, e: Event, previous: Option<int>, threshold: int,
                   index: nat)
    requires a == RegressionOf(previous, index, e) && b == DelayOf(threshold, index, e)
    ensures Named(a + b, SEQUENCE_REGRESSION) == if a != [] then {e.eventId} else {}
    ensures Named(a + b, DELAYED_ARRIVAL) == if b != [] then {e.eventId} else {}
  {
    if a != [] { assert (a + b)[0] == a[0]; }
    if b != [] { assert (a + b)[|a|] == b[0]; }
  }
}
