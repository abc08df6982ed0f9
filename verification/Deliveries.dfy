/** What one delivery does to a ledger: `_ingest_locked` of `src/edge_evidence/mqtt.py` as a function,
    split at the point where the lookup ends and the ledger transaction begins. */
module Deliveries {
  import opened JsonValues
  import opened Libraries
  import opened Events
  import opened Logs
  import opened Mqtt

  /** A `DeliveryResult`, or the exception the runtime lets through. */
  datatype Delivery =
    | AcceptedAt(eventId: string, ordinal: nat)
    | DuplicateOf(eventId: string, ordinal: nat)
    | Rejected(reason: Reason)
    | Raised

  /** `RuntimeMetrics`, with a ghost-like count of the calls that raised and so counted nowhere else. */
  datatype Counts = Counts(received: nat, accepted: nat, duplicates: nat, rejected: nat, raised: nat)

  const ZERO := Counts(0, 0, 0, 0, 0)

  function Tally(c: Counts, d: Delivery): Counts {
    match d
    case AcceptedAt(_, _) => c.(accepted := c.accepted + 1)
    case DuplicateOf(_, _) => c.(duplicates := c.duplicates + 1)
    case Rejected(_) => c.(rejected := c.rejected + 1)
    case Raised => c.(raised := c.raised + 1)
  }

  /** The producer-controlled part of an event, with numbers as Python's `==` sees them. */
  function ProducerView(e: Event): (string, string, int, string, int, Json, Json) {
    (e.eventId, e.sourceId, e.sourceSequence, e.eventType, e.observedAt, Norm(Obj(e.payload)), Norm(Obj(e.metadata)))
  }

  /** Two deliveries the runtime takes for one: equal mappings once `ingested_at` is dropped. */
  predicate SameDelivery(a: Event, b: Event) {
    ProducerView(a) == ProducerView(b)
  }

  /** The mapping the runtime compares: `to_mapping()` without `ingested_at`. */
  function Comparable(lib: Library, e: Event): Fields {
    ToFields(lib, e) - {"ingested_at"}
  }

  ghost predicate Describes(lib: Library, c: Fields, e: Event) {
    && c.Keys == FIELDS - {"ingested_at"}
    && c["event_id"] == Str(e.eventId) && c["source_id"] == Str(e.sourceId)
    && c["event_type"] == Str(e.eventType) && c["source_sequence"] == Int(e.sourceSequence)
    && c["observed_at"] == Str(lib.formatUtc(e.observedAt)) && c["schema_version"] == Str("1.0")
    && c["payload"] == Obj(e.payload) && c["metadata"] == Obj(e.metadata)
  }

  lemma ComparableDescribes(lib: Library, e: Event)
    ensures Describes(lib, Comparable(lib, e), e)
  {
    ToFieldsKeys(lib, e);
  }

  /** `candidate == committed` in the runtime is `SameDelivery`. */
  lemma SameDeliveryIsMappingEquality(lib: Library, a: Event, b: Event)
    requires lib.Lawful()
    ensures SameDelivery(a, b) <==> PyEqual(Obj(Comparable(lib, a)), Obj(Comparable(lib, b)))
  {
    ComparableDescribes(lib, a);
    ComparableDescribes(lib, b);
    ObjectsEqual(Comparable(lib, a), Comparable(lib, b));
    lib.TimeRoundTrip(a.observedAt);
    lib.TimeRoundTrip(b.observedAt);
    DescriptionsAgree(lib, Comparable(lib, a), Comparable(lib, b), a, b);
  }

  lemma DescriptionsAgree(lib: Library, x: Fields, y: Fields, a: Event, b: Event)
    requires Describes(lib, x, a) && Describes(lib, y, b)
    requires lib.formatUtc(a.observedAt) == lib.formatUtc(b.observedAt) ==> a.observedAt == b.observedAt
    ensures SameDelivery(a, b) <==> forall k | k in x.Keys :: PyEqual(x[k], y[k])
  {
    if SameDelivery(a, b) {
      EqualValues(lib, x, y, a, b);
    }
    if forall k | k in x.Keys :: PyEqual(x[k], y[k]) {
      EqualViews(lib, x, y, a, b);
    }
  }

  lemma EqualViews(lib: Library, x: Fields, y: Fields, a: Event, b: Event)
    requires Describes(lib, x, a) && Describes(lib, y, b)
    requires lib.formatUtc(a.observedAt) == lib.formatUtc(b.observedAt) ==> a.observedAt == b.observedAt
    requires forall k | k in x.Keys :: PyEqual(x[k], y[k])
    ensures SameDelivery(a, b)
  {
    assert PyEqual(x["event_id"], y["event_id"]) && PyEqual(x["source_id"], y["source_id"]);
    assert PyEqual(x["event_type"], y["event_type"]) && PyEqual(x["observed_at"], y["observed_at"]);
    assert PyEqual(x["source_sequence"], y["source_sequence"]);
    assert PyEqual(x["payload"], y["payload"]) && PyEqual(x["metadata"], y["metadata"]);
  }

  lemma EqualValues(lib: Library, x: Fields, y: Fields, a: Event, b: Event)
    requires Describes(lib, x, a) && Describes(lib, y, b) && SameDelivery(a, b)
    ensures forall k | k in x.Keys :: PyEqual(x[k], y[k])
  {
    assert PyEqual(x["payload"], y["payload"]) && PyEqual(x["metadata"], y["metadata"]);
    forall k | k in x.Keys ensures PyEqual(x[k], y[k]) {
      assert k !in {"payload", "metadata"} ==> x[k] == y[k];
    }
  }

  /** After the lookup: the committed event when the candidate repeats it, else the candidate. */
  function Prepare(log: Log, e: Event): Event {
    var i := IdIndex(log, e.eventId);
    if i < |log| && SameDelivery(e, log[i]) then log[i] else e
  }

  /** The ledger's verdict as the runtime reports it. */
  function Report(log: Log, target: Event): Delivery {
    match Judge(log, target)
    case Fresh => AcceptedAt(target.eventId, |log| + 1)
    case Known(ordinal) => DuplicateOf(target.eventId, ordinal)
    case Refused(conflict) => if conflict.SequenceOverflow? then Raised else Rejected(LedgerConflict)
  }

  /** One uninterrupted delivery. */
  function Deliver(lib: Library, log: Log, m: Message, at: Instant): Delivery {
    match MqttToEvent(lib, m, at)
    case Err(reason) => Rejected(reason)
    case Ok(e) => Report(log, Prepare(log, e))
  }

  function LogAfter(lib: Library, log: Log, m: Message, at: Instant): Log {
    match MqttToEvent(lib, m, at)
    case Err(_) => log
    case Ok(e) => Append(log, Prepare(log, e))
  }

  lemma PreparedIsValid(log: Log, e: Event)
    requires LogOk(log) && ValidEvent(e)
    ensures ValidEvent(Prepare(log, e)) && Prepare(log, e).eventId == e.eventId && SameDelivery(e, Prepare(log, e))
  {
    var i := IdIndex(log, e.eventId);
    if i < |log| {
      assert log[i] in log;
    }
  }

  /** Whatever the message, a delivery keeps the ledger's invariant and only adds rows. */
  lemma DeliveryKeepsLogOk(lib: Library, log: Log, m: Message, at: Instant)
    requires LogOk(log)
    ensures LogOk(LogAfter(lib, log, m, at)) && log <= LogAfter(lib, log, m, at)
  {
    if MqttToEvent(lib, m, at).Ok? {
      DecodedIsValid(lib, m, at);
      var e := MqttToEvent(lib, m, at).value;
      PreparedIsValid(log, e);
      AppendKeepsLogOk(log, Prepare(log, e));
    }
  }

  /** An accepted or duplicate delivery names the row of its event. */
  lemma DeliveryNamesRow(lib: Library, log: Log, m: Message, at: Instant)
    ensures var d := Deliver(lib, log, m, at);
            d.AcceptedAt? || d.DuplicateOf? ==>
              && 1 <= d.ordinal <= |LogAfter(lib, log, m, at)|
              && LogAfter(lib, log, m, at)[d.ordinal - 1].eventId == d.eventId
  {
    hide MqttToEvent, Prepare;
    if MqttToEvent(lib, m, at).Ok? {
      var target := Prepare(log, MqttToEvent(lib, m, at).value);
      if !Judge(log, target).Refused? {
        ReceiptNamesRow(log, target);
      }
    }
  }

  /** A matching committed row makes the delivery a DUPLICATE of it, and nothing else does. */
  lemma DuplicateIff(log: Log, e: Event)
    requires Unique(log)
    ensures var d := Report(log, Prepare(log, e));
            && (d.DuplicateOf? <==> exists j | 0 <= j < |log| :: log[j].eventId == e.eventId && SameDelivery(e, log[j]))
            && (d.DuplicateOf? ==> SameDelivery(e, log[d.ordinal - 1]) && Append(log, Prepare(log, e)) == log)
  {
    var i := IdIndex(log, e.eventId);
    if j :| 0 <= j < |log| && log[j].eventId == e.eventId && SameDelivery(e, log[j]) {
      IdIndexOf(log, j);
    }
  }

  /** The producer's fields of two events agree, payload and metadata value by value. */
  ghost predicate ProducerAgrees(a: Event, b: Event) {
    && a.eventId == b.eventId && a.sourceId == b.sourceId && a.sourceSequence == b.sourceSequence
    && a.eventType == b.eventType && a.observedAt == b.observedAt
    && Alike(Obj(a.payload), Obj(b.payload)) && Alike(Obj(a.metadata), Obj(b.metadata))
  }

  lemma SameDeliveryAgrees(a: Event, b: Event)
    ensures SameDelivery(a, b) <==> ProducerAgrees(a, b)
  {
    PyEqualIsAlike(Obj(a.payload), Obj(b.payload));
    PyEqualIsAlike(Obj(a.metadata), Obj(b.metadata));
  }

  /** A message whose identity is committed as row j: it is a DUPLICATE of that row if the producer's fields
      agree value by value, a conflict otherwise, and no row is added either way. */
  lemma CommittedIdentitySettles(lib: Library, log: Log, m: Message, at: Instant, j: nat)
    requires LogOk(log) && j < |log|
    ensures var decoded := MqttToEvent(lib, m, at);
            decoded.Ok? && decoded.value.eventId == log[j].eventId ==>
              && LogAfter(lib, log, m, at) == log
              && Deliver(lib, log, m, at)
                 == if ProducerAgrees(decoded.value, log[j]) then DuplicateOf(log[j].eventId, j + 1)
                    else Rejected(LedgerConflict)
  {
    hide MqttToEvent, ProducerAgrees, SameDelivery, ValidEvent;
    var decoded := MqttToEvent(lib, m, at);
    if decoded.Ok? && decoded.value.eventId == log[j].eventId {
      SameDeliveryAgrees(decoded.value, log[j]);
      SettledByRow(log, decoded.value, j);
    }
  }

  /** A message of a new identity: its event is the next row, unless its sequence cannot be stored, which
      raises, or its source position is taken, which is a conflict. */
  lemma NewIdentitySettles(lib: Library, log: Log, m: Message, at: Instant)
    requires LogOk(log)
    ensures var decoded := MqttToEvent(lib, m, at);
            decoded.Ok? && (forall x | x in log :: x.eventId != decoded.value.eventId) ==>
              var e := decoded.value;
              var taken := exists x :: x in log && x.sourceId == e.sourceId && x.sourceSequence == e.sourceSequence;
              if e.sourceSequence >= 9_223_372_036_854_775_808 then
                Deliver(lib, log, m, at) == Raised && LogAfter(lib, log, m, at) == log
              else if taken then
                Deliver(lib, log, m, at) == Rejected(LedgerConflict) && LogAfter(lib, log, m, at) == log
              else
                Deliver(lib, log, m, at) == AcceptedAt(e.eventId, |log| + 1) && LogAfter(lib, log, m, at) == log + [e]
  {
    hide MqttToEvent, SameDelivery, ValidEvent, Judge;
    var decoded := MqttToEvent(lib, m, at);
    if decoded.Ok? && forall x | x in log :: x.eventId != decoded.value.eventId {
      IndexIsMember(log, decoded.value.eventId);
      assert Prepare(log, decoded.value) == decoded.value;
      RefusedFor(log, decoded.value);
      FreshOrRefused(log, decoded.value);
    }
  }

  lemma FreshOrRefused(log: Log, e: Event)
    requires forall x | x in log :: x.eventId != e.eventId
    ensures Judge(log, e).Fresh? || Judge(log, e).Refused?
  {
    IndexIsMember(log, e.eventId);
  }

  lemma IndexIsMember(log: Log, id: string)
    ensures IdIndex(log, id) < |log| ==> exists x :: x in log && x.eventId == id
  {
    if IdIndex(log, id) < |log| {
      assert log[IdIndex(log, id)] in log;
    }
  }

  /** A message that does not decode changes nothing and is refused with the decoder's reason. */
  lemma UndecodedSettles(lib: Library, log: Log, m: Message, at: Instant)
    ensures var decoded := MqttToEvent(lib, m, at);
            decoded.Err? ==> Deliver(lib, log, m, at) == Rejected(decoded.error) && LogAfter(lib, log, m, at) == log
  {
  }

  lemma SettledByRow(log: Log, e: Event, j: nat)
    requires Unique(log) && j < |log| && e.eventId == log[j].eventId
    ensures Append(log, Prepare(log, e)) == log
    ensures Report(log, Prepare(log, e))
         == if SameDelivery(e, log[j]) then DuplicateOf(log[j].eventId, j + 1) else Rejected(LedgerConflict)
  {
    hide SameDelivery;
    IdIndexOf(log, j);
    assert e == log[j] ==> SameDelivery(e, log[j]) by { SameIsSame(e); }
  }

  lemma SameIsSame(e: Event)
    ensures SameDelivery(e, e)
  {
  }

  /** A changed reading is not a retry: with one number of the payload different in its whole part or its
      fraction, the message is a conflict and the committed row stays. */
  lemma ChangedReadingConflicts(lib: Library, log: Log, m: Message, at: Instant, j: nat, key: string)
    requires LogOk(log) && j < |log| && key in log[j].payload && IsNumber(log[j].payload[key])
    ensures var decoded, was := MqttToEvent(lib, m, at), log[j].payload[key];
            && decoded.Ok? && decoded.value.eventId == log[j].eventId
            && key in decoded.value.payload && IsNumber(decoded.value.payload[key])
            && (var now := decoded.value.payload[key];
                WholeOf(now) != WholeOf(was) || FractionOf(now) != FractionOf(was))
            ==> Deliver(lib, log, m, at) == Rejected(LedgerConflict) && LogAfter(lib, log, m, at) == log
  {
    hide MqttToEvent, Deliver, LogAfter, LogOk;
    CommittedIdentitySettles(lib, log, m, at, j);
    var decoded := MqttToEvent(lib, m, at);
    if decoded.Ok? && key in decoded.value.payload {
      AlikeFields(decoded.value.payload, log[j].payload, key);
    }
  }

  lemma AlikeFields(x: Fields, y: Fields, key: string)
    requires key in x && key in y
    ensures Alike(Obj(x), Obj(y)) ==> Alike(x[key], y[key])
  {
  }

  /** A retry whose numbers are spelled differently (1.0 for 1) is still a DUPLICATE, though its
      canonical text is not that of the committed row. */
  lemma RespelledRetryIsDuplicate(lib: Library, e: Event)
    requires lib.Lawful() && ValidEvent(e) && Storable(e) && e.payload == map["value" := Int(1)]
    ensures var retry := e.(payload := map["value" := Float(1, 0)]);
            && Canonical(lib, retry) != Canonical(lib, e)
            && Report([e], Prepare([e], retry)) == DuplicateOf(e.eventId, 1)
  {
    hide Canonical;
    var retry := e.(payload := map["value" := Float(1, 0)]);
    assert retry.payload["value"] != e.payload["value"];
    CanonicalInjective(lib, retry, e);
    assert SameDelivery(retry, e) by { RespelledNorm(); }
    RespelledReport(e, retry);
  }

  lemma RespelledReport(e: Event, retry: Event)
    requires retry.eventId == e.eventId && SameDelivery(retry, e)
    ensures Report([e], Prepare([e], retry)) == DuplicateOf(e.eventId, 1)
  {
    hide SameDelivery;
  }

  lemma RespelledNorm()
    ensures PyEqual(Obj(map["value" := Int(1)]), Obj(map["value" := Float(1, 0)]))
  {
    assert Norm(Obj(map["value" := Int(1)])).fields == Norm(Obj(map["value" := Float(1, 0)])).fields;
  }

  /** Where a ledger-reaching delivery ends up when it comes again: on a later ledger, at any receipt
      time, the ledger stays as it is and the answer is the old row, or the old refusal. */
  lemma RedeliverySettled(log: Log, e: Event, later: Log, again: Event)
    requires LogOk(log) && ValidEvent(e) && LogOk(later)
    requires Append(log, Prepare(log, e)) <= later
    requires again == e.(ingestedAt := again.ingestedAt)
    ensures var first := Report(log, Prepare(log, e));
            var second := Report(later, Prepare(later, again));
            && Append(later, Prepare(later, again)) == later
            && (first.AcceptedAt? || first.DuplicateOf? ==> second == DuplicateOf(e.eventId, first.ordinal))
            && (first.Rejected? ==> second == Rejected(LedgerConflict))
            && (first.Raised? ==> second == Rejected(LedgerConflict) || second.Raised?)
  {
    assert SameDelivery(again, e);
    var target := Prepare(log, e);
    var i := IdIndex(log, e.eventId);
    if !Judge(log, target).Refused? {
      SettledRow(log, e, later, again);
    } else if i < |log| {
      SettledIdentity(log, e, later, again, i);
    } else if Judge(log, target).conflict.SequenceConflict? {
      var j :| 0 <= j < |log| && SamePosition(log[j], target);
      assert log[j].eventId != e.eventId;
      PositionElsewhere(later, j, again);
    } else {
      var k := IdIndex(later, e.eventId);
      if k < |later| {
        assert later[k] in later;
        assert Storable(later[k]);
      }
    }
  }

  lemma SettledRow(log: Log, e: Event, later: Log, again: Event)
    requires LogOk(log) && ValidEvent(e) && LogOk(later)
    requires Append(log, Prepare(log, e)) <= later
    requires SameDelivery(again, e) && !Judge(log, Prepare(log, e)).Refused?
    ensures var first := Report(log, Prepare(log, e));
            && Report(later, Prepare(later, again)) == DuplicateOf(e.eventId, first.ordinal)
            && Append(later, Prepare(later, again)) == later
  {
    var target := Prepare(log, e);
    PreparedIsValid(log, e);
    ReceiptNamesRow(log, target);
    var row := ReceiptOf(log, Judge(log, target)).ordinal - 1;
    assert later[row] == target;
    IdIndexOf(later, row);
  }

  lemma SettledIdentity(log: Log, e: Event, later: Log, again: Event, i: nat)
    requires Unique(later) && log <= later && i < |log| && log[i].eventId == e.eventId && !SameDelivery(e, log[i])
    requires SameDelivery(again, e)
    ensures Report(later, Prepare(later, again)) == Rejected(LedgerConflict)
    ensures Append(later, Prepare(later, again)) == later
  {
    assert later[i] == log[i];
    IdIndexOf(later, i);
  }

  /** With its source position held by another identity, an event can only be refused. */
  lemma PositionElsewhere(log: Log, j: nat, e: Event)
    requires LogOk(log) && j < |log| && SamePosition(log[j], e) && log[j].eventId != e.eventId && Storable(e)
    ensures Judge(log, Prepare(log, e)).Refused? && Report(log, Prepare(log, e)) == Rejected(LedgerConflict)
  {
    var k := IdIndex(log, e.eventId);
    if k < |log| {
      assert k != j;
      assert !SamePosition(log[k], log[j]) && !SamePosition(log[j], log[k]);
    }
  }
}
