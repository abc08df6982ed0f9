/** The append-only event table and its transactions: an object whose rows a batch extends as a whole or
    leaves as they were, with the specification of each operation as a function of the committed events
    (`src/edge_evidence/ledger.py`). */
module Ledgers {
  import opened Wrappers
  import opened JsonValues
  import opened Libraries
  import opened Events
  import opened Logs

  /** One row of the `events` table. */
  datatype Row = Row(
    ordinal: nat,
    eventId: string,
    sourceId: string,
    sourceSequence: int,
    eventType: string,
    observedAt: string,
    ingestedAt: string,
    schemaVersion: string,
    canonicalJson: Bytes,
    contentSha256: string
  )

  datatype IngestResult = IngestResult(status: Status, eventId: string, ordinal: nat, contentSha256: string)

  datatype StoredEvent = StoredEvent(ordinal: nat, event: Event, contentSha256: string)

  datatype LedgerError =
    | Validation(rejection: Rejection)
    | Conflicting(conflict: Conflict)
    | Integrity(ordinal: nat)

  /** What `ingest` accepts: an event, or a mapping still to be validated. */
  datatype Record = Canonicalised(event: Event) | Mapping(json: Json)

  function ContentDigest(lib: Library, e: Event): string {
    lib.sha256(Canonical(lib, e))
  }

  /** The row the INSERT writes. */
  function RowOf(lib: Library, ordinal: nat, e: Event): Row {
    Row(ordinal, e.eventId, e.sourceId, e.sourceSequence, e.eventType,
        lib.formatUtc(e.observedAt), lib.formatUtc(e.ingestedAt), SCHEMA_VERSION,
        Canonical(lib, e), ContentDigest(lib, e))
  }

  function Stored(lib: Library, ordinal: nat, e: Event): StoredEvent {
    StoredEvent(ordinal, e, ContentDigest(lib, e))
  }

  /** A ledger as `read_events` returns it. */
  function StoredRows(lib: Library, log: Log): seq<StoredEvent> {
    seq(|log|, i requires 0 <= i < |log| => Stored(lib, i + 1, log[i]))
  }

  function ResultOf(lib: Library, e: Event, receipt: Receipt): IngestResult {
    IngestResult(receipt.status, e.eventId, receipt.ordinal, ContentDigest(lib, e))
  }

  function ResultsOf(lib: Library, batch: seq<Event>, receipts: seq<Receipt>): seq<IngestResult>
    requires |batch| == |receipts|
  {
    seq(|batch|, i requires 0 <= i < |batch| => ResultOf(lib, batch[i], receipts[i]))
  }

  /** The integrity check and decoding that both readers apply to a row. */
  function Load(lib: Library, row: Row): Result<StoredEvent, LedgerError> {
    if lib.sha256(row.canonicalJson) != row.contentSha256 then Err(Integrity(row.ordinal))
    else
      match lib.loads(row.canonicalJson)
      case Value(json) =>
        (match FromMapping(lib, json)
         case Ok(e) => Ok(StoredEvent(row.ordinal, e, row.contentSha256))
         case Err(rejection) => Err(Validation(rejection)))
      case _ => Err(Integrity(row.ordinal))
  }

  /** A written row loads back as its event, ordinal and digest. */
  lemma LoadWritten(lib: Library, ordinal: nat, e: Event)
    requires lib.Lawful() && ValidEvent(e)
    ensures Load(lib, RowOf(lib, ordinal, e)) == Ok(Stored(lib, ordinal, e))
  {
    CanonicalLoads(lib, e);
  }

  /** The columns of a row repeat the values of its stored text, field by field, and the digest is that of the text. */
  ghost predicate ColumnsAgree(lib: Library, row: Row) {
    && row.contentSha256 == lib.sha256(row.canonicalJson)
    && lib.loads(row.canonicalJson).Value? && lib.loads(row.canonicalJson).json.Obj?
    && var f := lib.loads(row.canonicalJson).json.fields;
       && {"event_id", "source_id", "source_sequence", "event_type", "observed_at", "ingested_at",
           "schema_version"} <= f.Keys
       && f["event_id"] == Str(row.eventId) && f["source_id"] == Str(row.sourceId)
       && f["source_sequence"] == Int(row.sourceSequence) && f["event_type"] == Str(row.eventType)
       && f["observed_at"] == Str(row.observedAt) && f["ingested_at"] == Str(row.ingestedAt)
       && f["schema_version"] == Str(row.schemaVersion)
  }

  lemma WrittenColumnsAgree(lib: Library, ordinal: nat, e: Event)
    requires lib.Lawful() && ValidEvent(e)
    ensures ColumnsAgree(lib, RowOf(lib, ordinal, e)) && RowOf(lib, ordinal, e).ordinal == ordinal
  {
    hide ValidEvent;
    CanonicalLoads(lib, e);
  }

  /** The table holds exactly these events, row i with ordinal i + 1. */
  ghost predicate Stores(lib: Library, rows: seq<Row>, log: Log) {
    |rows| == |log| && forall i | 0 <= i < |rows| :: rows[i] == RowOf(lib, i + 1, log[i])
  }

  lemma StoresExtend(lib: Library, rows: seq<Row>, log: Log, e: Event)
    requires Stores(lib, rows, log)
    ensures Stores(lib, rows + [RowOf(lib, |rows| + 1, e)], log + [e])
  {
  }

  /** Rows are append-only because events are. */
  lemma RowsFollowLog(lib: Library, rows: seq<Row>, log: Log, rows': seq<Row>, log': Log)
    requires Stores(lib, rows, log) && Stores(lib, rows', log') && log <= log'
    ensures rows <= rows'
  {
  }

  function RowOfId(rows: seq<Row>, id: string): (i: nat)
    ensures i <= |rows|
    ensures i < |rows| ==> rows[i].eventId == id
    ensures forall j | 0 <= j < i :: rows[j].eventId != id
  {
    if rows == [] then 0
    else if rows[0].eventId == id then 0
    else 1 + RowOfId(rows[1..], id)
  }

  /** `_coerce` over all records, before any transaction: the first bad record decides. */
  function Coerced(lib: Library, records: seq<Record>): Result<seq<Event>, Rejection> {
    if records == [] then Ok([])
    else
      match Coerce(lib, records[|records| - 1])
      case Err(rejection) =>
        (match Coerced(lib, records[..|records| - 1])
         case Err(earlier) => Err(earlier)
         case Ok(_) => Err(rejection))
      case Ok(e) =>
        (match Coerced(lib, records[..|records| - 1])
         case Err(earlier) => Err(earlier)
         case Ok(es) => Ok(es + [e]))
  }

  function Coerce(lib: Library, record: Record): Result<Event, Rejection> {
    match record
    case Canonicalised(e) => Ok(e)
    case Mapping(json) => FromMapping(lib, json)
  }

  /** What ingesting one event answers. */
  function Answer(lib: Library, log: Log, e: Event): Result<IngestResult, LedgerError> {
    var verdict := Judge(log, e);
    if verdict.Refused? then Err(Conflicting(verdict.conflict))
    else Ok(ResultOf(lib, e, ReceiptOf(log, verdict)))
  }

  /** What ingesting one record answers. */
  function RecordAnswer(lib: Library, log: Log, record: Record): Result<IngestResult, LedgerError> {
    match Coerce(lib, record)
    case Err(rejection) => Err(Validation(rejection))
    case Ok(e) => Answer(lib, log, e)
  }

  /** What ingesting one record leaves. */
  function RecordLog(lib: Library, log: Log, record: Record): Log {
    match Coerce(lib, record)
    case Err(_) => log
    case Ok(e) => Append(log, e)
  }

  /** What a batch answers: a rejection, a conflict, or one result per event. */
  function BatchAnswer(lib: Library, log: Log, records: seq<Record>): Result<seq<IngestResult>, LedgerError> {
    match Coerced(lib, records)
    case Err(rejection) => Err(Validation(rejection))
    case Ok(events) => EventsAnswer(lib, log, events)
  }

  function EventsAnswer(lib: Library, log: Log, events: seq<Event>): Result<seq<IngestResult>, LedgerError> {
    var t := Batch(log, events);
    if t.Aborted? then Err(Conflicting(t.conflict))
    else Ok(ResultsOf(lib, events, t.receipts))
  }

  /** What a batch leaves: its committed rows, or the ledger as it was. */
  function BatchLog(lib: Library, log: Log, records: seq<Record>): Log {
    match Coerced(lib, records)
    case Err(_) => log
    case Ok(events) => var t := Batch(log, events); if t.Committed? then t.log else log
  }

  /** Every event object handed in was built by `from_mapping`. */
  ghost predicate Sound(records: seq<Record>) {
    forall r | r in records && r.Canonicalised? :: ValidEvent(r.event)
  }

  class EventLedger {
    const lib: Library
    var rows: seq<Row>
    ghost var log: Log

    ghost predicate Valid()
      reads this
    {
      lib.Lawful() && LogOk(log) && Stores(lib, rows, log)
    }

    constructor (lib: Library)
      requires lib.Lawful()
      ensures Valid() && this.lib == lib && log == [] && rows == []
    {
      this.lib := lib;
      rows := [];
      log := [];
    }

    /** Text lookup by identity agrees with the abstract one. */
    lemma LookupAgrees(id: string)
      requires Valid()
      ensures RowOfId(rows, id) == IdIndex(log, id)
    {
      var i, j := RowOfId(rows, id), IdIndex(log, id);
      assert !(i < j) && !(j < i);
    }

    lemma SameCount()
      requires Valid()
      ensures |rows| == |log|
    {
    }

    /** The committed row of an identity holds the candidate's text exactly when it holds its event. */
    lemma ExistingRow(i: nat, e: Event)
      requires Valid() && ValidEvent(e) && i < |rows| && i < |log|
      ensures rows[i].canonicalJson == Canonical(lib, e) <==> log[i] == e
      ensures rows[i].ordinal == i + 1 && rows[i].contentSha256 == ContentDigest(lib, log[i])
    {
      hide ValidEvent, Canonical;
      assert rows[i] == RowOf(lib, i + 1, log[i]) && log[i] in log;
      CanonicalInjective(lib, log[i], e);
    }

    /** The unique source position is taken in the table exactly when it is in the log. */
    lemma PositionsAgree(e: Event)
      requires Valid()
      ensures (exists j | 0 <= j < |rows| ::
               rows[j].sourceId == e.sourceId && rows[j].sourceSequence == e.sourceSequence)
         <==> PositionTaken(log, e)
    {
      hide LogOk, Canonical;
      if j :| 0 <= j < |rows| && rows[j].sourceId == e.sourceId && rows[j].sourceSequence == e.sourceSequence {
        assert SamePosition(log[j], e);
      }
      if PositionTaken(log, e) {
        var j :| 0 <= j < |log| && SamePosition(log[j], e);
        assert rows[j] == RowOf(lib, j + 1, log[j]);
      }
    }

    /** `_ingest_in_transaction`: identity first, then source position, then the insert. */
    method IngestInTransaction(e: Event) returns (r: Result<IngestResult, LedgerError>)
      requires Valid() && ValidEvent(e)
      modifies this
      ensures Valid()
      ensures log == Append(old(log), e) && old(rows) <= rows
      ensures r == Answer(lib, old(log), e)
    {
      hide LogOk, Stores, Canonical, PositionTaken;
      var canonical := Canonical(lib, e);
      var digest := lib.sha256(canonical);
      var existing := RowOfId(rows, e.eventId);
      LookupAgrees(e.eventId);
      SameCount();
      if existing < |rows| {
        ExistingRow(existing, e);
        if rows[existing].canonicalJson == canonical {
          r := Ok(IngestResult(Duplicate, e.eventId, rows[existing].ordinal, rows[existing].contentSha256));
        } else {
          r := Err(Conflicting(IdentityConflict));
        }
        return;
      }
      if e.sourceSequence >= SEQUENCE_LIMIT {
        return Err(Conflicting(SequenceOverflow));
      }
      var taken := exists j | 0 <= j < |rows| ::
        rows[j].sourceId == e.sourceId && rows[j].sourceSequence == e.sourceSequence;
      PositionsAgree(e);
      if taken {
        return Err(Conflicting(SequenceConflict));
      }
      AppendKeepsLogOk(log, e);
      StoresExtend(lib, rows, log, e);
      rows := rows + [RowOf(lib, |rows| + 1, e)];
      log := log + [e];
      r := Ok(IngestResult(Accepted, e.eventId, |rows|, digest));
    }

    /** The comprehension over `_coerce`, which runs before BEGIN. */
    method CoerceAll(records: seq<Record>) returns (r: Result<seq<Event>, Rejection>)
      requires Sound(records)
      ensures r == Coerced(lib, records)
      ensures r.Ok? ==> |r.value| == |records| && AllValid(r.value)
    {
      var events: seq<Event> := [];
      for i := 0 to |records|
        invariant Coerced(lib, records[..i]) == Ok(events) && |events| == i && AllValid(events)
      {
        assert records[..i + 1][..i] == records[..i];
        match Coerce(lib, records[i]) {
          case Err(rejection) =>
            CoercedFails(lib, records, i);
            return Err(rejection);
          case Ok(e) =>
            assert records[i] in records;
            if records[i].Mapping? { AcceptedIsValid(lib, records[i].json); }
            events := events + [e];
        }
      }
      assert records[..|records|] == records;
      r := Ok(events);
    }

    /** The statements between BEGIN and COMMIT; a conflict leaves a partial transaction behind. */
    method IngestEach(events: seq<Event>) returns (r: Result<seq<IngestResult>, LedgerError>)
      requires Valid() && AllValid(events)
      modifies this
      ensures Valid() && old(log) <= log
      ensures r == EventsAnswer(lib, old(log), events)
      ensures r.Ok? ==> log == Batch(old(log), events).log
    {
      hide LogOk, Stores, Judge, ValidEvent, ResultOf;
      var results: seq<IngestResult> := [];
      assert events[..0] == [] && ResultsOf(lib, [], []) == [];
      for i := 0 to |events|
        invariant Valid() && old(log) <= log
        invariant Batch(old(log), events[..i]).Committed? && log == Batch(old(log), events[..i]).log
        invariant EventsAnswer(lib, old(log), events[..i]) == Ok(results)
      {
        assert events[i] in events && events[..i + 1] == events[..i] + [events[i]];
        AnswersExtend(lib, old(log), events[..i], events[i]);
        var result := IngestInTransaction(events[i]);
        if result.Err? {
          BatchAborts(old(log), events, i + 1);
          return Err(result.error);
        }
        results := results + [result.value];
      }
      assert events[..|events|] == events;
      r := Ok(results);
    }

    /** `ingest_many`: commit the whole batch or leave the ledger as it was. */
    method IngestMany(records: seq<Record>) returns (r: Result<seq<IngestResult>, LedgerError>)
      requires Valid() && Sound(records)
      modifies this
      ensures Valid() && old(log) <= log && old(rows) <= rows
      ensures log == BatchLog(lib, old(log), records)
      ensures r == BatchAnswer(lib, old(log), records)
    {
      var coerced := CoerceAll(records);
      if coerced.Err? {
        return Err(Validation(coerced.error));
      }
      var events := coerced.value;
      if events == [] {
        NothingToIngest(lib, log);
        return Ok([]);
      }
      var savedRows := rows;
      ghost var savedLog := log;
      r := IngestEach(events);
      if r.Err? {
        rows := savedRows;
        log := savedLog;
      }
      RowsFollowLog(lib, savedRows, savedLog, rows, log);
    }

    /** `ingest`: a batch of one. */
    method Ingest(record: Record) returns (r: Result<IngestResult, LedgerError>)
      requires Valid() && Sound([record])
      modifies this
      ensures Valid()
      ensures log == RecordLog(lib, old(log), record) && old(rows) <= rows
      ensures r == RecordAnswer(lib, old(log), record)
    {
      var batch := IngestMany([record]);
      SingletonBatch(lib, old(log), record);
      match batch {
        case Err(error) => r := Err(error);
        case Ok(results) => r := Ok(results[0]);
      }
    }

    /** A row of the ledger passes the integrity check and decodes to its event. */
    lemma RowLoads(i: nat)
      requires Valid() && i < |rows|
      ensures i < |log| && Load(lib, rows[i]) == Ok(Stored(lib, i + 1, log[i]))
    {
      hide Load, Stored, RowOf, ValidEvent;
      assert rows[i] == RowOf(lib, i + 1, log[i]) && log[i] in log;
      LoadWritten(lib, i + 1, log[i]);
    }

    /** The queryable columns of a row never disagree with the text they were taken from. */
    lemma RowColumns(i: nat)
      requires Valid() && i < |rows|
      ensures ColumnsAgree(lib, rows[i]) && rows[i].ordinal == i + 1
    {
      hide ColumnsAgree, RowOf, ValidEvent;
      assert rows[i] == RowOf(lib, i + 1, log[i]) && log[i] in log;
      WrittenColumnsAgree(lib, i + 1, log[i]);
    }

    method Count() returns (n: nat)
      requires Valid()
      ensures n == |log|
    {
      n := |rows|;
    }

    /** `find_event`: on a ledger it wrote itself, the integrity check never fires. */
    method FindEvent(id: string) returns (r: Result<Option<StoredEvent>, LedgerError>)
      requires Valid()
      ensures r == Ok(var i := IdIndex(log, id);
                      if i < |log| then Some(Stored(lib, i + 1, log[i])) else None)
    {
      hide LogOk, Load, Stored;
      var i := RowOfId(rows, id);
      LookupAgrees(id);
      if i == |rows| {
        return Ok(None);
      }
      RowLoads(i);
      match Load(lib, rows[i]) {
        case Ok(stored) => r := Ok(Some(stored));
        case Err(error) => r := Err(error);
      }
    }

    /** `read_events`: every committed event in append order. */
    method ReadEvents() returns (r: Result<seq<StoredEvent>, LedgerError>)
      requires Valid()
      ensures r == Ok(StoredRows(lib, log))
    {
      hide LogOk, Load, Stored;
      var stored: seq<StoredEvent> := [];
      for i := 0 to |rows|
        invariant stored == StoredRows(lib, log)[..i]
      {
        RowLoads(i);
        assert StoredRows(lib, log)[..i + 1] == StoredRows(lib, log)[..i] + [Stored(lib, i + 1, log[i])];
        match Load(lib, rows[i]) {
          case Ok(s) => stored := stored + [s];
          case Err(error) => return Err(error);
        }
      }
      assert StoredRows(lib, log)[..|rows|] == StoredRows(lib, log);
      r := Ok(stored);
    }
  }

  /** Answers accumulate one event at a time, and stop at the first conflict. */
  lemma AnswersExtend(lib: Library, log: Log, front: seq<Event>, e: Event)
    requires Batch(log, front).Committed?
    ensures EventsAnswer(lib, log, []) == Ok([])
    ensures var before := Batch(log, front).log;
            match Answer(lib, before, e)
            case Err(error) => Batch(log, front + [e]).Aborted? && EventsAnswer(lib, log, front + [e]) == Err(error)
            case Ok(result) =>
              && Batch(log, front + [e]).Committed? && Batch(log, front + [e]).log == Append(before, e)
              && EventsAnswer(lib, log, front + [e]) == Ok(EventsAnswer(lib, log, front).value + [result])
  {
    assert (front + [e])[..|front|] == front;
    assert ResultsOf(lib, [], []) == [];
    var before, t := Batch(log, front), Batch(log, front + [e]);
    if t.Committed? {
      var receipt := ReceiptOf(before.log, Judge(before.log, e));
      assert t.receipts == before.receipts + [receipt];
      assert ResultsOf(lib, front + [e], before.receipts + [receipt])
          == ResultsOf(lib, front, before.receipts) + [ResultOf(lib, e, receipt)];
    }
  }

  lemma NothingToIngest(lib: Library, log: Log)
    ensures EventsAnswer(lib, log, []) == Ok([]) && Batch(log, []) == Committed(log, [])
  {
    assert ResultsOf(lib, [], []) == [];
  }

  lemma {:induction false} CoercedFails(lib: Library, records: seq<Record>, i: nat)
    requires i < |records| && Coerced(lib, records[..i]).Ok? && Coerce(lib, records[i]).Err?
    ensures Coerced(lib, records) == Err(Coerce(lib, records[i]).error)
    decreases |records|
  {
    var last := |records| - 1;
    if i < last {
      assert records[..last][..i] == records[..i];
      CoercedFails(lib, records[..last], i);
    }
  }

  /** Records become events one by one: all of them, or the first bad one's rejection. */
  lemma {:induction false} CoercedTells(lib: Library, records: seq<Record>)
    ensures var events := Coerced(lib, records);
            if events.Ok? then
              |events.value| == |records|
                && forall i | 0 <= i < |records| :: Coerce(lib, records[i]) == Ok(events.value[i])
            else
              exists i | 0 <= i < |records| ::
                Coerce(lib, records[i]) == Err(events.error) && forall j | 0 <= j < i :: Coerce(lib, records[j]).Ok?
  {
    if records != [] {
      var n := |records| - 1;
      CoercedTells(lib, records[..n]);
      var before := Coerced(lib, records[..n]);
      if before.Err? {
        var i :| 0 <= i < n && Coerce(lib, records[..n][i]) == Err(before.error)
          && forall j | 0 <= j < i :: Coerce(lib, records[..n][j]).Ok?;
        assert Coerce(lib, records[i]) == Err(before.error);
        forall j | 0 <= j < i ensures Coerce(lib, records[j]).Ok? {
          assert records[..n][j] == records[j];
        }
      } else {
        forall j | 0 <= j < n ensures Coerce(lib, records[j]).Ok? {
          assert records[..n][j] == records[j];
        }
      }
    }
  }

  /** What a committed batch answers of event i: its identity, the row that holds it, ACCEPTED when neither the
      ledger nor the batch had it before, and the digest of its canonical text. */
  lemma ResultsTell(lib: Library, log: Log, events: seq<Event>, i: nat)
    requires LogOk(log) && AllValid(events) && i < |events|
    ensures var answer, t := EventsAnswer(lib, log, events), Batch(log, events);
            answer.Ok? ==>
              && t.Committed? && |answer.value| == |events|
              && var result := answer.value[i];
                 && result.eventId == events[i].eventId
                 && 1 <= result.ordinal <= |t.log| && t.log[result.ordinal - 1] == events[i]
                 && (result.status.Accepted? <==> events[i] !in log && events[i] !in events[..i])
                 && result.contentSha256 == lib.sha256(lib.encode(ToMapping(lib, events[i])))
  {
    hide Batch, LogOk, ToMapping, AllValid;
    if EventsAnswer(lib, log, events).Ok? {
      BatchReceipts(log, events);
    }
  }

  lemma UseValid(ledger: EventLedger)
    requires ledger.Valid()
    ensures ledger.lib.Lawful() && LogOk(ledger.log)
  {
  }

  /** A batch of one record answers and leaves what the record does. */
  lemma SingletonBatch(lib: Library, log: Log, record: Record)
    ensures BatchLog(lib, log, [record]) == RecordLog(lib, log, record)
    ensures BatchAnswer(lib, log, [record])
         == match RecordAnswer(lib, log, record)
            case Ok(result) => Ok([result])
            case Err(error) => Err(error)
  {
    hide Batch, EventsAnswer, Answer, Append, Coerce;
    OneCoerced(lib, record);
    if Coerce(lib, record).Ok? {
      var e := Coerce(lib, record).value;
      NothingToIngest(lib, log);
      AnswersExtend(lib, log, [], e);
      assert [] + [e] == [e];
      BatchOfOne(lib, log, e);
      if Answer(lib, log, e).Ok? {
        assert [] + [Answer(lib, log, e).value] == [Answer(lib, log, e).value];
      }
    }
  }

  lemma OneCoerced(lib: Library, record: Record)
    ensures Coerced(lib, [record])
         == match Coerce(lib, record) case Ok(e) => Ok([e]) case Err(rejection) => Err(rejection)
  {
    assert [record][..0] == [] && Coerced(lib, []) == Ok([]);
    if Coerce(lib, record).Ok? {
      assert [] + [Coerce(lib, record).value] == [Coerce(lib, record).value];
    }
  }

  /** Appending a refused event changes nothing, so an aborted batch of one leaves what `Append` does. */
  lemma BatchOfOne(lib: Library, log: Log, e: Event)
    ensures Batch(log, [e]).Aborted? ==> Append(log, e) == log
  {
    assert [e][..0] == [] && Batch(log, []) == Committed(log, []);
  }
}
