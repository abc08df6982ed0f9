/** The ingestion runtime and its counters: the stateful half of `src/edge_evidence/mqtt.py`. */
module Runtimes {
  import opened Wrappers
  import opened JsonValues
  import opened Libraries
  import opened Events
  import opened Logs
  import opened Ledgers
  import opened Mqtt
  import opened Deliveries

  class RuntimeMetrics {
    var messagesReceived: nat
    var accepted: nat
    var duplicates: nat
    var rejected: nat
    var disconnects: nat
    var reconnects: nat
    ghost var raised: nat // calls that ended in an exception, which the source does not count

    constructor ()
      ensures View() == ZERO && disconnects == 0 && reconnects == 0
    {
      messagesReceived, accepted, duplicates, rejected, disconnects, reconnects := 0, 0, 0, 0, 0, 0;
      raised := 0;
    }

    ghost function View(): Counts
      reads this
    {
      Counts(messagesReceived, accepted, duplicates, rejected, raised)
    }
  }

  class MqttIngestionRuntime {
    const ledger: EventLedger
    const metrics: RuntimeMetrics

    constructor (ledger: EventLedger)
      ensures this.ledger == ledger && fresh(metrics)
      ensures metrics.View() == ZERO && metrics.disconnects == 0 && metrics.reconnects == 0
    {
      this.ledger := ledger;
      this.metrics := new RuntimeMetrics();
    }

    method RecordDisconnect()
      modifies metrics
      ensures metrics.View() == old(metrics.View())
      ensures metrics.disconnects == old(metrics.disconnects) + 1 && metrics.reconnects == old(metrics.reconnects)
    {
      metrics.disconnects := metrics.disconnects + 1;
    }

    method RecordReconnect()
      modifies metrics
      ensures metrics.View() == old(metrics.View())
      ensures metrics.reconnects == old(metrics.reconnects) + 1 && metrics.disconnects == old(metrics.disconnects)
    {
      metrics.reconnects := metrics.reconnects + 1;
    }

    /** The lookup half of `_ingest_locked`: a repeated delivery becomes the committed event. */
    method Resolve(event: Event) returns (r: Result<Event, LedgerError>)
      requires ledger.Valid() && ValidEvent(event)
      ensures r == Ok(Prepare(ledger.log, event))
    {
      hide LogOk, ValidEvent, Stores, SameDelivery, Comparable;
      assert ledger.lib.Lawful();
      var found := ledger.FindEvent(event.eventId);
      match found {
        case Err(error) => r := Err(error);
        case Ok(None) => r := Ok(event);
        case Ok(Some(existing)) =>
          SameDeliveryIsMappingEquality(ledger.lib, event, existing.event);
          if PyEqual(Obj(Comparable(ledger.lib, event)), Obj(Comparable(ledger.lib, existing.event))) {
            r := Ok(existing.event);
          } else {
            r := Ok(event);
          }
      }
    }

    /** `ingest`: count the message, decode it, look it up, commit it, and count the outcome. */
    method Ingest(m: Message, receivedAt: Instant) returns (d: Delivery)
      requires ledger.Valid()
      modifies metrics, ledger
      ensures ledger.Valid() && old(ledger.rows) <= ledger.rows
      ensures d == Deliver(ledger.lib, old(ledger.log), m, receivedAt)
      ensures ledger.log == LogAfter(ledger.lib, old(ledger.log), m, receivedAt)
      ensures metrics.View() == Tally(old(metrics.View()).(received := old(metrics.View()).received + 1), d)
      ensures metrics.disconnects == old(metrics.disconnects) && metrics.reconnects == old(metrics.reconnects)
    {
      hide MqttToEvent, ValidEvent, LogOk, Stores, Prepare, Judge, Append, IdIndex, ContentDigest;
      metrics.messagesReceived := metrics.messagesReceived + 1;
      var decoded := MqttToEvent(ledger.lib, m, receivedAt);
      if decoded.Err? {
        metrics.rejected := metrics.rejected + 1;
        return Rejected(decoded.error);
      }
      var event := decoded.value;
      DecodedIsValid(ledger.lib, m, receivedAt);
      PreparedIsValid(ledger.log, event);
      var target := Resolve(event);
      var result := ledger.Ingest(Canonicalised(target.value));
      if result.Err? {
        if result.error == Conflicting(SequenceOverflow) {
          metrics.raised := metrics.raised + 1;
          d := Raised;
        } else {
          metrics.rejected := metrics.rejected + 1;
          d := Rejected(LedgerConflict);
        }
      } else if result.value.status.Accepted? {
        metrics.accepted := metrics.accepted + 1;
        d := AcceptedAt(result.value.eventId, result.value.ordinal);
      } else {
        metrics.duplicates := metrics.duplicates + 1;
        d := DuplicateOf(result.value.eventId, result.value.ordinal);
      }
    }
  }
}
