/** Histories of whole deliveries: what redelivery changes
    (`src/edge_evidence/recovery.py`, `src/edge_evidence/mqtt.py`). */
module Histories {
  import opened Libraries
  import opened Events
  import opened Logs
  import opened Mqtt
  import opened Deliveries

  /** A message handed to a runtime, and when. */
  datatype Arrival = Arrival(message: Message, at: Instant)

  /** The ledger after a history. A crash between deliveries loses counters, not rows, so it does
      not appear here; the steps within a delivery are those of `Protocol`. */
  function Replayed(lib: Library, log: Log, history: seq<Arrival>): Log {
    if history == [] then log
    else
      var before := Replayed(lib, log, history[..|history| - 1]);
      var last := history[|history| - 1];
      LogAfter(lib, before, last.message, last.at)
  }

  /** How delivery number i of a history ended. */
  function Outcome(lib: Library, log: Log, history: seq<Arrival>, i: nat): Delivery
    requires i < |history|
  {
    Deliver(lib, Replayed(lib, log, history[..i]), history[i].message, history[i].at)
  }

  /** Over any history the ledger stays valid and every earlier state is a prefix of every later one. */
  lemma {:induction false} HistoryAppendsOnly(lib: Library, log: Log, history: seq<Arrival>, i: nat)
    requires LogOk(log) && i <= |history|
    ensures LogOk(Replayed(lib, log, history[..i])) && LogOk(Replayed(lib, log, history))
    ensures Replayed(lib, log, history[..i]) <= Replayed(lib, log, history)
    decreases |history|
  {
    if i == |history| {
      assert history[..i] == history;
    }
    if history != [] {
      var front := history[..|history| - 1];
      if i < |history| {
        assert front[..i] == history[..i];
        HistoryAppendsOnly(lib, log, front, i);
      } else {
        HistoryAppendsOnly(lib, log, front, |front|);
      }
      var last := history[|history| - 1];
      DeliveryKeepsLogOk(lib, Replayed(lib, log, front), last.message, last.at);
    }
  }

  /** Delivery i of the history reached the ledger, and this is the same message again at a receipt
      time not before the observation. */
  predicate Redelivers(lib: Library, history: seq<Arrival>, i: nat, again: Arrival)
    requires i < |history|
  {
    && MqttToEvent(lib, history[i].message, history[i].at).Ok?
    && again.message == history[i].message
    && again.at.Utc?
    && MqttToEvent(lib, history[i].message, history[i].at).value.observedAt <= again.at.micros
  }

  /** The answer a settled delivery gets from then on. */
  ghost predicate Settled(first: Delivery, second: Delivery) {
    match first
    case AcceptedAt(id, ordinal) => second == DuplicateOf(id, ordinal)
    case DuplicateOf(id, ordinal) => second == DuplicateOf(id, ordinal)
    case Rejected(_) => second == Rejected(LedgerConflict)
    case Raised => second == Rejected(LedgerConflict) || second.Raised?
  }

  /** After any history, redelivering any of its ledger-reaching messages changes no row: what was
      accepted or a duplicate is a DUPLICATE of its first row, and what conflicted conflicts still. */
  lemma RedeliveryIsIdempotent(lib: Library, log: Log, history: seq<Arrival>, i: nat, again: Arrival)
    requires lib.Lawful() && LogOk(log) && i < |history| && Redelivers(lib, history, i, again)
    ensures var final := Replayed(lib, log, history);
            && LogAfter(lib, final, again.message, again.at) == final
            && Settled(Outcome(lib, log, history, i), Deliver(lib, final, again.message, again.at))
  {
    hide MqttToEvent, LogOk, ValidEvent, Prepare, Report, Append;
    var before := Replayed(lib, log, history[..i]);
    var e := MqttToEvent(lib, history[i].message, history[i].at).value;
    HistoryAppendsOnly(lib, log, history, i);
    HistoryAppendsOnly(lib, log, history, i + 1);
    assert history[..i + 1][..i] == history[..i];
    assert Replayed(lib, log, history[..i + 1]) == LogAfter(lib, before, history[i].message, history[i].at);
    DecodedIsValid(lib, history[i].message, history[i].at);
    ReceiptTimeOnlyStamps(lib, history[i].message, history[i].at, again.at.micros);
    ReportedId(before, e);
    RedeliverySettled(before, e, Replayed(lib, log, history), e.(ingestedAt := again.at.micros));
  }

  lemma ReportedId(log: Log, e: Event)
    ensures var d := Report(log, Prepare(log, e)); d.AcceptedAt? || d.DuplicateOf? ==> d.eventId == e.eventId
  {
  }

  /** Any number of such redeliveries, in any order, still change no row. */
  lemma {:induction false} RedeliveriesChangeNothing(lib: Library, log: Log, history: seq<Arrival>, again: seq<Arrival>,
                                                     from: seq<nat>)
    requires lib.Lawful() && LogOk(log) && |from| == |again|
    requires forall k | 0 <= k < |again| :: from[k] < |history| && Redelivers(lib, history, from[k], again[k])
    ensures Replayed(lib, Replayed(lib, log, history), again) == Replayed(lib, log, history)
    ensures forall k | 0 <= k < |again| ::
              Settled(Outcome(lib, log, history, from[k]), Outcome(lib, Replayed(lib, log, history), again, k))
  {
    hide MqttToEvent, LogOk, LogAfter, Deliver;
    if again != [] {
      var n := |again| - 1;
      RedeliveriesChangeNothing(lib, log, history, again[..n], from[..n]);
      RedeliveryIsIdempotent(lib, log, history, from[n], again[n]);
      forall k | 0 <= k < |again|
        ensures Settled(Outcome(lib, log, history, from[k]), Outcome(lib, Replayed(lib, log, history), again, k))
      {
        if k < n {
          assert again[..n][..k] == again[..k] && again[..n][k] == again[k] && from[..n][k] == from[k];
        }
      }
    }
  }
}
