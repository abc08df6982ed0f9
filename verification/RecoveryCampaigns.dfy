/** The campaign that crashes a writer and redelivers: `run_recovery_campaign`. */
module RecoveryCampaigns {
  import opened Libraries
  import opened Events
  import opened Logs
  import opened Ledgers
  import opened Mqtt
  import opened Deliveries
  import opened Runtimes
  import opened Histories
  import opened Recovery

  const FIVE_MINUTES: int := 300 * SECOND

  /** `_deliver` in a loop; a rejected or raising delivery ends it. */
  method DeliverAll(runtime: MqttIngestionRuntime, events: seq<Event>, times: seq<int>, ghost kept: seq<int>)
    returns (ok: bool)
    requires runtime.ledger.Valid() && LogOk(events)
    requires Playable(events, kept) && Playable(events, times)
    requires runtime.ledger.log == Stamped(events, Session(kept))
    requires runtime.metrics.View() == ZERO
    modifies runtime.metrics, runtime.ledger
    ensures runtime.ledger.Valid() && ok
    ensures runtime.ledger.log == Stamped(events, Session(Extend(kept, times)))
    ensures runtime.metrics.View() == if |times| <= |kept| then Counts(|times|, 0, |times|, 0, 0)
                                      else Counts(|times|, |times| - |kept|, |kept|, 0, 0)
    ensures runtime.metrics.disconnects == old(runtime.metrics.disconnects)
    ensures runtime.metrics.reconnects == old(runtime.metrics.reconnects)
  {
    hide MqttToEvent, EventToMqtt, LogOk, LogAfter, Deliver, Stores, Deliverable, Distinct, Stamped, Extend,
         FirstAttempts, Replayed, Tallied, Tally, Arrivals;
    ghost var lib := runtime.ledger.lib;
    ghost var log := runtime.ledger.log;
    UseValid(runtime.ledger);
    NothingDelivered(lib, events, log);
    for i := 0 to |times|
      invariant runtime.ledger.Valid()
      invariant runtime.ledger.log == Replayed(lib, log, Arrivals(lib, events, Session(times[..i])))
      invariant runtime.metrics.View() == Tallied(lib, log, ZERO, Arrivals(lib, events, Session(times[..i])))
      invariant runtime.metrics.disconnects == old(runtime.metrics.disconnects)
      invariant runtime.metrics.reconnects == old(runtime.metrics.reconnects)
    {
      DeliverStep(lib, events, kept, times, i);
      var delivery := runtime.Ingest(EventToMqtt(runtime.ledger.lib, events[i]), Utc(times[i]));
      if delivery.Rejected? || delivery.Raised? {
        assert false;
        return false;
      }
    }
    assert times[..|times|] == times && times[..0] == [];
    SessionOutcome(lib, events, kept, times);
    SessionLedger(lib, events, kept, times);
    ok := true;
  }

  lemma NothingDelivered(lib: Library, events: seq<Event>, log: Log)
    ensures var history := Arrivals(lib, events, Session([]));
            Replayed(lib, log, history) == log && Tallied(lib, log, ZERO, history) == ZERO
  {
  }

  /** One turn of the loop: the next event is delivered, and not refused. */
  lemma DeliverStep(lib: Library, events: seq<Event>, kept: seq<int>, times: seq<int>, i: nat)
    requires lib.Lawful() && LogOk(events) && Playable(events, kept) && Playable(events, times) && i < |times|
    requires LogOk(Stamped(events, Session(kept)))
    ensures var log, m := Stamped(events, Session(kept)), EventToMqtt(lib, events[i]);
            var before, after := Arrivals(lib, events, Session(times[..i])),
                                 Arrivals(lib, events, Session(times[..i + 1]));
            var reached, counts := Replayed(lib, log, before), Tallied(lib, log, ZERO, before);
            var d := Deliver(lib, reached, m, Utc(times[i]));
            && Replayed(lib, log, after) == LogAfter(lib, reached, m, Utc(times[i]))
            && Tallied(lib, log, ZERO, after) == Tally(counts.(received := counts.received + 1), d)
            && !d.Rejected? && !d.Raised?
  {
    hide MqttToEvent, EventToMqtt, LogOk, LogAfter, Deliver, Stamped, Extend, Deliverable, Distinct, FirstAttempts;
    assert times[..i + 1][..i] == times[..i];
    ArrivalsExtend(lib, events, times[..i + 1]);
    SessionLedger(lib, events, kept, times[..i]);
    SessionStep(lib, events, kept, times[..i + 1]);
  }

  function SameTimes(events: seq<Event>, delay: int): seq<int> {
    seq(|events|, i requires 0 <= i < |events| => events[i].ingestedAt + delay)
  }

  /** The event a campaign keeps in row i: received at its own time before the crash, five minutes later after. */
  function KeptEvent(events: seq<Event>, crashAfter: nat, i: nat): Event
    requires i < |events|
  {
    events[i].(ingestedAt := events[i].ingestedAt + if i < crashAfter then 0 else 300_000_000)
  }

  /** The reference receives the first events at their own time and the rest five minutes late; the
      campaign crashes after those first events and redelivers all of them five minutes late. */
  method RunRecoveryCampaign(lib: Library, events: seq<Event>, crashAfter: nat)
    returns (reference: EventLedger, recovered: EventLedger, runtime: MqttIngestionRuntime, committed: nat)
    requires lib.Lawful() && LogOk(events) && 1 <= crashAfter < |events|
    ensures fresh(reference) && reference.Valid() && fresh(recovered) && recovered.Valid()
    ensures reference.lib == lib && recovered.lib == lib
    ensures recovered.log == reference.log && recovered.rows == reference.rows
    ensures |recovered.log| == |events| && committed == crashAfter
    ensures forall i | 0 <= i < |events| :: recovered.log[i] == KeptEvent(events, crashAfter, i)
    ensures runtime.ledger == recovered
    ensures runtime.metrics.View() == Counts(|events|, |events| - crashAfter, crashAfter, 0, 0)
    ensures runtime.metrics.disconnects == 1 && runtime.metrics.reconnects == 1
  {
    hide LogOk, Stores, Stamped, Session, Extend, Playable, SameTimes, KeptEvent;
    var prompt, late := SameTimes(events, 0), SameTimes(events, FIVE_MINUTES);
    CrashedTimes(events, crashAfter);
    KeptEvents(events, crashAfter);

    reference := new EventLedger(lib);
    var referenceRuntime := new MqttIngestionRuntime(reference);
    var mixed := prompt[..crashAfter] + late[crashAfter..];
    var ok := DeliverAll(referenceRuntime, events, mixed, []);

    recovered := new EventLedger(lib);
    var worker := new MqttIngestionRuntime(recovered);
    ok := DeliverAll(worker, events, prompt[..crashAfter], []);
    committed := recovered.Count();

    runtime := new MqttIngestionRuntime(recovered);
    runtime.RecordDisconnect();
    runtime.RecordReconnect();
    ok := DeliverAll(runtime, events, late, prompt[..crashAfter]);
    SameLogSameRows(reference, recovered);
  }

  lemma TimesArePlayable(events: seq<Event>)
    requires LogOk(events)
    ensures Playable(events, SameTimes(events, 0)) && Playable(events, SameTimes(events, FIVE_MINUTES))
  {
    forall i | 0 <= i < |events| ensures events[i].observedAt <= events[i].ingestedAt {
      assert events[i] in events;
    }
  }

  /** The receipt times of the campaign's three deliveries, and what the ledger keeps of them. */
  lemma CrashedTimes(events: seq<Event>, crashAfter: nat)
    requires LogOk(events) && crashAfter <= |events|
    ensures var prompt, late := SameTimes(events, 0), SameTimes(events, FIVE_MINUTES);
            && |prompt| == |late| == |events|
            && var mixed := prompt[..crashAfter] + late[crashAfter..];
               && Playable(events, []) && Playable(events, prompt[..crashAfter]) && Playable(events, late)
               && Playable(events, mixed)
               && Extend([], mixed) == mixed && Extend([], prompt[..crashAfter]) == prompt[..crashAfter]
               && Extend(prompt[..crashAfter], late) == mixed
               && Stamped(events, Session([])) == []
               && |Stamped(events, Session(mixed))| == |events|
               && |Stamped(events, Session(prompt[..crashAfter]))| == crashAfter
  {
    hide LogOk;
    TimesArePlayable(events);
  }

  /** What the reference keeps, event by event. */
  lemma KeptEvents(events: seq<Event>, crashAfter: nat)
    requires crashAfter <= |events|
    ensures var mixed := SameTimes(events, 0)[..crashAfter] + SameTimes(events, FIVE_MINUTES)[crashAfter..];
            var kept := Stamped(events, Session(mixed));
            |kept| == |events| && forall i | 0 <= i < |events| :: kept[i] == KeptEvent(events, crashAfter, i)
  {
  }

  /** Equal events are equal rows: ordinal, content and digest. */
  lemma SameLogSameRows(a: EventLedger, b: EventLedger)
    requires a.Valid() && b.Valid() && a.lib == b.lib && a.log == b.log
    ensures a.rows == b.rows
  {
  }
}
