/** Crash and redelivery of one event sequence: `src/edge_evidence/recovery.py`. */
module Recovery {
  import opened Libraries
  import opened Events
  import opened Logs
  import opened Mqtt
  import opened Deliveries
  import opened Histories

  /** Delivering event number `index` at receipt time `at`. */
  datatype Attempt = Attempt(index: nat, at: int)

  ghost predicate Deliverable(events: seq<Event>, schedule: seq<Attempt>) {
    forall k | 0 <= k < |schedule| ::
      schedule[k].index < |events| && events[schedule[k].index].observedAt <= schedule[k].at
  }

  /** The deliveries of a schedule; crashes between them leave no trace in it. */
  function Arrivals(lib: Library, events: seq<Event>, schedule: seq<Attempt>): seq<Arrival>
    requires forall k | 0 <= k < |schedule| :: schedule[k].index < |events|
  {
    seq(|schedule|, k requires 0 <= k < |schedule| =>
      Arrival(EventToMqtt(lib, events[schedule[k].index]), Utc(schedule[k].at)))
  }

  predicate Attempted(schedule: seq<Attempt>, index: nat) {
    exists k | 0 <= k < |schedule| :: schedule[k].index == index
  }

  /** The first attempt at each event, in the order they happened. */
  function FirstAttempts(schedule: seq<Attempt>): seq<Attempt> {
    if schedule == [] then []
    else
      var firsts := FirstAttempts(schedule[..|schedule| - 1]);
      var last := schedule[|schedule| - 1];
      if Attempted(firsts, last.index) then firsts else firsts + [last]
  }

  ghost predicate Distinct(schedule: seq<Attempt>) {
    forall j, k | 0 <= j < k < |schedule| :: schedule[j].index != schedule[k].index
  }

  function Received(e: Event, at: int): Event {
    e.(ingestedAt := at)
  }

  /** The events of some attempts, each stamped with its receipt time. */
  function Stamped(events: seq<Event>, attempts: seq<Attempt>): Log
    requires forall k | 0 <= k < |attempts| :: attempts[k].index < |events|
  {
    seq(|attempts|, k requires 0 <= k < |attempts| => Received(events[attempts[k].index], attempts[k].at))
  }

  lemma {:induction false} FirstsAreDistinct(events: seq<Event>, schedule: seq<Attempt>)
    requires Deliverable(events, schedule)
    ensures Deliverable(events, FirstAttempts(schedule))
    ensures Distinct(FirstAttempts(schedule))
  {
    if schedule != [] {
      FirstsAreDistinct(events, schedule[..|schedule| - 1]);
    }
  }

  /** One delivery of event i to a ledger holding exactly the events of some distinct attempts. */
  lemma AttemptStep(lib: Library, events: seq<Event>, firsts: seq<Attempt>, next: Attempt)
    requires lib.Lawful() && LogOk(events)
    requires Deliverable(events, firsts) && next.index < |events| && events[next.index].observedAt <= next.at
    requires Distinct(firsts)
    requires LogOk(Stamped(events, firsts))
    ensures var log, m := Stamped(events, firsts), EventToMqtt(lib, events[next.index]);
            if Attempted(firsts, next.index) then
              && LogAfter(lib, log, m, Utc(next.at)) == log
              && Deliver(lib, log, m, Utc(next.at)).DuplicateOf?
            else
              && LogAfter(lib, log, m, Utc(next.at)) == Stamped(events, firsts + [next])
              && Deliver(lib, log, m, Utc(next.at)).AcceptedAt?
  {
    hide MqttToEvent, EventToMqtt, LogOk;
    var log, e := Stamped(events, firsts), Received(events[next.index], next.at);
    assert events[next.index] in events;
    assert Unique(events) && ValidEvent(events[next.index]) && Storable(events[next.index]) && Unique(log) by {
      UseLogOk(events);
      UseLogOk(log);
    }
    MqttRoundTrip(lib, events[next.index], next.at);
    if Attempted(firsts, next.index) {
      var k :| 0 <= k < |firsts| && firsts[k].index == next.index;
      assert log[k] == Received(events[next.index], firsts[k].at);
      IdIndexOf(log, k);
    } else {
      forall k | 0 <= k < |log| ensures log[k].eventId != e.eventId && !SamePosition(log[k], e) {
        assert log[k] == Received(events[firsts[k].index], firsts[k].at);
        assert firsts[k].index != next.index;
      }
      assert log + [e] == Stamped(events, firsts + [next]);
    }
  }

  /** Whatever the order and repetition of whole deliveries, the ledger holds each event once, in order of
      first delivery, at its first receipt time. `Convergence` has crashes fall within deliveries too. */
  lemma {:induction false} ScheduleCommitsFirsts(lib: Library, events: seq<Event>, schedule: seq<Attempt>)
    requires lib.Lawful() && LogOk(events) && Deliverable(events, schedule)
    ensures Deliverable(events, FirstAttempts(schedule))
    ensures Replayed(lib, [], Arrivals(lib, events, schedule)) == Stamped(events, FirstAttempts(schedule))
    ensures LogOk(Stamped(events, FirstAttempts(schedule)))
  {
    hide MqttToEvent, EventToMqtt, LogOk, LogAfter;
    FirstsAreDistinct(events, schedule);
    var history := Arrivals(lib, events, schedule);
    if schedule == [] {
      assert Stamped(events, []) == [];
      EmptyLogOk();
    } else {
      var front, last := schedule[..|schedule| - 1], schedule[|schedule| - 1];
      ScheduleCommitsFirsts(lib, events, front);
      FirstsAreDistinct(events, front);
      assert history[..|history| - 1] == Arrivals(lib, events, front);
      AttemptStep(lib, events, FirstAttempts(front), last);
      HistoryAppendsOnly(lib, [], history, 0) by { EmptyLogOk(); }
    }
  }

  lemma {:induction false} FirstsAreTheirOwn(schedule: seq<Attempt>)
    requires Distinct(schedule)
    ensures FirstAttempts(schedule) == schedule
  {
    if schedule != [] {
      FirstsAreTheirOwn(schedule[..|schedule| - 1]);
    }
  }

  /** Convergence: a redelivered run leaves the ledger of the uninterrupted run that
      delivers each event once, at its first receipt time, row for row. */
  lemma RedeliveryConverges(lib: Library, events: seq<Event>, schedule: seq<Attempt>)
    requires lib.Lawful() && LogOk(events) && Deliverable(events, schedule)
    ensures Deliverable(events, FirstAttempts(schedule))
    ensures Replayed(lib, [], Arrivals(lib, events, schedule))
         == Replayed(lib, [], Arrivals(lib, events, FirstAttempts(schedule)))
  {
    ScheduleCommitsFirsts(lib, events, schedule);
    FirstsAreDistinct(events, schedule);
    FirstsAreTheirOwn(FirstAttempts(schedule));
    ScheduleCommitsFirsts(lib, events, FirstAttempts(schedule));
  }

  /** One process lifetime: the events from the first on, each at its time, until a crash or the end. */
  function Session(times: seq<int>): seq<Attempt> {
    seq(|times|, i requires 0 <= i < |times| => Attempt(i, times[i]))
  }

  function Sessions(lifetimes: seq<seq<int>>): seq<Attempt> {
    if lifetimes == [] then []
    else Sessions(lifetimes[..|lifetimes| - 1]) + Session(lifetimes[|lifetimes| - 1])
  }

  /** The receipt times the ledger keeps: a new session only adds what no earlier one reached. */
  function KeptTimes(lifetimes: seq<seq<int>>): seq<int> {
    if lifetimes == [] then []
    else Extend(KeptTimes(lifetimes[..|lifetimes| - 1]), lifetimes[|lifetimes| - 1])
  }

  function Extend(kept: seq<int>, times: seq<int>): seq<int> {
    if |times| <= |kept| then kept else kept + times[|kept|..]
  }

  lemma {:induction false} SessionExtends(schedule: seq<Attempt>, kept: seq<int>, times: seq<int>)
    requires FirstAttempts(schedule) == Session(kept)
    ensures FirstAttempts(schedule + Session(times)) == Session(Extend(kept, times))
    decreases |times|
  {
    if times == [] {
      assert schedule + Session(times) == schedule;
    } else {
      var front, n := times[..|times| - 1], |times| - 1;
      var whole := schedule + Session(times);
      SessionExtends(schedule, kept, front);
      assert whole[..|whole| - 1] == schedule + Session(front);
      assert whole[|whole| - 1] == Attempt(n, times[n]);
      NextAttempt(kept, times);
    }
  }

  /** Within a session, event n is a first attempt exactly when no earlier session reached it. */
  lemma NextAttempt(kept: seq<int>, times: seq<int>)
    requires times != []
    ensures var n := |times| - 1;
            var firsts := Session(Extend(kept, times[..n]));
            && (Attempted(firsts, n) <==> n < |kept|)
            && Session(Extend(kept, times)) == if n < |kept| then firsts else firsts + [Attempt(n, times[n])]
  {
    var n := |times| - 1;
    var firsts := Session(Extend(kept, times[..n]));
    if n < |kept| {
      assert firsts[n].index == n;
    } else {
      assert Extend(kept, times) == Extend(kept, times[..n]) + [times[n]];
    }
  }

  /** However often the process crashes and starts the sequence again, the ledger is the one an
      uninterrupted session at the kept times would have written. */
  lemma {:induction false} SessionsKeepOrder(lifetimes: seq<seq<int>>)
    ensures FirstAttempts(Sessions(lifetimes)) == Session(KeptTimes(lifetimes))
  {
    if lifetimes != [] {
      var front := lifetimes[..|lifetimes| - 1];
      SessionsKeepOrder(front);
      SessionExtends(Sessions(front), KeptTimes(front), lifetimes[|lifetimes| - 1]);
    }
  }

  /** What a runtime's counters show after a history. */
  function Tallied(lib: Library, log: Log, counts: Counts, history: seq<Arrival>): Counts {
    if history == [] then counts
    else
      var before := Tallied(lib, log, counts, history[..|history| - 1]);
      Tally(before.(received := before.received + 1), Outcome(lib, log, history, |history| - 1))
  }

  /** Every event of the session can be delivered at its time. */
  ghost predicate Playable(events: seq<Event>, times: seq<int>) {
    |times| <= |events| && forall i | 0 <= i < |times| :: events[i].observedAt <= times[i]
  }

  /** A session on a ledger an earlier one left adds the events that one did not reach. */
  lemma {:induction false} SessionLedger(lib: Library, events: seq<Event>, kept: seq<int>, times: seq<int>)
    requires lib.Lawful() && LogOk(events) && Playable(events, kept) && Playable(events, times)
    requires LogOk(Stamped(events, Session(kept)))
    ensures var log, history := Stamped(events, Session(kept)), Arrivals(lib, events, Session(times));
            && Replayed(lib, log, history) == Stamped(events, Session(Extend(kept, times)))
            && LogOk(Replayed(lib, log, history))
    decreases |times|
  {
    hide MqttToEvent, EventToMqtt, LogOk, LogAfter, Deliver, Stamped;
    var log, history := Stamped(events, Session(kept)), Arrivals(lib, events, Session(times));
    HistoryAppendsOnly(lib, log, history, 0);
    if times == [] {
      assert Session(times) == [] && Extend(kept, times) == kept;
    } else {
      SessionLedger(lib, events, kept, times[..|times| - 1]);
      ArrivalsExtend(lib, events, times);
      SessionStep(lib, events, kept, times);
    }
  }

  /** In such a session the events already there are duplicates, the rest are accepted, and nothing
      is rejected or raises. */
  lemma {:induction false} SessionOutcome(lib: Library, events: seq<Event>, kept: seq<int>, times: seq<int>)
    requires lib.Lawful() && LogOk(events) && Playable(events, kept) && Playable(events, times)
    requires LogOk(Stamped(events, Session(kept)))
    ensures Tallied(lib, Stamped(events, Session(kept)), ZERO, Arrivals(lib, events, Session(times)))
         == if |times| <= |kept| then Counts(|times|, 0, |times|, 0, 0)
            else Counts(|times|, |times| - |kept|, |kept|, 0, 0)
    decreases |times|
  {
    hide MqttToEvent, EventToMqtt, LogOk, LogAfter, Deliver, Stamped, Replayed, Extend;
    if times == [] {
      assert Session(times) == [];
    } else {
      var n := |times| - 1;
      SessionOutcome(lib, events, kept, times[..n]);
      SessionLedger(lib, events, kept, times[..n]);
      ArrivalsExtend(lib, events, times);
      SessionStep(lib, events, kept, times);
    }
  }

  lemma SessionStep(lib: Library, events: seq<Event>, kept: seq<int>, times: seq<int>)
    requires lib.Lawful() && LogOk(events) && Playable(events, kept) && Playable(events, times) && times != []
    requires LogOk(Stamped(events, Session(Extend(kept, times[..|times| - 1]))))
    ensures var n := |times| - 1;
            var log, m := Stamped(events, Session(Extend(kept, times[..n]))), EventToMqtt(lib, events[n]);
            && LogAfter(lib, log, m, Utc(times[n])) == Stamped(events, Session(Extend(kept, times)))
            && (if n < |kept| then Deliver(lib, log, m, Utc(times[n])).DuplicateOf?
                else Deliver(lib, log, m, Utc(times[n])).AcceptedAt?)
  {
    hide MqttToEvent, EventToMqtt, LogOk, LogAfter, Deliver, Deliverable, Distinct;
    var n := |times| - 1;
    NextAttempt(kept, times);
    SessionDeliverable(events, kept, times[..n]);
    AttemptStep(lib, events, Session(Extend(kept, times[..n])), Attempt(n, times[n]));
  }

  lemma SessionDeliverable(events: seq<Event>, kept: seq<int>, times: seq<int>)
    requires Playable(events, kept) && Playable(events, times)
    ensures Deliverable(events, Session(Extend(kept, times))) && Distinct(Session(Extend(kept, times)))
  {
  }

  lemma ArrivalsExtend(lib: Library, events: seq<Event>, times: seq<int>)
    requires 0 < |times| <= |events|
    ensures var n := |times| - 1;
            var history := Arrivals(lib, events, Session(times));
            && |history| == |times|
            && history[..n] == Arrivals(lib, events, Session(times[..n]))
            && history[n] == Arrival(EventToMqtt(lib, events[n]), Utc(times[n]))
  {
  }
}
