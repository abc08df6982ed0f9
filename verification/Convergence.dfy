/** Several processes whose calls do not overlap, and their crashes (`src/edge_evidence/recovery.py`,
    `src/edge_evidence/mqtt.py`). */
module Convergence {
  // What the steps of lookup, commit, failure, crash and acknowledgement leave is what whole deliveries leave, and
  // redelivery converges.

  import opened Wrappers
  import opened Libraries
  import opened Events
  import opened Logs
  import opened Mqtt
  import opened Deliveries
  import opened Histories
  import opened Recovery
  import opened Protocol

  // ---- Runs as histories of whole deliveries ----

  /** No two processes are between lookup and commit at once, as when only one process runs. */
  predicate Alone(s: System) {
    forall v, w | v in s.workers && w in s.workers && s.workers[v].phase.LookedUp? && s.workers[w].phase.LookedUp? ::
      v == w
  }

  lemma OneProcessIsAlone(s: System)
    requires |s.workers| <= 1
    ensures Alone(s)
  {
    forall v, w | v in s.workers && w in s.workers ensures v == w {
      assert |s.workers.Keys - {v}| == 0;
    }
  }

  /** So it is at every moment of a run. */
  ghost predicate Serial(lib: Library, steps: seq<Step>) {
    && Runs(lib, EMPTY, steps)
    && forall i | 0 <= i <= |steps| :: Runs(lib, EMPTY, steps[..i]) && Alone(Run(lib, EMPTY, steps[..i]))
  }

  predicate Settles(ending: Ending) {
    ending.candidate.Some? && !ending.delivery.Raised?
  }

  /** The calls that decoded their message and returned: those that reached the end of their commit. */
  function Settlements(endings: seq<Ending>): seq<Ending> {
    if endings == [] then []
    else
      var before, last := Settlements(endings[..|endings| - 1]), endings[|endings| - 1];
      if Settles(last) then before + [last] else before
  }

  /** The delivery an ending is the end of: its message at its receipt time. */
  function ArrivalOf(ending: Ending): Arrival {
    Arrival(ending.publication.message,
            if ending.candidate.Some? then Utc(ending.candidate.value.ingestedAt) else NotUtc)
  }

  function ArrivalsOf(endings: seq<Ending>): seq<Arrival> {
    seq(|endings|, k requires 0 <= k < |endings| => ArrivalOf(endings[k]))
  }

  /** The deliveries that committed, in order. */
  function Committed(s: System): seq<Arrival> {
    ArrivalsOf(Settlements(s.endings))
  }

  /** The ledger and the answers of whole deliveries, one after the other. */
  ghost predicate Follows(lib: Library, log: Log, settled: seq<Ending>) {
    && log == Replayed(lib, [], ArrivalsOf(settled))
    && forall k | 0 <= k < |settled| :: Answered(lib, settled, k)
  }

  ghost predicate Answered(lib: Library, settled: seq<Ending>, k: nat)
    requires k < |settled|
  {
    settled[k].delivery == Outcome(lib, [], ArrivalsOf(settled), k) && Decodes(lib, settled[k])
  }

  /** The recorded candidate is what its message decodes to. */
  predicate Decodes(lib: Library, ending: Ending) {
    && ending.candidate.Some?
    && MqttToEvent(lib, ending.publication.message, Utc(ending.candidate.value.ingestedAt))
      == Ok(ending.candidate.value)
  }

  /** A process between lookup and commit works on what the ledger still says. */
  ghost predicate Current(lib: Library, log: Log, phase: Phase) {
    phase.LookedUp? ==>
      && MqttToEvent(lib, phase.publication.message, Utc(phase.candidate.ingestedAt)) == Ok(phase.candidate)
      && phase.target == Prepare(log, phase.candidate)
  }

  ghost predicate Follower(lib: Library, s: System) {
    && Follows(lib, s.log, Settlements(s.endings))
    && forall w | w in s.workers :: Current(lib, s.log, s.workers[w].phase)
  }

  lemma SettlementsExtend(endings: seq<Ending>, ending: Ending)
    ensures Settlements(endings + [ending])
         == if Settles(ending) then Settlements(endings) + [ending] else Settlements(endings)
  {
    assert (endings + [ending])[..|endings|] == endings;
  }

  /** One more settled call is one more whole delivery. */
  lemma FollowsExtends(lib: Library, log: Log, settled: seq<Ending>, ending: Ending)
    requires Follows(lib, log, settled) && Decodes(lib, ending)
    requires ending.delivery == Report(log, Prepare(log, ending.candidate.value))
    ensures Follows(lib, Append(log, Prepare(log, ending.candidate.value)), settled + [ending])
  {
    hide MqttToEvent, Prepare, Report, Append;
    var more := settled + [ending];
    var arrivals := ArrivalsOf(more);
    assert arrivals[..|settled|] == ArrivalsOf(settled);
    forall k | 0 <= k < |more| ensures Answered(lib, more, k) {
      if k < |settled| {
        assert Answered(lib, settled, k);
        assert arrivals[..k] == ArrivalsOf(settled)[..k];
      }
    }
  }

  lemma ReceiveFollows(lib: Library, s: System, w: nat, publication: Publication, at: Instant)
    requires lib.Lawful() && Follower(lib, s) && Enabled(s, Receive(w, publication, at))
    ensures Follower(lib, ReceiveStep(lib, s, w, publication, at))
  {
    hide MqttToEvent, Prepare, Follows;
    var decoded := MqttToEvent(lib, publication.message, at);
    if decoded.Err? {
      SettlementsExtend(s.endings, Ending(publication, None, None, Rejected(decoded.error)));
    } else {
      StampedAtReceipt(lib, publication.message, at);
    }
  }

  lemma StampedAtReceipt(lib: Library, m: Message, at: Instant)
    requires lib.Lawful() && MqttToEvent(lib, m, at).Ok?
    ensures at == Utc(MqttToEvent(lib, m, at).value.ingestedAt)
  {
    ReceiptTimeOnlyStamps(lib, m, at, 0);
  }

  lemma CommitFollows(lib: Library, s: System, w: nat)
    requires Follower(lib, s) && Alone(s) && Enabled(s, Commit(w))
    ensures Follower(lib, CommitStep(s, w))
  {
    hide MqttToEvent, Prepare, Follows, Report, Append;
    var LookedUp(publication, candidate, target, hit) := s.workers[w].phase;
    assert Current(lib, s.log, s.workers[w].phase);
    var ending := Ending(publication, Some(candidate), hit, Report(s.log, target));
    SettlementsExtend(s.endings, ending);
    if Settles(ending) {
      FollowsExtends(lib, s.log, Settlements(s.endings), ending);
    } else {
      RaisedAddsNothing(s.log, target);
    }
  }

  lemma RaisedAddsNothing(log: Log, target: Event)
    requires Report(log, target).Raised?
    ensures Append(log, target) == log
  {
  }

  lemma StepFollows(lib: Library, s: System, step: Step)
    requires lib.Lawful() && Follower(lib, s) && Alone(s) && Enabled(s, step)
    ensures Follower(lib, Next(lib, s, step))
  {
    hide MqttToEvent, Prepare, Follows, ReceiveStep, CommitStep, Current;
    match step
    case Open(w) => assert Current(lib, s.log, Idle) by { IdleIsCurrent(lib, s.log); }
    case Receive(w, publication, at) => ReceiveFollows(lib, s, w, publication, at);
    case Commit(w) => CommitFollows(lib, s, w);
    case Fail(w) =>
      IdleIsCurrent(lib, s.log);
      var LookedUp(publication, candidate, _, hit) := s.workers[w].phase;
      SettlementsExtend(s.endings, Ending(publication, Some(candidate), hit, Raised));
    case Ack(w, sent) => IdleIsCurrent(lib, s.log);
    case Crash(w) =>
  }

  lemma IdleIsCurrent(lib: Library, log: Log)
    ensures Current(lib, log, Idle)
  {
  }

  lemma SerialFront(lib: Library, steps: seq<Step>)
    requires Serial(lib, steps) && steps != []
    ensures Serial(lib, steps[..|steps| - 1])
  {
    hide Run, Runs, Alone;
    var front := steps[..|steps| - 1];
    forall i | 0 <= i <= |front| ensures Runs(lib, EMPTY, front[..i]) && Alone(Run(lib, EMPTY, front[..i])) {
      assert front[..i] == steps[..i];
    }
    assert front[..|front|] == front;
  }

  /** Refinement: when calls do not overlap, the ledger and every answer are those of whole deliveries, one
      after the other, whatever failed, crashed or went unacknowledged between lookup and commit or after. */
  lemma SerialRunIsHistory(lib: Library, steps: seq<Step>)
    requires lib.Lawful() && Serial(lib, steps)
    ensures var s := Run(lib, EMPTY, steps);
            var settled := Settlements(s.endings);
            && s.log == Replayed(lib, [], Committed(s))
            && forall k | 0 <= k < |settled| :: settled[k].delivery == Outcome(lib, [], Committed(s), k)
  {
    FollowsRun(lib, steps);
    var s := Run(lib, EMPTY, steps);
    var settled := Settlements(s.endings);
    forall k | 0 <= k < |settled| ensures settled[k].delivery == Outcome(lib, [], Committed(s), k) {
      assert Answered(lib, settled, k);
    }
  }

  lemma {:induction false} FollowsRun(lib: Library, steps: seq<Step>)
    requires lib.Lawful() && Serial(lib, steps)
    ensures Follower(lib, Run(lib, EMPTY, steps))
    decreases |steps|
  {
    hide Follower, Next, Alone;
    if steps == [] {
      assert Follower(lib, EMPTY) by { EmptyFollows(lib); }
    } else {
      var front := steps[..|steps| - 1];
      SerialFront(lib, steps);
      FollowsRun(lib, front);
      assert front[..|front|] == front;
      StepFollows(lib, Run(lib, EMPTY, front), steps[|steps| - 1]);
    }
  }

  lemma EmptyFollows(lib: Library)
    ensures Follower(lib, EMPTY)
  {
  }

  // ---- Convergence ----

  predicate Publishes(lib: Library, events: seq<Event>, m: Message) {
    exists i | 0 <= i < |events| :: m == EventToMqtt(lib, events[i])
  }

  /** The broker delivers the messages of these events only. */
  ghost predicate Carries(lib: Library, events: seq<Event>, steps: seq<Step>) {
    forall k | 0 <= k < |steps| && steps[k].Receive? :: Publishes(lib, events, steps[k].publication.message)
  }

  ghost predicate Carried(lib: Library, events: seq<Event>, s: System) {
    && (forall x | x in s.endings :: Publishes(lib, events, x.publication.message))
    && (forall w | w in s.workers && s.workers[w].phase.LookedUp? ::
          Publishes(lib, events, s.workers[w].phase.publication.message))
  }

  lemma StepCarries(lib: Library, events: seq<Event>, s: System, step: Step)
    requires Carried(lib, events, s) && Enabled(s, step)
    requires step.Receive? ==> Publishes(lib, events, step.publication.message)
    ensures Carried(lib, events, Next(lib, s, step))
  {
    hide MqttToEvent, Prepare, Report, Append, Publishes, Hit;
  }

  lemma {:induction false} RunCarries(lib: Library, events: seq<Event>, steps: seq<Step>)
    requires Runs(lib, EMPTY, steps) && Carries(lib, events, steps)
    ensures Carried(lib, events, Run(lib, EMPTY, steps))
    decreases |steps|
  {
    hide Carried, Next, Publishes;
    if steps == [] {
      assert Carried(lib, events, EMPTY) by { EmptyCarries(lib, events); }
    } else {
      RunCarries(lib, events, steps[..|steps| - 1]);
      StepCarries(lib, events, Run(lib, EMPTY, steps[..|steps| - 1]), steps[|steps| - 1]);
    }
  }

  lemma EmptyCarries(lib: Library, events: seq<Event>)
    ensures Carried(lib, events, EMPTY)
  {
  }

  lemma {:induction false} SettlementsEnded(endings: seq<Ending>)
    ensures forall x | x in Settlements(endings) :: x in endings
  {
    if endings != [] {
      SettlementsEnded(endings[..|endings| - 1]);
    }
  }

  /** A settled call on the message of event i is an attempt at that event. */
  lemma AttemptOf(lib: Library, events: seq<Event>, i: nat, ending: Ending)
    requires lib.Lawful() && LogOk(events) && i < |events|
    requires Decodes(lib, ending) && ending.publication.message == EventToMqtt(lib, events[i])
    ensures events[i].observedAt <= ending.candidate.value.ingestedAt
    ensures ArrivalOf(ending) == Arrival(EventToMqtt(lib, events[i]), Utc(ending.candidate.value.ingestedAt))
  {
    hide MqttToEvent, EventToMqtt, LogOk;
    var e, m, t := events[i], EventToMqtt(lib, events[i]), ending.candidate.value.ingestedAt;
    assert e in events;
    assert ValidEvent(e) by { UseLogOk(events); }
    MqttRoundTrip(lib, e, e.observedAt);
    ReceiptTimeOnlyStamps(lib, m, Utc(e.observedAt), t);
  }

  /** The schedule of the attempts that settled. */
  lemma {:induction false} ScheduleOf(lib: Library, events: seq<Event>, settled: seq<Ending>)
    returns (schedule: seq<Attempt>)
    requires lib.Lawful() && LogOk(events)
    requires forall k | 0 <= k < |settled| ::
             Decodes(lib, settled[k]) && Publishes(lib, events, settled[k].publication.message)
    ensures Deliverable(events, schedule) && ArrivalsOf(settled) == Arrivals(lib, events, schedule)
  {
    hide MqttToEvent, EventToMqtt, LogOk, Decodes;
    schedule := [];
    if settled != [] {
      var front, last := settled[..|settled| - 1], settled[|settled| - 1];
      var before := ScheduleOf(lib, events, front);
      var i :| 0 <= i < |events| && last.publication.message == EventToMqtt(lib, events[i]);
      AttemptOf(lib, events, i, last);
      schedule := before + [Attempt(i, ArrivalOf(last).at.micros)];
      assert ArrivalsOf(settled) == ArrivalsOf(front) + [ArrivalOf(last)];
      assert schedule[..|schedule| - 1] == before && |schedule| == |settled|;
      assert Arrivals(lib, events, schedule) == Arrivals(lib, events, before) + [ArrivalOf(last)];
    }
  }

  /** Every delivery of a schedule is accepted or a duplicate. */
  lemma ScheduleAnswers(lib: Library, events: seq<Event>, schedule: seq<Attempt>, k: nat)
    requires lib.Lawful() && LogOk(events) && Deliverable(events, schedule) && k < |schedule|
    ensures var answer := Outcome(lib, [], Arrivals(lib, events, schedule), k);
            answer.AcceptedAt? || answer.DuplicateOf?
  {
    hide MqttToEvent, EventToMqtt, LogOk, Deliver, LogAfter;
    ScheduleCommitsFirsts(lib, events, schedule[..k]);
    FirstsAreDistinct(events, schedule[..k]);
    assert Arrivals(lib, events, schedule)[..k] == Arrivals(lib, events, schedule[..k]);
    AttemptStep(lib, events, FirstAttempts(schedule[..k]), schedule[k]);
  }

  /** The ledger holds each event of the schedule once, in order of first commit, at its first receipt time. */
  ghost predicate Converged(lib: Library, events: seq<Event>, s: System, schedule: seq<Attempt>) {
    && Deliverable(events, schedule) && Deliverable(events, FirstAttempts(schedule))
    && Committed(s) == Arrivals(lib, events, schedule)
    && s.log == Stamped(events, FirstAttempts(schedule))
  }

  /** Convergence with crashes at every step: whatever processes start, fail, crash or leave
      unacknowledged, and however often the broker delivers again, the ledger holds each event whose call
      reached its commit once, in order of first commit, at its first receipt time, and every such call was
      answered ACCEPTED or DUPLICATE. */
  lemma CrashesConverge(lib: Library, events: seq<Event>, steps: seq<Step>)
    requires lib.Lawful() && LogOk(events) && Serial(lib, steps) && Carries(lib, events, steps)
    ensures var s := Run(lib, EMPTY, steps);
            && (exists schedule :: Converged(lib, events, s, schedule))
            && forall x | x in Settlements(s.endings) :: x.delivery.AcceptedAt? || x.delivery.DuplicateOf?
  {
    hide LogOk, Deliverable, Replayed, Outcome, Serial, Publishes, Run, Runs;
    assert Runs(lib, EMPTY, steps) by { SerialRuns(lib, steps); }
    var s := Run(lib, EMPTY, steps);
    var settled := Settlements(s.endings);
    FollowsRun(lib, steps);
    RunCarries(lib, events, steps);
    SettlementsEnded(s.endings);
    forall k | 0 <= k < |settled|
      ensures Decodes(lib, settled[k]) && Publishes(lib, events, settled[k].publication.message)
    {
      assert Answered(lib, settled, k);
      assert settled[k] in s.endings;
    }
    var schedule := ScheduleOf(lib, events, settled);
    ScheduleCommitsFirsts(lib, events, schedule);
    assert Converged(lib, events, s, schedule);
    forall x | x in settled ensures x.delivery.AcceptedAt? || x.delivery.DuplicateOf? {
      var k :| 0 <= k < |settled| && settled[k] == x;
      assert Answered(lib, settled, k);
      ScheduleAnswers(lib, events, schedule, k);
    }
  }

  lemma SerialRuns(lib: Library, steps: seq<Step>)
    requires Serial(lib, steps)
    ensures Runs(lib, EMPTY, steps)
  {
  }
}
