/** Several runtimes on one database, step by step (`src/edge_evidence/mqtt.py`,
    `src/edge_evidence/paho_consumer.py`). */
module Protocol {
  // Lookup and commit are separate transactions, an acknowledgement follows the return of the runtime, any process may
  // crash at any point, and the broker may deliver anything again (sections 4.3.2 and 4.4 of OASIS MQTT 3.1.1).

  import opened Wrappers
  import opened Libraries
  import opened Events
  import opened Logs
  import opened Mqtt
  import opened Deliveries

  datatype Publication = Publication(mid: nat, qos: nat, message: Message)

  /** How a call of the runtime ended: the decoded event if decoding succeeded, the ordinal of the
      matching row if the lookup found one, and the answer. */
  datatype Ending = Ending(publication: Publication, candidate: Option<Event>, hit: Option<nat>, delivery: Delivery)

  datatype Phase =
    | Idle
    | LookedUp(publication: Publication, candidate: Event, target: Event, hit: Option<nat>)
    | Returned(ending: Ending)

  /** One process: what its runtime is doing and its process-local counters. */
  datatype Worker = Worker(phase: Phase, counts: Counts)

  /** `endings` and `acked` record the history; no process reads them. */
  datatype System = System(log: Log, workers: map<nat, Worker>, endings: seq<Ending>, acked: seq<Ending>)

  datatype Step =
    | Open(w: nat)                                       // a process starts
    | Receive(w: nat, publication: Publication, at: Instant) // count, decode, find_event
    | Commit(w: nat)                                     // ledger.ingest and the outcome counter
    | Fail(w: nat)                                       // the call raises before its commit
    | Ack(w: nat, sent: bool)                            // client.ack, which may fail to send
    | Crash(w: nat)                                      // the process dies

  const EMPTY := System([], map[], [], [])

  predicate Enabled(s: System, step: Step) {
    match step
    case Open(w) => w !in s.workers
    case Receive(w, _, _) => w in s.workers && s.workers[w].phase.Idle?
    case Commit(w) => w in s.workers && s.workers[w].phase.LookedUp?
    case Fail(w) => w in s.workers && s.workers[w].phase.LookedUp?
    case Ack(w, _) => w in s.workers && s.workers[w].phase.Returned?
    case Crash(w) => w in s.workers
  }

  function Hit(log: Log, e: Event): Option<nat> {
    var i := IdIndex(log, e.eventId);
    if i < |log| && SameDelivery(e, log[i]) then Some(i + 1) else None
  }

  /** A call ends: it is counted and recorded, and only a returned call is left to acknowledge. */
  function End(s: System, w: nat, log: Log, ending: Ending): System
    requires w in s.workers
  {
    var phase := if ending.delivery.Raised? then Idle else Returned(ending);
    System(log, s.workers[w := Worker(phase, Tally(s.workers[w].counts, ending.delivery))],
           s.endings + [ending], s.acked)
  }

  function SetPhase(s: System, w: nat, phase: Phase): System
    requires w in s.workers
  {
    s.(workers := s.workers[w := s.workers[w].(phase := phase)])
  }

  function CountReceived(s: System, w: nat): System
    requires w in s.workers
  {
    var counts := s.workers[w].counts;
    s.(workers := s.workers[w := s.workers[w].(counts := counts.(received := counts.received + 1))])
  }

  function ReceiveStep(lib: Library, s: System, w: nat, publication: Publication, at: Instant): System
    requires w in s.workers
  {
    match MqttToEvent(lib, publication.message, at)
    case Err(reason) => End(CountReceived(s, w), w, s.log, Ending(publication, None, None, Rejected(reason)))
    case Ok(e) => SetPhase(CountReceived(s, w), w, LookedUp(publication, e, Prepare(s.log, e), Hit(s.log, e)))
  }

  function CommitStep(s: System, w: nat): System
    requires w in s.workers && s.workers[w].phase.LookedUp?
  {
    var LookedUp(publication, candidate, target, hit) := s.workers[w].phase;
    End(s, w, Append(s.log, target), Ending(publication, Some(candidate), hit, Report(s.log, target)))
  }

  function FailStep(s: System, w: nat): System
    requires w in s.workers && s.workers[w].phase.LookedUp?
  {
    var LookedUp(publication, candidate, _, hit) := s.workers[w].phase;
    End(s, w, s.log, Ending(publication, Some(candidate), hit, Raised))
  }

  function AckStep(s: System, w: nat, sent: bool): System
    requires w in s.workers && s.workers[w].phase.Returned?
  {
    var ending := s.workers[w].phase.ending;
    var done := SetPhase(s, w, Idle);
    if sent && ending.publication.qos > 0 then done.(acked := s.acked + [ending]) else done
  }

  function Next(lib: Library, s: System, step: Step): System
    requires Enabled(s, step)
  {
    match step
    case Open(w) => s.(workers := s.workers[w := Worker(Idle, ZERO)])
    case Receive(w, publication, at) => ReceiveStep(lib, s, w, publication, at)
    case Commit(w) => CommitStep(s, w)
    case Fail(w) => FailStep(s, w)
    case Ack(w, sent) => AckStep(s, w, sent)
    case Crash(w) => s.(workers := s.workers - {w})
  }

  /** Every step of the sequence is enabled where it is taken. */
  predicate Runs(lib: Library, s: System, steps: seq<Step>)
    decreases |steps|, 0
  {
    steps == []
    || (Runs(lib, s, steps[..|steps| - 1]) && Enabled(Run(lib, s, steps[..|steps| - 1]), steps[|steps| - 1]))
  }

  function Run(lib: Library, s: System, steps: seq<Step>): System
    requires Runs(lib, s, steps)
    decreases |steps|, 1
  {
    if steps == [] then s
    else Next(lib, Run(lib, s, steps[..|steps| - 1]), steps[|steps| - 1])
  }

  /** The endings that answered ACCEPTED, in order. */
  function Acceptances(endings: seq<Ending>): seq<Ending> {
    if endings == [] then []
    else
      var before, last := Acceptances(endings[..|endings| - 1]), endings[|endings| - 1];
      if last.delivery.AcceptedAt? then before + [last] else before
  }

  /** The answer that an event was committed as this row, and as no other. */
  predicate AcceptedAs(log: Log, k: nat, ending: Ending)
    requires k < |log|
  {
    ending.candidate == Some(log[k]) && ending.delivery == AcceptedAt(log[k].eventId, k + 1)
  }

  /** Each row was ACCEPTED once, in row order. */
  predicate AcceptedInOrder(log: Log, accepted: seq<Ending>) {
    |accepted| == |log| && forall k | 0 <= k < |log| :: AcceptedAs(log, k, accepted[k])
  }

  /** What an ending adds to the ledger: its event if it answered ACCEPTED, else nothing. */
  predicate Adds(log: Log, after: Log, ending: Ending) {
    if ending.delivery.AcceptedAt?
    then |after| == |log| + 1 && log <= after && AcceptedAs(after, |log|, ending)
    else after == log
  }

  lemma AcceptancesExtend(log: Log, after: Log, endings: seq<Ending>, ending: Ending)
    requires AcceptedInOrder(log, Acceptances(endings)) && Adds(log, after, ending)
    ensures AcceptedInOrder(after, Acceptances(endings + [ending]))
  {
    assert (endings + [ending])[..|endings|] == endings;
    if ending.delivery.AcceptedAt? {
      forall k | 0 <= k < |log| ensures AcceptedAs(after, k, Acceptances(endings)[k]) {
        assert AcceptedAs(log, k, Acceptances(endings)[k]) && after[k] == log[k];
      }
    }
  }

  /** A committed row already holds the event's identity or its source position. */
  predicate Blocked(log: Log, e: Event) {
    exists j | 0 <= j < |log| :: log[j].eventId == e.eventId || SamePosition(log[j], e)
  }

  predicate HoldsRow(log: Log, ordinal: nat, e: Event) {
    1 <= ordinal <= |log| && SameDelivery(e, log[ordinal - 1])
  }

  /** What a recorded ending says about the ledger. */
  ghost predicate EndingOk(log: Log, ending: Ending) {
    && (match ending.delivery
        case AcceptedAt(id, ordinal) =>
          ending.candidate.Some? && HoldsRow(log, ordinal, ending.candidate.value)
          && log[ordinal - 1] == ending.candidate.value && id == ending.candidate.value.eventId
        case DuplicateOf(id, ordinal) =>
          ending.candidate.Some? && HoldsRow(log, ordinal, ending.candidate.value)
          && id == ending.candidate.value.eventId
        case Rejected(reason) =>
          if reason.LedgerConflict? then ending.candidate.Some? && Blocked(log, ending.candidate.value)
          else ending.candidate.None?
        case Raised => true)
    && (ending.hit.Some? && !ending.delivery.Raised? ==>
          ending.delivery.DuplicateOf? && ending.delivery.ordinal == ending.hit.value)
  }

  /** What a runtime between its lookup and its commit may rely on. */
  ghost predicate PhaseOk(log: Log, endings: seq<Ending>, phase: Phase) {
    match phase
    case Idle => true
    case LookedUp(_, candidate, target, hit) =>
      && ValidEvent(candidate) && ValidEvent(target)
      && (hit.None? ==> target == candidate)
      && (hit.Some? ==> HoldsRow(log, hit.value, candidate) && log[hit.value - 1] == target)
    case Returned(ending) => ending in endings && !ending.delivery.Raised?
  }

  /** A runtime's counters balance, but for the message it is working on. */
  predicate CountsOk(worker: Worker) {
    var c := worker.counts;
    c.received == c.accepted + c.duplicates + c.rejected + c.raised + (if worker.phase.LookedUp? then 1 else 0)
  }

  ghost predicate Inv(s: System) {
    && LogOk(s.log)
    && AcceptedInOrder(s.log, Acceptances(s.endings))
    && (forall ending | ending in s.endings :: EndingOk(s.log, ending))
    && (forall w | w in s.workers :: PhaseOk(s.log, s.endings, s.workers[w].phase) && CountsOk(s.workers[w]))
    && (forall ending | ending in s.acked :: ending in s.endings && !ending.delivery.Raised?)
  }

  /** Later in the same history. */
  ghost predicate Extends(s: System, t: System) {
    s.log <= t.log && s.endings <= t.endings && s.acked <= t.acked
  }

  lemma EndingStays(log: Log, later: Log, ending: Ending)
    requires EndingOk(log, ending) && log <= later
    ensures EndingOk(later, ending)
  {
    if ending.delivery.Rejected? && ending.delivery.reason.LedgerConflict? {
      var e := ending.candidate.value;
      var j :| 0 <= j < |log| && (log[j].eventId == e.eventId || SamePosition(log[j], e));
      assert later[j] == log[j];
    }
  }

  lemma PhaseStays(log: Log, later: Log, endings: seq<Ending>, more: seq<Ending>, phase: Phase)
    requires PhaseOk(log, endings, phase) && log <= later && endings <= more
    ensures PhaseOk(later, more, phase)
  {
  }

  /** Ending a call keeps the invariant when the record is truthful of the new ledger. */
  lemma EndKeepsInv(s: System, w: nat, log: Log, ending: Ending)
    requires Inv(s) && w in s.workers && s.log <= log && LogOk(log) && EndingOk(log, ending)
    requires Adds(s.log, log, ending)
    requires CountsOk(Worker(Idle, Tally(s.workers[w].counts, ending.delivery)))
    ensures Inv(End(s, w, log, ending)) && Extends(s, End(s, w, log, ending))
  {
    hide EndingOk, LogOk, PhaseOk, AcceptedInOrder, Acceptances, Adds;
    var t := End(s, w, log, ending);
    AcceptancesExtend(s.log, log, s.endings, ending);
    forall x | x in t.endings ensures EndingOk(log, x) {
      if x in s.endings { EndingStays(s.log, log, x); }
    }
    forall v | v in t.workers ensures PhaseOk(log, t.endings, t.workers[v].phase) && CountsOk(t.workers[v]) {
      if v == w {
        EndedPhase(log, t.endings, ending);
      } else {
        PhaseStays(s.log, log, s.endings, t.endings, s.workers[v].phase);
      }
    }
  }

  lemma EndedPhase(log: Log, endings: seq<Ending>, ending: Ending)
    requires ending in endings
    ensures PhaseOk(log, endings, if ending.delivery.Raised? then Idle else Returned(ending))
  {
  }

  lemma ReceiveKeepsInv(lib: Library, s: System, w: nat, publication: Publication, at: Instant)
    requires Inv(s) && Enabled(s, Receive(w, publication, at))
    ensures var t := ReceiveStep(lib, s, w, publication, at); Inv(t) && Extends(s, t)
  {
    hide MqttToEvent, LogOk, EndingOk;
    var counted := CountReceived(s, w);
    var t := ReceiveStep(lib, s, w, publication, at);
    if MqttToEvent(lib, publication.message, at).Ok? {
      var e := MqttToEvent(lib, publication.message, at).value;
      DecodedIsValid(lib, publication.message, at);
      PreparedIsValid(s.log, e);
      assert PhaseOk(s.log, s.endings, t.workers[w].phase);
    } else {
      var ending := t.endings[|s.endings|];
      assert EndingOk(s.log, ending) by {
        RefusalIsTruthful(s.log, publication, MqttToEvent(lib, publication.message, at).error, lib, at);
      }
      EndKeepsRejected(s, w, ending);
    }
  }

  /** Decoding never blames the ledger. */
  lemma RefusalIsTruthful(log: Log, publication: Publication, reason: Reason, lib: Library, at: Instant)
    requires MqttToEvent(lib, publication.message, at) == Err(reason)
    ensures !reason.LedgerConflict?
    ensures EndingOk(log, Ending(publication, None, None, Rejected(reason)))
  {
  }

  /** A call that ends in the receiving step itself. */
  lemma EndKeepsRejected(s: System, w: nat, ending: Ending)
    requires Inv(s) && w in s.workers && s.workers[w].phase.Idle?
    requires EndingOk(s.log, ending) && ending.delivery.Rejected?
    ensures var t := End(CountReceived(s, w), w, s.log, ending); Inv(t) && Extends(s, t)
  {
    hide EndingOk, LogOk, AcceptedInOrder, Acceptances;
    var t := End(CountReceived(s, w), w, s.log, ending);
    AcceptancesExtend(s.log, s.log, s.endings, ending);
    forall v | v in t.workers ensures PhaseOk(t.log, t.endings, t.workers[v].phase) && CountsOk(t.workers[v]) {
      if v != w {
        PhaseStays(s.log, s.log, s.endings, t.endings, s.workers[v].phase);
      }
    }
  }

  /** Committing after the lookup: the report is truthful of the ledger it leaves. */
  lemma CommitIsTruthful(log: Log, publication: Publication, candidate: Event, target: Event, hit: Option<nat>)
    requires LogOk(log) && PhaseOk(log, [], LookedUp(publication, candidate, target, hit))
    ensures var after := Append(log, target);
            var delivery := Report(log, target);
            && LogOk(after) && log <= after
            && Adds(log, after, Ending(publication, Some(candidate), hit, delivery))
            && EndingOk(after, Ending(publication, Some(candidate), hit, delivery))
  {
    hide Adds, EndingOk, LogOk, Append, Report;
    AppendKeepsLogOk(log, target) by { TargetIsValid(log, publication, candidate, target, hit); }
    CommitAdds(log, publication, candidate, target, hit);
    UseLogOk(log);
    if hit.Some? {
      HitEnds(log, publication, candidate, hit.value);
    } else {
      MissEnds(log, publication, candidate);
    }
  }

  lemma TargetIsValid(log: Log, publication: Publication, candidate: Event, target: Event, hit: Option<nat>)
    requires PhaseOk(log, [], LookedUp(publication, candidate, target, hit))
    ensures ValidEvent(target)
  {
  }

  lemma HitEnds(log: Log, publication: Publication, candidate: Event, hit: nat)
    requires Unique(log) && HoldsRow(log, hit, candidate)
    ensures var target := log[hit - 1];
            EndingOk(Append(log, target), Ending(publication, Some(candidate), Some(hit), Report(log, target)))
  {
    IdIndexOf(log, hit - 1);
  }

  lemma MissEnds(log: Log, publication: Publication, candidate: Event)
    ensures EndingOk(Append(log, candidate), Ending(publication, Some(candidate), None, Report(log, candidate)))
  {
    if Judge(log, candidate).Refused? {
      var i := IdIndex(log, candidate.eventId);
      if i < |log| {
        assert log[i].eventId == candidate.eventId;
      }
    } else {
      ReceiptNamesRow(log, candidate);
    }
  }

  lemma CommitAdds(log: Log, publication: Publication, candidate: Event, target: Event, hit: Option<nat>)
    requires PhaseOk(log, [], LookedUp(publication, candidate, target, hit))
    ensures Adds(log, Append(log, target), Ending(publication, Some(candidate), hit, Report(log, target)))
  {
    hide ValidEvent;
    if hit.Some? {
      var i := IdIndex(log, target.eventId);
      assert i < |log| && log[i].eventId == target.eventId;
    }
  }

  lemma CommitKeepsInv(s: System, w: nat)
    requires Inv(s) && Enabled(s, Commit(w))
    ensures Inv(CommitStep(s, w)) && Extends(s, CommitStep(s, w))
  {
    hide LogOk, EndingOk, Append, Report, AcceptedInOrder, Adds;
    var LookedUp(publication, candidate, target, hit) := s.workers[w].phase;
    assert PhaseOk(s.log, [], s.workers[w].phase);
    CommitIsTruthful(s.log, publication, candidate, target, hit);
    EndKeepsInv(s, w, Append(s.log, target), Ending(publication, Some(candidate), hit, Report(s.log, target)));
  }

  lemma FailKeepsInv(s: System, w: nat)
    requires Inv(s) && Enabled(s, Fail(w))
    ensures Inv(FailStep(s, w)) && Extends(s, FailStep(s, w))
  {
    var LookedUp(publication, candidate, _, hit) := s.workers[w].phase;
    EndKeepsInv(s, w, s.log, Ending(publication, Some(candidate), hit, Raised));
  }

  lemma AckKeepsInv(s: System, w: nat, sent: bool)
    requires Inv(s) && Enabled(s, Ack(w, sent))
    ensures Inv(AckStep(s, w, sent)) && Extends(s, AckStep(s, w, sent))
  {
    hide LogOk, EndingOk;
  }

  /** Each step of any process keeps the invariant and only adds to the ledger and the history. */
  lemma StepKeepsInv(lib: Library, s: System, step: Step)
    requires Inv(s) && Enabled(s, step)
    ensures Inv(Next(lib, s, step)) && Extends(s, Next(lib, s, step))
  {
    hide LogOk, EndingOk, ReceiveStep, CommitStep, FailStep, AckStep;
    match step
    case Open(w) =>
    case Receive(w, publication, at) => ReceiveKeepsInv(lib, s, w, publication, at);
    case Commit(w) => CommitKeepsInv(s, w);
    case Fail(w) => FailKeepsInv(s, w);
    case Ack(w, sent) => AckKeepsInv(s, w, sent);
    case Crash(w) =>
  }

  lemma EmptyInv()
    ensures Inv(EMPTY)
  {
  }

  lemma {:induction false} PrefixRuns(lib: Library, s: System, steps: seq<Step>, i: nat)
    requires Runs(lib, s, steps) && i <= |steps|
    ensures Runs(lib, s, steps[..i])
    decreases |steps|
  {
    if i == |steps| {
      assert steps[..i] == steps;
    } else {
      assert steps[..|steps| - 1][..i] == steps[..i];
      PrefixRuns(lib, s, steps[..|steps| - 1], i);
    }
  }

  /** Every interleaving of any processes from the empty database keeps the invariant, and from any
      moment on only adds rows, endings and acknowledgements. */
  lemma {:induction false} EveryRunKeepsInv(lib: Library, steps: seq<Step>, i: nat)
    requires Runs(lib, EMPTY, steps) && i <= |steps|
    ensures Runs(lib, EMPTY, steps[..i])
    ensures Inv(Run(lib, EMPTY, steps)) && Inv(Run(lib, EMPTY, steps[..i]))
    ensures Extends(Run(lib, EMPTY, steps[..i]), Run(lib, EMPTY, steps))
    decreases |steps|
  {
    hide Inv, Next;
    EmptyInv();
    PrefixRuns(lib, EMPTY, steps, i);
    if i == |steps| {
      assert steps[..i] == steps;
    }
    if steps != [] {
      var front := steps[..|steps| - 1];
      var j := if i < |steps| then i else |front|;
      EveryRunKeepsInv(lib, front, j);
      if i < |steps| {
        assert front[..j] == steps[..i];
      }
      StepKeepsInv(lib, Run(lib, EMPTY, front), steps[|steps| - 1]);
    }
  }

  /** In every run, ACCEPTED was answered exactly once per row: the k-th acceptance is of the event in
      row k, under ordinal k. */
  lemma AcceptancesAreRows(lib: Library, steps: seq<Step>)
    requires Runs(lib, EMPTY, steps)
    ensures var s := Run(lib, EMPTY, steps);
            var accepted := Acceptances(s.endings);
            && LogOk(s.log) && |accepted| == |s.log|
            && forall k | 0 <= k < |s.log| ::
                 accepted[k].candidate == Some(s.log[k]) && accepted[k].delivery == AcceptedAt(s.log[k].eventId, k + 1)
  {
    hide LogOk;
    EveryRunKeepsInv(lib, steps, |steps|);
    var s := Run(lib, EMPTY, steps);
    forall k | 0 <= k < |s.log| ensures AcceptedAs(s.log, k, Acceptances(s.endings)[k]) {
    }
  }

  /** Acknowledgement safety: what was acknowledged by moment i had returned an answer, and if that
      answer was ACCEPTED or DUPLICATE its row is there at every later moment, whatever crashed. */
  lemma AckedRowsSurvive(lib: Library, steps: seq<Step>, i: nat, x: Ending)
    requires Runs(lib, EMPTY, steps) && i <= |steps|
    requires Runs(lib, EMPTY, steps[..i]) && x in Run(lib, EMPTY, steps[..i]).acked
    ensures var s := Run(lib, EMPTY, steps);
            && x in Run(lib, EMPTY, steps[..i]).endings && !x.delivery.Raised?
            && (x.delivery.AcceptedAt? || x.delivery.DuplicateOf? ==>
                  x.candidate.Some? && HoldsRow(s.log, x.delivery.ordinal, x.candidate.value))
  {
    hide LogOk;
    EveryRunKeepsInv(lib, steps, i);
    var s, t := Run(lib, EMPTY, steps[..i]), Run(lib, EMPTY, steps);
    assert x in s.endings;
    assert EndingOk(s.log, x);
    EndingStays(s.log, t.log, x);
  }

  /** A conflict rejection always has its cause in the ledger, then and ever after. */
  lemma ConflictsHaveWitnesses(lib: Library, steps: seq<Step>, i: nat, x: Ending)
    requires Runs(lib, EMPTY, steps) && i <= |steps|
    requires Runs(lib, EMPTY, steps[..i]) && x in Run(lib, EMPTY, steps[..i]).endings
    requires x.delivery == Rejected(LedgerConflict)
    ensures x.candidate.Some? && Blocked(Run(lib, EMPTY, steps).log, x.candidate.value)
  {
    hide LogOk;
    EveryRunKeepsInv(lib, steps, i);
    assert EndingOk(Run(lib, EMPTY, steps[..i]).log, x);
    EndingStays(Run(lib, EMPTY, steps[..i]).log, Run(lib, EMPTY, steps).log, x);
  }

  /** A lookup that found a matching row ends as DUPLICATE of that row, whoever wrote in between. */
  lemma MatchingLookupIsDuplicate(lib: Library, steps: seq<Step>, x: Ending)
    requires Runs(lib, EMPTY, steps) && x in Run(lib, EMPTY, steps).endings
    requires x.hit.Some? && !x.delivery.Raised?
    ensures x.delivery.DuplicateOf? && x.delivery.ordinal == x.hit.value
  {
    hide LogOk;
    EveryRunKeepsInv(lib, steps, |steps|);
    assert EndingOk(Run(lib, EMPTY, steps).log, x);
  }

  /** Every process's counters balance at every moment, the message in hand apart. */
  lemma CountersBalance(lib: Library, steps: seq<Step>, w: nat)
    requires Runs(lib, EMPTY, steps) && w in Run(lib, EMPTY, steps).workers
    ensures CountsOk(Run(lib, EMPTY, steps).workers[w])
  {
    EveryRunKeepsInv(lib, steps, |steps|);
  }

  lemma LateReport(log: Log, candidate: Event, j: nat)
    requires Unique(log) && j < |log| && SameDelivery(candidate, log[j])
    ensures Report(log, candidate) == if candidate == log[j] then DuplicateOf(candidate.eventId, j + 1)
                                      else Rejected(LedgerConflict)
    ensures Append(log, candidate) == log
  {
    IdIndexOf(log, j);
  }

  /** In every run, when a process whose lookup missed commits after another has committed the same
      delivery as row j: the answer is DUPLICATE if receipt time and spelling agree exactly, a conflict
      otherwise, and no row is added. */
  lemma LateWinner(lib: Library, steps: seq<Step>, w: nat, j: nat)
    requires Runs(lib, EMPTY, steps) && Enabled(Run(lib, EMPTY, steps), Commit(w))
    ensures var s := Run(lib, EMPTY, steps);
            var phase := s.workers[w].phase;
            phase.hit.None? && j < |s.log| && SameDelivery(phase.candidate, s.log[j]) ==>
              var t := CommitStep(s, w);
              && t.log == s.log && |t.endings| == |s.endings| + 1
              && t.endings[|s.endings|].delivery
                 == if phase.candidate == s.log[j] then DuplicateOf(phase.candidate.eventId, j + 1)
                    else Rejected(LedgerConflict)
  {
    hide Report, Append, ValidEvent, AcceptedInOrder, SameDelivery, Run;
    EveryRunKeepsInv(lib, steps, |steps|);
    var s := Run(lib, EMPTY, steps);
    var phase := s.workers[w].phase;
    assert PhaseOk(s.log, s.endings, phase);
    if phase.hit.None? && j < |s.log| && SameDelivery(phase.candidate, s.log[j]) {
      LateReport(s.log, phase.candidate, j);
    }
  }

  lemma RunExtends(lib: Library, s: System, steps: seq<Step>, step: Step)
    requires Runs(lib, s, steps) && Enabled(Run(lib, s, steps), step)
    ensures Runs(lib, s, steps + [step]) && Run(lib, s, steps + [step]) == Next(lib, Run(lib, s, steps), step)
  {
    assert (steps + [step])[..|steps|] == steps;
  }

  /** Two processes look one message up on an empty database. */
  function BothLookUp(p: Publication, first: int, second: int): seq<Step> {
    [Open(0)] + [Open(1)] + [Receive(0, p, Utc(first))] + [Receive(1, p, Utc(second))]
  }

  lemma BothMiss(lib: Library, p: Publication, first: int, second: int)
    requires MqttToEvent(lib, p.message, Utc(first)).Ok? && MqttToEvent(lib, p.message, Utc(second)).Ok?
    ensures Runs(lib, EMPTY, BothLookUp(p, first, second))
    ensures var s := Run(lib, EMPTY, BothLookUp(p, first, second));
            var a, b := MqttToEvent(lib, p.message, Utc(first)).value, MqttToEvent(lib, p.message, Utc(second)).value;
            && s.log == [] && s.endings == [] && s.workers.Keys == {0, 1}
            && s.workers[0].phase == LookedUp(p, a, a, None) && s.workers[1].phase == LookedUp(p, b, b, None)
  {
    hide MqttToEvent;
    var steps: seq<Step> := [];
    RunExtends(lib, EMPTY, steps, Open(0));
    assert steps + [Open(0)] == [Open(0)];
    RunExtends(lib, EMPTY, [Open(0)], Open(1));
    RunExtends(lib, EMPTY, [Open(0)] + [Open(1)], Receive(0, p, Utc(first)));
    RunExtends(lib, EMPTY, [Open(0)] + [Open(1)] + [Receive(0, p, Utc(first))], Receive(1, p, Utc(second)));
  }

  /** So a matching retry can be rejected, against the delivery semantics the boundary documents: two
      processes look one event's message up at different times, both miss, and the second to commit loses. */
  lemma RaceRejectsRetry(lib: Library, e: Event, mid: nat, first: int, second: int)
    requires lib.Lawful() && ValidEvent(e) && Storable(e)
    requires e.observedAt <= first && e.observedAt <= second && first != second
    ensures var p := Publication(mid, 1, EventToMqtt(lib, e));
            var steps := BothLookUp(p, first, second) + [Commit(0)] + [Commit(1)];
            && Runs(lib, EMPTY, steps)
            && var s := Run(lib, EMPTY, steps);
            && s.log == [e.(ingestedAt := first)] && |s.endings| == 2
            && s.endings[0].delivery.AcceptedAt?
            && s.endings[1].delivery == Rejected(LedgerConflict)
            && s.endings[1].candidate == Some(e.(ingestedAt := second))
            && SameDelivery(e.(ingestedAt := second), s.log[0])
  {
    hide MqttToEvent, EventToMqtt, ValidEvent;
    var p := Publication(mid, 1, EventToMqtt(lib, e));
    MqttRoundTrip(lib, e, first);
    MqttRoundTrip(lib, e, second);
    var a, b := e.(ingestedAt := first), e.(ingestedAt := second);
    BothMiss(lib, p, first, second);
    var steps := BothLookUp(p, first, second);
    RunExtends(lib, EMPTY, steps, Commit(0));
    assert Judge([], a).Fresh? && [] + [a] == [a];
    RunExtends(lib, EMPTY, steps + [Commit(0)], Commit(1));
    LateReport([a], b, 0);
  }
}
