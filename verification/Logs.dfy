/** The ledger as a value: the sequence of committed events, row i holding ordinal i + 1, and the
    admission rules of `_ingest_in_transaction` on it. */
module Logs {
  import opened Events

  type Log = seq<Event>

  datatype Status = Accepted | Duplicate

  /** Why a transaction aborts. */
  datatype Conflict = IdentityConflict | SequenceConflict | SequenceOverflow

  datatype Verdict = Fresh | Known(ordinal: nat) | Refused(conflict: Conflict)

  datatype Receipt = Receipt(status: Status, ordinal: nat)

  /** SQLite INTEGER columns are signed 64-bit; binding a larger Python int raises OverflowError. */
  const SEQUENCE_LIMIT: int := 0x8000_0000_0000_0000

  predicate Storable(e: Event) {
    e.sourceSequence < SEQUENCE_LIMIT
  }

  predicate SamePosition(a: Event, b: Event) {
    a.sourceId == b.sourceId && a.sourceSequence == b.sourceSequence
  }

  /** What the uniqueness constraints keep true of a ledger. */
  ghost predicate LogOk(log: Log) {
    Unique(log) && AllValid(log) && AllStorable(log)
  }

  lemma EmptyLogOk()
    ensures LogOk([])
  {
  }

  /** For proofs that do not look inside. */
  lemma UseLogOk(log: Log)
    requires LogOk(log)
    ensures Unique(log) && AllValid(log) && AllStorable(log)
  {
  }

  /** No two rows share an identity or a source position. */
  ghost predicate Unique(log: Log) {
    forall i, j | 0 <= i < j < |log| :: log[i].eventId != log[j].eventId && !SamePosition(log[i], log[j])
  }

  /** The row of an event identity, or the length when there is none. */
  function IdIndex(log: Log, id: string): (i: nat)
    ensures i <= |log|
    ensures i < |log| ==> log[i].eventId == id
    ensures forall j | 0 <= j < i :: log[j].eventId != id
  {
    if log == [] then 0
    else if log[0].eventId == id then 0
    else 1 + IdIndex(log[1..], id)
  }

  predicate PositionTaken(log: Log, e: Event) {
    exists j | 0 <= j < |log| :: SamePosition(log[j], e)
  }

  /** One event against the committed rows, in the order the ledger checks. */
  function Judge(log: Log, e: Event): Verdict {
    var i := IdIndex(log, e.eventId);
    if i < |log| then
      if log[i] == e then Known(i + 1) else Refused(IdentityConflict)
    else if !Storable(e) then Refused(SequenceOverflow)
    else if PositionTaken(log, e) then Refused(SequenceConflict)
    else Fresh
  }

  function Append(log: Log, e: Event): Log {
    if Judge(log, e).Fresh? then log + [e] else log
  }

  function ReceiptOf(log: Log, verdict: Verdict): Receipt
    requires !verdict.Refused?
  {
    match verdict
    case Fresh => Receipt(Accepted, |log| + 1)
    case Known(ordinal) => Receipt(Duplicate, ordinal)
  }

  datatype Transaction = Committed(log: Log, receipts: seq<Receipt>) | Aborted(conflict: Conflict)

  /** A batch in one transaction: each event is judged against the rows its predecessors left. */
  function Batch(log: Log, batch: seq<Event>): (t: Transaction)
    ensures t.Committed? ==> |t.receipts| == |batch|
  {
    if batch == [] then Committed(log, [])
    else
      var before := Batch(log, batch[..|batch| - 1]);
      if before.Aborted? then before
      else
        var verdict := Judge(before.log, batch[|batch| - 1]);
        if verdict.Refused? then Aborted(verdict.conflict)
        else Committed(Append(before.log, batch[|batch| - 1]), before.receipts + [ReceiptOf(before.log, verdict)])
  }

  /** Two events may share a ledger: one content per identity, one identity per source position. */
  predicate Compatible(a: Event, b: Event) {
    && (a.eventId == b.eventId ==> a == b)
    && (SamePosition(a, b) ==> a.eventId == b.eventId)
  }

  ghost predicate PairwiseCompatible(events: seq<Event>) {
    forall a, b | a in events && b in events :: Compatible(a, b)
  }

  ghost predicate AllValid(events: seq<Event>) {
    forall e | e in events :: ValidEvent(e)
  }

  predicate AllStorable(events: seq<Event>) {
    forall e | e in events :: Storable(e)
  }

  function Ids(events: seq<Event>): set<string> {
    set e | e in events :: e.eventId
  }

  function CountAccepted(receipts: seq<Receipt>): (n: nat)
    ensures n <= |receipts|
  {
    if receipts == [] then 0
    else CountAccepted(receipts[..|receipts| - 1]) + (if receipts[|receipts| - 1].status.Accepted? then 1 else 0)
  }

  /** Identity lookup finds the one row an event of the ledger sits in. */
  lemma IdIndexOf(log: Log, i: nat)
    requires Unique(log) && i < |log|
    ensures IdIndex(log, log[i].eventId) == i
  {
    var j := IdIndex(log, log[i].eventId);
    assert !(j < i) && !(i < j);
  }

  /** An event gets in, freshly or as a duplicate, exactly when every row is compatible with it. */
  lemma JudgeAdmits(log: Log, e: Event)
    requires LogOk(log)
    ensures !Judge(log, e).Refused? <==> Storable(e) && forall x | x in log :: Compatible(x, e)
  {
    var i := IdIndex(log, e.eventId);
    if i < |log| {
      assert log[i] in log;
      if log[i] == e {
        forall x | x in log ensures Compatible(x, e) {
          var k :| 0 <= k < |log| && log[k] == x;
        }
      }
    } else {
      if PositionTaken(log, e) {
        var j :| 0 <= j < |log| && SamePosition(log[j], e);
        assert log[j] in log;
      }
      forall x | x in log ensures x.eventId != e.eventId {
        var k :| 0 <= k < |log| && log[k] == x;
      }
    }
  }

  /** Why an event is refused: another content under its identity; else a sequence that does not fit 63 bits;
      else its source position under another identity. */
  lemma RefusedFor(log: Log, e: Event)
    requires Unique(log)
    ensures Judge(log, e) == Refused(IdentityConflict) <==> exists x :: x in log && x.eventId == e.eventId && x != e
    ensures Judge(log, e) == Refused(SequenceOverflow)
       <==> (forall x | x in log :: x.eventId != e.eventId) && e.sourceSequence >= 9_223_372_036_854_775_808
    ensures Judge(log, e) == Refused(SequenceConflict)
       <==> && (forall x | x in log :: x.eventId != e.eventId) && e.sourceSequence < 9_223_372_036_854_775_808
            && exists x :: x in log && x.sourceId == e.sourceId && x.sourceSequence == e.sourceSequence
  {
    var i := IdIndex(log, e.eventId);
    if i < |log| {
      assert log[i] in log;
      forall x | x in log && x.eventId == e.eventId ensures x == log[i] {
        var k :| 0 <= k < |log| && log[k] == x;
        IdIndexOf(log, k);
      }
    } else {
      forall x | x in log ensures x.eventId != e.eventId {
        var k :| 0 <= k < |log| && log[k] == x;
      }
      if PositionTaken(log, e) {
        var j :| 0 <= j < |log| && SamePosition(log[j], e);
        assert log[j] in log;
      }
      if x :| x in log && x.sourceId == e.sourceId && x.sourceSequence == e.sourceSequence {
        var k :| 0 <= k < |log| && log[k] == x;
        assert SamePosition(log[k], e);
      }
    }
  }

  /** A batch aborts with the conflict of its first event that its predecessors' rows refuse. */
  lemma {:induction false} BatchAbortsFor(log: Log, batch: seq<Event>)
    ensures Batch(log, batch).Aborted? ==>
              exists k :: 0 <= k < |batch| && Batch(log, batch[..k]).Committed?
                && Judge(Batch(log, batch[..k]).log, batch[k]) == Refused(Batch(log, batch).conflict)
  {
    if Batch(log, batch).Aborted? {
      var n := |batch| - 1;
      BatchAbortsFor(log, batch[..n]);
      if Batch(log, batch[..n]).Aborted? {
        var k :| 0 <= k < n && Batch(log, batch[..n][..k]).Committed?
          && Judge(Batch(log, batch[..n][..k]).log, batch[..n][k]) == Refused(Batch(log, batch).conflict);
        assert batch[..n][..k] == batch[..k];
      }
    }
  }

  /** Appending keeps the ledger's invariant. */
  lemma AppendKeepsLogOk(log: Log, e: Event)
    requires LogOk(log) && ValidEvent(e)
    ensures LogOk(Append(log, e)) && log <= Append(log, e)
    ensures forall x :: x in Append(log, e) <==> x in log || (x == e && Judge(log, e).Fresh?)
  {
    if Judge(log, e).Fresh? {
      var next := log + [e];
      forall i, j | 0 <= i < j < |next|
        ensures next[i].eventId != next[j].eventId && !SamePosition(next[i], next[j])
      {
        assert next[i] == log[i];
        assert j < |log| ==> next[j] == log[j];
      }
    }
  }

  /** The ordinal an admitted event is given names its row. */
  lemma ReceiptNamesRow(log: Log, e: Event)
    requires !Judge(log, e).Refused?
    ensures var ordinal := ReceiptOf(log, Judge(log, e)).ordinal;
            1 <= ordinal <= |Append(log, e)| && Append(log, e)[ordinal - 1] == e
  {
  }

  lemma SameMembersCompatible(s: seq<Event>, t: seq<Event>)
    requires forall x :: x in s <==> x in t
    ensures PairwiseCompatible(s) <==> PairwiseCompatible(t)
  {
  }

  lemma UniqueIsCompatible(log: Log)
    requires Unique(log)
    ensures PairwiseCompatible(log)
  {
    forall i, j | 0 <= i < |log| && 0 <= j < |log| ensures Compatible(log[i], log[j]) {
      assert i != j ==> log[i].eventId != log[j].eventId && !SamePosition(log[i], log[j]);
    }
  }

  /** What a committed batch leaves: rows only added, and exactly the new events. */
  lemma {:induction false} BatchRows(log: Log, batch: seq<Event>)
    requires LogOk(log) && AllValid(batch)
    requires Batch(log, batch).Committed?
    ensures var t := Batch(log, batch);
            && LogOk(t.log) && log <= t.log
            && (forall x :: x in t.log <==> x in log || x in batch)
  {
    if batch != [] {
      hide LogOk, ValidEvent, Judge, Append;
      var front, e := batch[..|batch| - 1], batch[|batch| - 1];
      assert batch == front + [e] && e in batch;
      BatchRows(log, front);
      var before := Batch(log, front).log;
      AppendKeepsLogOk(before, e);
      KnownIsThere(before, e);
    }
  }

  lemma KnownIsThere(log: Log, e: Event)
    ensures Judge(log, e).Known? ==> e in log
  {
  }

  /** A batch commits exactly when the rows and the batch together are pairwise compatible and every
      sequence fits its column. */
  lemma {:induction false} BatchCommitsIff(log: Log, batch: seq<Event>)
    requires LogOk(log) && AllValid(batch)
    ensures Batch(log, batch).Committed? <==> PairwiseCompatible(log + batch) && AllStorable(batch)
  {
    if batch == [] {
      assert log + batch == log;
      UniqueIsCompatible(log);
    } else {
      var front, e := batch[..|batch| - 1], batch[|batch| - 1];
      assert batch == front + [e];
      BatchCommitsIff(log, front);
      if Batch(log, front).Committed? {
        BatchRows(log, front);
        JudgeAdmits(Batch(log, front).log, e);
        assert forall x :: x in log + batch <==> x in log + front || x == e;
        assert forall x :: x in Batch(log, front).log <==> x in log + front;
      } else {
        assert forall x | x in log + front :: x in log + batch;
        assert forall x | x in front :: x in batch;
      }
    }
  }

  /** Whether a batch commits depends on its members alone, not on their order or repetition. */
  lemma BatchOrderIrrelevant(log: Log, batch: seq<Event>, other: seq<Event>)
    requires LogOk(log) && AllValid(batch)
    requires forall x :: x in batch <==> x in other
    ensures Batch(log, batch).Committed? <==> Batch(log, other).Committed?
  {
    BatchCommitsIff(log, batch);
    BatchCommitsIff(log, other);
    SameMembersCompatible(log + batch, log + other);
  }

  ghost predicate ReceiptFits(log: Log, batch: seq<Event>, i: nat, receipt: Receipt, final: Log)
    requires i < |batch|
  {
    && 1 <= receipt.ordinal <= |final| && final[receipt.ordinal - 1] == batch[i]
    && (receipt.status.Accepted? <==> batch[i] !in log && batch[i] !in batch[..i])
  }

  /** Each receipt names its event's row, and says ACCEPTED on the event's first appearance only. */
  lemma {:induction false} BatchReceipts(log: Log, batch: seq<Event>)
    requires LogOk(log) && AllValid(batch)
    requires Batch(log, batch).Committed?
    ensures var t := Batch(log, batch);
            forall i | 0 <= i < |batch| :: ReceiptFits(log, batch, i, t.receipts[i], t.log)
  {
    if batch != [] {
      var front, e := batch[..|batch| - 1], batch[|batch| - 1];
      BatchReceipts(log, front);
      BatchRows(log, front);
      var before, t := Batch(log, front), Batch(log, batch);
      AppendKeepsLogOk(before.log, e);
      ReceiptNamesRow(before.log, e);
      AcceptedIfNew(before.log, e);
      forall i | 0 <= i < |batch| ensures ReceiptFits(log, batch, i, t.receipts[i], t.log) {
        if i < |front| {
          assert ReceiptFits(log, front, i, before.receipts[i], before.log);
          assert batch[..i] == front[..i];
        }
      }
    }
  }

  lemma AcceptedIfNew(log: Log, e: Event)
    requires LogOk(log) && !Judge(log, e).Refused?
    ensures ReceiptOf(log, Judge(log, e)).status.Accepted? <==> e !in log
  {
    if e in log {
      var k :| 0 <= k < |log| && log[k] == e;
      IdIndexOf(log, k);
    }
  }

  /** Rows grow by one per ACCEPTED receipt. */
  lemma {:induction false} BatchCounts(log: Log, batch: seq<Event>)
    requires Batch(log, batch).Committed?
    ensures CountAccepted(Batch(log, batch).receipts) == |Batch(log, batch).log| - |log|
  {
    if batch != [] {
      BatchCounts(log, batch[..|batch| - 1]);
      var before, t := Batch(log, batch[..|batch| - 1]), Batch(log, batch);
      assert t.receipts[..|t.receipts| - 1] == before.receipts;
    }
  }

  /** The first conflict decides the whole batch. */
  lemma {:induction false} BatchAborts(log: Log, batch: seq<Event>, i: nat)
    requires i <= |batch| && Batch(log, batch[..i]).Aborted?
    ensures Batch(log, batch) == Batch(log, batch[..i])
    decreases |batch|
  {
    if i < |batch| {
      assert batch[..|batch| - 1][..i] == batch[..i];
      BatchAborts(log, batch[..|batch| - 1], i);
    } else {
      assert batch[..i] == batch;
    }
  }

  /** A ledger has as many identities as rows. */
  lemma {:induction false} IdsCountRows(log: Log)
    requires forall i, j | 0 <= i < j < |log| :: log[i].eventId != log[j].eventId
    ensures |Ids(log)| == |log|
  {
    if log != [] {
      var front, last := log[..|log| - 1], log[|log| - 1];
      IdsCountRows(front);
      assert log == front + [last];
      assert Ids(log) == Ids(front) + {last.eventId};
      assert last.eventId !in Ids(front);
    }
  }

  /** On commit, as many events are ACCEPTED as the batch has identities the ledger did not hold. */
  lemma AcceptedAreNewIds(log: Log, batch: seq<Event>)
    requires LogOk(log) && AllValid(batch)
    requires Batch(log, batch).Committed?
    ensures CountAccepted(Batch(log, batch).receipts) == |Ids(batch) - Ids(log)|
  {
    var t := Batch(log, batch);
    BatchRows(log, batch);
    BatchCounts(log, batch);
    NewIds(log, batch, t.log);
  }

  lemma NewIds(log: Log, batch: seq<Event>, final: Log)
    requires Unique(log) && Unique(final)
    requires forall x :: x in final <==> x in log || x in batch
    ensures |final| - |log| == |Ids(batch) - Ids(log)|
  {
    IdsCountRows(log);
    IdsCountRows(final);
    assert Ids(final) == Ids(log) + (Ids(batch) - Ids(log));
  }
}
