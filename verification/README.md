# Edge evidence: a verified model

The repository ingests events that may be delivered more than once, keeps them in an append-only
ledger, and derives everything else from that ledger: a projected state, quality findings, replay
checkpoints and sealed evidence bundles. This project models those parts in Dafny and proves what
they promise, over every input, every run and every reachable ledger.

## How the model is built

- **The ledger** (`Logs.dfy`, `Ledgers.dfy`). A ledger as a value is the sequence of its committed
  events; row i holds ordinal i + 1. `Judge`, `Append` and `Batch` are the admission rules on that
  sequence. The class `EventLedger` holds the rows of the `events` table, extends them inside a
  transaction, restores them on a conflict, and every method states its answer and the new rows
  through those functions. A source sequence of 2^63 or more cannot be bound to an SQLite column;
  the resulting `OverflowError` is the conflict `SequenceOverflow`, which callers do not catch.
- **Delivery** (`Events.dfy`, `Mqtt.dfy`, `Acceptance.dfy`, `Deliveries.dfy`, `Runtimes.dfy`,
  `Consumers.dfy`). The event contract, the topic and payload codec, exactly which records and messages
  they take and why they refuse the others, one delivery as a function split where the lookup ends
  and the ledger transaction begins, and the runtime and consumer as classes with their counters. A
  ghost counter holds the calls that ended in an exception, which the source counts nowhere but in
  `messages_received`.
- **Histories and interleavings** (`Histories.dfy`, `Recovery.dfy`, `RecoveryCampaigns.dfy`,
  `Protocol.dfy`, `Convergence.dfy`). Sequences of whole deliveries; a step system of any number of
  processes on one database in which lookup, commit, failure, acknowledgement and crash are separate
  steps and the broker may deliver anything again, as sections 4.3.2 and 4.4 of OASIS MQTT 3.1.1 allow;
  and the refinement between the two: where calls do not overlap, the steps leave what whole deliveries do.
- **Derivations** (`Projection.dfy`, `Checkpoints.dfy`, `QualityRules.dfy`, `QualityEvaluation.dfy`,
  `QualityProperties.dfy`, `QualityMeaning.dfy`, `FindingIdentity.dfy`, `Streams.dfy`, `Campaigns.dfy`,
  `CampaignMeaning.dfy`, `CampaignFaults.dfy`). Each loop of the source is a method proved against a function of the rows; the
  lemmas say what that function means.
- **Bundles** (`Checksums.dfy`, `Bundles.dfy`, `BundleProgram.dfy`, `BundleAgreement.dfy`,
  `BundleSeals.dfy`, `BundleMeaning.dfy`, `BundleContents.dfy`, `BundleDiagnosis.dfy`, `BundleLimits.dfy`,
  `RecoveryEvidence.dfy`, `CampaignEvidence.dfy`). A bundle is a map from file names to bytes. The builder reads the ledger
  twice; what other connections commit in between is a parameter. The verifier is modelled check by
  check, with Python's loose equalities.
- **Historical import** (`Historical.dfy`, `HistoricalProperties.dfy`, `HistoricalImport.dfy`,
  `HistoricalLedger.dfy`, `HistoricalAcceptance.dfy`).
- **Library code** (`Libraries.dfy`). JSON text, SHA-256, HMAC, UTF-8, timestamp text and the Markdown
  report are function values. `Lawful` lists what is assumed of them: canonical JSON of a finite value
  is one line, decodes back to that value and is never blank; text and timestamps survive encoding; SHA-256
  digests are 64 hexadecimal digits; string codes can be reported. Absence of hash collisions is never
  assumed in general: each lemma that needs it names the byte strings concerned. `LibraryExists.dfy` builds,
  for any byte strings prescribed (as many as there are digests), a library that meets all of these laws and
  gives those strings different digests.

JSON values (`JsonValues.dfy`) keep integers, floats, booleans and minus zero apart, and `PyEqual` is
Python's `==` on them, for which `1 == 1.0 == True`; it compares representatives, and is proved to be the
comparison side by side. Times are integer microseconds. `Text.dfy` orders
strings, `Sorting.dfy` is Python's stable sort, and `Wrappers.dfy` holds options and results.

## What was found

The code is modelled as it is. Where it differs from its documentation, or from what one may expect of it, a
lemma shows the input and the exact condition:

- A retry that spells a number differently (`1.0` for `1`) is a DUPLICATE although its canonical text
  differs from the committed row: the runtime compares mappings, the ledger compares text
  (`Deliveries.RespelledRetryIsDuplicate`, `Deliveries.DuplicateIff`).
- With several processes on one database, a matching retry can be REJECTED, against
  `docs/mqtt-boundary-v1.md:31-36`: both look the message up, both miss, and the second to commit
  loses. In every run the late commit is a DUPLICATE if and only if its receipt time and spelling agree
  exactly with the winner's (`Protocol.RaceRejectsRetry`, `Protocol.LateWinner`). Where calls do not
  overlap this does not happen (`Convergence.CrashesConverge`).
- A checkpoint is not determined by its state digest: its last ordinal may be spelled `3` or `3.0`.
  Two accepted documents with one digest are equal if and only if they spell it alike
  (`Checkpoints.RespelledOrdinalAccepted`, `Checkpoints.AcceptedDocumentsAgree`).
- A bundle built while rows are appended between the builder's two ledger reads does not verify, and
  fails with exactly the two state counts; otherwise it verifies if its boundary findings are well-formed
  (`BundleAgreement.BuiltBundleVerifies`, `BundleAgreement.BuiltBundleValidIff`).
- A valid bundle's state need not be the projection of its ledger rows: every non-empty ledger has a valid
  bundle whose state has no sources at all. A sealed state verifies if and only if its two counts fit
  (`BundleLimits.EmptiedStateVerifies`, `BundleLimits.SealedVerifiesIff`).
- A finding of a valid bundle may cite an ordinal no sealed row has: every ledger has a valid bundle that
  cites the ordinal after its last row, with a null event. The citations of a valid bundle are sealed rows
  if and only if none of the events they name is null (`BundleLimits.NullReferenceVerifies`,
  `BundleLimits.CitationsResolveIff`).
- `source_count` of a historical import also counts streams whose every record was rejected: one record
  with an empty source gives no event, one rejection and one source. The count is the number of streams with
  events if and only if every stream that was looked up took a record in
  (`HistoricalLedger.RejectedSourceIsCounted`, `HistoricalLedger.SourceCountIff`).

## Model

| member | source | states |
|---|---|---|
| `Events.AcceptedIsValid` | src/edge_evidence/event.py:94-145 | Whatever record `from_mapping` accepts, the event satisfies the whole contract: identifiers, non-negative sequence, finite JSON, receipt not before observation |
| `Events.AcceptedIsKept` | src/edge_evidence/event.py:94-158 | Acceptance keeps the record: `to_mapping` gives the same fields, the rendering of the two timestamps apart, and those were read from it |
| `Events.MappingRoundTrip` | src/edge_evidence/event.py:94-158 | `from_mapping` of `to_mapping` is the identity on every valid event |
| `Acceptance.ShortIdentifier` | src/edge_evidence/event.py:15 | One character is an identifier if and only if it is a lower-case letter or a digit, and the empty text is none |
| `Acceptance.LongerIdentifier` | src/edge_evidence/event.py:15 | Any longer text is one if and only if it is an identifier of fewer than 128 characters followed by a letter, digit, dot, underscore, colon or hyphen |
| `Acceptance.AcceptedIff` | src/edge_evidence/event.py:94-145 | A record becomes an event if and only if it has exactly the nine fields, each of its kind, and timestamps that read as UTC with the receipt not before the observation; the event is the one it describes, value by value |
| `Acceptance.WrongFieldsAreNamed` | src/edge_evidence/event.py:97-104 | Missing fields are refused before unknown ones, and the refusal names the first of them in code-point order |
| `Acceptance.FirstFailureDecides` | src/edge_evidence/event.py:105-139 | Of the twelve checks on a record with the right fields, the first that fails gives the code and the field of the refusal |
| `Events.CanonicalInjective` | src/edge_evidence/event.py:160-167 | Canonical text is equal if and only if the events are |
| `Logs.JudgeAdmits` | src/edge_evidence/ledger.py:136-167 | An event is admitted, freshly or as a duplicate, if and only if it can be stored and every committed row is compatible with it |
| `Logs.RefusedFor` | src/edge_evidence/ledger.py:136-167 | An event is an identity conflict if and only if its identity is committed with other content; otherwise it overflows if its sequence needs more than 63 bits, and is a sequence conflict if its source position is committed |
| `Logs.AppendKeepsLogOk` | src/edge_evidence/ledger.py:28-40 | An insert keeps identities and source positions unique and only adds its own row at the end |
| `Logs.BatchRows` | src/edge_evidence/ledger.py:198-216 | A committed batch leaves the old rows as a prefix and exactly the old and the batch's events as rows |
| `Logs.BatchCommitsIff` | src/edge_evidence/ledger.py:198-216 | A batch commits if and only if rows and batch are pairwise compatible (one content per identity, one identity per source position) and every sequence fits its column |
| `Logs.BatchAbortsFor` | src/edge_evidence/ledger.py:205-211 | An aborted batch gives the conflict of the first event that the rows of its predecessors refuse |
| `Logs.BatchOrderIrrelevant` | src/edge_evidence/ledger.py:198-216 | Whether a batch commits does not depend on the order or repetition of its events |
| `Logs.BatchReceipts` | src/edge_evidence/ledger.py:136-191 | Each result's ordinal names the row that holds its event, and it says ACCEPTED on the event's first appearance only |
| `Logs.BatchCounts` | src/edge_evidence/ledger.py:198-216 | The rows grow by one per ACCEPTED result |
| `Logs.AcceptedAreNewIds` | src/edge_evidence/ledger.py:198-216 | On commit, as many events are ACCEPTED as the batch has identities the ledger did not hold |
| `Ledgers.LoadWritten` | src/edge_evidence/ledger.py:225-246 | A row the ledger wrote passes the digest check and decodes to its event |
| `Ledgers.WrittenColumnsAgree` | src/edge_evidence/ledger.py:168-186 | The identity, source, sequence, type, time and version columns of a written row are the values of its stored text, and its digest is that of the text |
| `Ledgers.RowsFollowLog` | src/edge_evidence/ledger.py:43-53 | Stored rows are append-only: an extended event sequence has the old rows as a prefix, byte for byte |
| `Ledgers.CoercedTells` | src/edge_evidence/ledger.py:202 | All records become events, one by one, or the first bad one's rejection is the answer |
| `Ledgers.ResultsTell` | src/edge_evidence/ledger.py:136-191 | Result i of a committed batch has its event's identity, a row that holds it, ACCEPTED on its first appearance only, and the digest of its canonical text |
| `Ledgers.EventLedger.constructor` | src/edge_evidence/ledger.py:95-106 | A new ledger is empty |
| `Ledgers.EventLedger.ExistingRow` | src/edge_evidence/ledger.py:145-155 | The stored text of an identity equals the candidate's text if and only if the committed event is the candidate |
| `Ledgers.EventLedger.PositionsAgree` | src/edge_evidence/ledger.py:157-167 | The table lookup of a source position succeeds if and only if a committed event holds it |
| `Ledgers.EventLedger.RowColumns` | src/edge_evidence/ledger.py:28-40 | In every reachable table the columns of every row agree with its stored text, and row i has ordinal i + 1 |
| `Ledgers.EventLedger.IngestInTransaction` | src/edge_evidence/ledger.py:136-191 | One event: the answer and the new rows are those of the admission rules, identity before position |
| `Ledgers.EventLedger.CoerceAll` | src/edge_evidence/ledger.py:202 | All records are validated before any transaction; the first bad one decides |
| `Ledgers.EventLedger.IngestEach` | src/edge_evidence/ledger.py:205-211 | Inside the transaction each event is judged against the rows its predecessors left; the first conflict is the answer |
| `Ledgers.EventLedger.IngestMany` | src/edge_evidence/ledger.py:198-216 | The whole batch is committed with one result per event, or the rows are as they were |
| `Ledgers.EventLedger.Ingest` | src/edge_evidence/ledger.py:193-196 | One record, an event or a mapping still to be validated: a rejection leaves the ledger alone, and an event is answered and committed as the admission rules say |
| `Ledgers.EventLedger.Count` | src/edge_evidence/ledger.py:218-223 | The number of committed events |
| `Ledgers.EventLedger.FindEvent` | src/edge_evidence/ledger.py:225-246 | The committed event of an identity with its ordinal and digest, or none; on a ledger it wrote itself the integrity error never arises |
| `Ledgers.EventLedger.ReadEvents` | src/edge_evidence/ledger.py:248-270 | Every committed event in order, with ordinals 1 to n |
| `Mqtt.EncodedParses` | src/edge_evidence/mqtt.py:42-93 | Topic and payload of an encoded event parse back to its source, type and payload document, since identifiers hold no topic separator |
| `Mqtt.MqttRoundTrip` | src/edge_evidence/mqtt.py:42-106 | Decoding an encoded event at a receipt time not before its observation gives the event with only `ingested_at` replaced |
| `Mqtt.TopicDetermined` | src/edge_evidence/mqtt.py:42-106 | Re-encoding an accepted delivery reproduces the topic it came on |
| `Mqtt.ReceiptTimeOnlyStamps` | src/edge_evidence/mqtt.py:94-106 | A message once decoded decodes at any other receipt time, to the same event restamped, unless that time is before its observation |
| `Mqtt.DecodedIsValid` | src/edge_evidence/mqtt.py:62-106 | Whatever the message, a decoded event satisfies the event contract |
| `Acceptance.MessageAcceptedIff` | src/edge_evidence/mqtt.py:62-106 | A message decodes to an event if and only if it delivers it: topic under the root with the event's source and type, payload the JSON text of the five producer fields, receipt in UTC and not before the observation |
| `Acceptance.FirstFaultDecides` | src/edge_evidence/mqtt.py:65-93 | Of topic, text, JSON, object, missing field, unknown field and receipt time, the first that is wrong gives the adapter's code |
| `JsonValues.NumbersEqual` | src/edge_evidence/mqtt.py:173-178 | Numbers, booleans included, are equal if and only if whole part and fraction are, and equal nothing else |
| `JsonValues.PyEqualIsAlike` | src/edge_evidence/mqtt.py:173-178 | The runtime's comparison is comparison side by side: numbers by value, text and null when identical, lists item by item, dictionaries key by key, different kinds never |
| `Deliveries.SameDeliveryIsMappingEquality` | src/edge_evidence/mqtt.py:172-178 | The runtime's comparison of mappings without `ingested_at` is equality of the producer's fields under Python's number equality |
| `Deliveries.SameDeliveryAgrees` | src/edge_evidence/mqtt.py:173-178 | Two events are the same delivery if and only if identity, source, sequence, type and observation are equal and payload and metadata agree value by value |
| `Deliveries.DeliveryKeepsLogOk` | src/edge_evidence/mqtt.py:165-203 | Whatever the message, a delivery keeps the ledger's uniqueness and only adds rows |
| `Deliveries.DeliveryNamesRow` | src/edge_evidence/mqtt.py:197-203 | An accepted or duplicate answer names a row that holds its event identity |
| `Deliveries.DuplicateIff` | src/edge_evidence/mqtt.py:170-203 | A delivery is a DUPLICATE if and only if a committed row matches it, and then of that row and without a change |
| `Deliveries.CommittedIdentitySettles` | src/edge_evidence/mqtt.py:170-203 | A message whose identity is committed is a DUPLICATE of that row if the producer's fields agree value by value, a conflict otherwise, and adds nothing |
| `Deliveries.ChangedReadingConflicts` | src/edge_evidence/mqtt.py:170-203 | With one number of the payload changed in whole part or fraction, a message is a conflict and the committed row stays |
| `Deliveries.NewIdentitySettles` | src/edge_evidence/mqtt.py:179-203 | A message of a new identity becomes the next row, unless its sequence cannot be stored, which raises, or its source position is taken, which is a conflict |
| `Deliveries.RespelledRetryIsDuplicate` | src/edge_evidence/mqtt.py:172-178 | A retry with `1.0` for `1` is a DUPLICATE of a row with other canonical text |
| `Deliveries.RedeliverySettled` | src/edge_evidence/mqtt.py:165-203 | A ledger-reaching delivery that comes again on any later ledger changes nothing and gets its old row, or its old refusal |
| `Deliveries.PositionElsewhere` | src/edge_evidence/ledger.py:157-167 | An event whose source position another identity holds is refused, whatever else is committed |
| `Runtimes.RuntimeMetrics.constructor` | src/edge_evidence/mqtt.py:123-130 | All counters start at zero |
| `Runtimes.MqttIngestionRuntime.RecordDisconnect` | src/edge_evidence/mqtt.py:151-153 | Counts one disconnect and nothing else |
| `Runtimes.MqttIngestionRuntime.RecordReconnect` | src/edge_evidence/mqtt.py:155-157 | Counts one reconnect and nothing else |
| `Runtimes.MqttIngestionRuntime.Resolve` | src/edge_evidence/mqtt.py:171-178 | The lookup: the committed event when the candidate repeats it, else the candidate |
| `Runtimes.MqttIngestionRuntime.Ingest` | src/edge_evidence/mqtt.py:159-203 | One delivery: answer, rows and counters; the message is counted first and exactly one outcome is counted, exceptions apart |
| `Histories.HistoryAppendsOnly` | src/edge_evidence/mqtt.py:165-203 | Over any history of deliveries every earlier ledger is a prefix of every later one, and all satisfy the uniqueness constraints |
| `Histories.RedeliveryIsIdempotent` | src/edge_evidence/mqtt.py:170-203 | After any history, a ledger-reaching delivery repeated at a receipt time not before its observation changes no row: accepted and duplicate ones are DUPLICATE at the first ordinal, conflicting ones conflict still |
| `Histories.RedeliveriesChangeNothing` | src/edge_evidence/mqtt.py:170-203 | The same for any number of such redeliveries in any order |
| `Recovery.AttemptStep` | src/edge_evidence/recovery.py:60-71 | Delivering an event to a ledger of some of its siblings is accepted if it is not there and a duplicate if it is |
| `Recovery.ScheduleCommitsFirsts` | src/edge_evidence/recovery.py:82-164 | Whatever the order and repetition of whole deliveries, the ledger holds each delivered event once, in order of first delivery, at its first receipt time |
| `Recovery.RedeliveryConverges` | src/edge_evidence/recovery.py:82-164 | Any order and repetition of whole deliveries leaves the ledger of the uninterrupted run that keeps each event's first receipt time |
| `Recovery.SessionsKeepOrder` | src/edge_evidence/recovery.py:82-164 | However often the process restarts the sequence, the first deliveries are those of one uninterrupted session at the kept times |
| `Recovery.SessionLedger` | src/edge_evidence/recovery.py:82-164 | A session on the ledger of an earlier one adds exactly the events that one did not reach |
| `Recovery.SessionOutcome` | src/edge_evidence/recovery.py:82-164 | After k committed events a session of n gives k duplicates, n - k accepted, none rejected and none raised |
| `RecoveryCampaigns.DeliverAll` | src/edge_evidence/recovery.py:60-79 | The delivery loop: rows, counters, and no rejection ever |
| `RecoveryCampaigns.RunRecoveryCampaign` | src/edge_evidence/recovery.py:100-146 | Crash after any k of any n compatible events, reopen and redeliver: rows equal the reference's, row for row, the first k at their own receipt time and the others five minutes later, with the expected counters |
| `RecoveryEvidence.RecoverAndSeal` | src/edge_evidence/recovery.py:82-164 | The campaign as a whole never finds the recovered state different from the reference; its digest is that of a document that tells of the recovered ledger, and the bundle it seals tells of that ledger and is valid |
| `Protocol.CommitIsTruthful` | src/edge_evidence/mqtt.py:179-203 | A commit after a lookup answers truthfully of the ledger it leaves, whoever wrote in between |
| `Protocol.StepKeepsInv` | src/edge_evidence/paho_consumer.py:179-195 | Each step of any process keeps the protocol invariant and only adds rows, answers and acknowledgements |
| `Protocol.EveryRunKeepsInv` | src/edge_evidence/paho_consumer.py:179-195 | So does every interleaving from the empty database, and from every moment on |
| `Protocol.AcceptancesAreRows` | src/edge_evidence/mqtt.py:197-203 | In every run there is one ACCEPTED answer per row, in row order: the k-th is of the event in row k, under ordinal k |
| `Protocol.AckedRowsSurvive` | src/edge_evidence/paho_consumer.py:179-195 | Every acknowledged message had a returned answer; if that was ACCEPTED or DUPLICATE its row is there at every later moment, across crashes |
| `Protocol.ConflictsHaveWitnesses` | src/edge_evidence/mqtt.py:191-196 | A conflict rejection implies a committed row holding its identity or its source position, then and ever after |
| `Protocol.MatchingLookupIsDuplicate` | src/edge_evidence/mqtt.py:170-179 | A lookup that found a matching row ends as DUPLICATE of that ordinal |
| `Protocol.CountersBalance` | src/edge_evidence/mqtt.py:123-130 | Received equals accepted, duplicates, rejected and raised together, the message in hand apart, in every process at every moment |
| `Protocol.LateWinner` | src/edge_evidence/mqtt.py:170-203 | In every run, when another process commits the same delivery after this one's lookup missed, this one's commit adds no row and answers DUPLICATE of that row if the events agree exactly, a conflict otherwise |
| `Protocol.RaceRejectsRetry` | src/edge_evidence/mqtt.py:170-203 | For every event and two receipt times, a run of two processes in which the matching retry is REJECTED |
| `Convergence.SerialRunIsHistory` | src/edge_evidence/mqtt.py:159-203 | Refinement: in every run whose calls do not overlap, the ledger and every answer are those of whole deliveries one after the other, whatever failed, crashed or went unacknowledged at any step |
| `Convergence.CrashesConverge` | src/edge_evidence/recovery.py:82-164 | In such a run over compatible events, with crashes at every step and any redelivery, the ledger holds each event whose call reached its commit once, in order of first commit, at its first receipt time, and each such call was answered ACCEPTED or DUPLICATE |
| `Consumers.PahoMqttConsumer.constructor` | src/edge_evidence/paho_consumer.py:79-97 | The initial state of the callbacks |
| `Consumers.PahoMqttConsumer.OnConnect` | src/edge_evidence/paho_consumer.py:142-160 | Subscribes only without a kept session; counts a reconnection only after an established connection that had one before it |
| `Consumers.PahoMqttConsumer.OnConnectFail` | src/edge_evidence/paho_consumer.py:162-164 | Counts a connection failure |
| `Consumers.PahoMqttConsumer.OnDisconnect` | src/edge_evidence/paho_consumer.py:166-177 | Counts an unexpected disconnection only |
| `Consumers.PahoMqttConsumer.OnMessage` | src/edge_evidence/paho_consumer.py:179-195 | Acknowledges after the runtime has answered and never after an exception; an acknowledged acceptance or duplicate has its row |
| `Projection.ProjectEvents` | src/edge_evidence/projection.py:41-95 | The loop computes the state of rows in increasing ordinal order, and fails closed on any other order or version |
| `Projection.Replay` | src/edge_evidence/projection.py:98-100 | Replaying a ledger never fails and gives the state of all its rows |
| `Projection.SourcesSummarise` | src/edge_evidence/projection.py:48-82 | Per source, the loop's entry is the number of its events and each value of its event of greatest sequence, times rendered, said without any order |
| `Projection.ReplayIgnoresArrivalOrder` | src/edge_evidence/projection.py:48-89 | Two ledgers with the same events replay to the same state, last ordinal included, whatever the append order |
| `Projection.BatchingIsInvisible` | src/edge_evidence/projection.py:98-100 | So do two ways of committing the same events in batches |
| `Checkpoints.ReplayTells` | src/edge_evidence/projection.py:48-95 | The state document of a replay counts the rows, has one entry per source, and shows there the number of its events and every value of the latest, observation and receipt as text that reads back |
| `Checkpoints.CheckpointRoundTrip` | src/edge_evidence/checkpoint.py:37-94 | Loading a written checkpoint returns the identical projection result, for every ledger |
| `Checkpoints.LoadsIff` | src/edge_evidence/checkpoint.py:71-94 | A document loads if and only if it has the five fields, both versions, and a finite state that names the same projector and last ordinal and has the digest given; it loads as that state, its canonical text and that digest |
| `Checkpoints.FirstFailureDecides` | src/edge_evidence/checkpoint.py:78-93 | The first check that fails gives the error |
| `Checkpoints.AcceptedDocumentsAgree` | src/edge_evidence/checkpoint.py:71-94 | Without a collision, accepted documents with one state digest carry one state and are equal if and only if they spell the last ordinal alike |
| `Checkpoints.RespelledOrdinalAccepted` | src/edge_evidence/checkpoint.py:88-89 | An accepted checkpoint is accepted with its last ordinal as a float too |
| `QualityEvaluation.PassInAppendOrder` | src/edge_evidence/quality.py:133-164 | The pass in append order groups rows by source and finds delays and regressions |
| `QualityEvaluation.FindGaps` | src/edge_evidence/quality.py:168-184 | The loop over neighbours finds one gap per pair with positions missing between them |
| `QualityEvaluation.GroupRuns` | src/edge_evidence/quality.py:186-201 | Comparing JSON text groups exactly the neighbours of equal payload |
| `QualityEvaluation.FindRuns` | src/edge_evidence/quality.py:202-222 | The loop over runs reports those that reach the policy's length |
| `QualityEvaluation.EvaluateQuality` | src/edge_evidence/quality.py:117-240 | All rules over all sources, sorted by finding id, or the error of a time that is not UTC |
| `QualityProperties.HighestIsMaximum` | src/edge_evidence/quality.py:148-164 | The running maximum is a row of the source that none of its earlier rows exceeds |
| `QualityProperties.RegressionIff` | src/edge_evidence/quality.py:148-162 | DQ-003 is found of a row if and only if an earlier row of its source has a greater sequence |
| `QualityProperties.ProducedIsStrict` | src/edge_evidence/quality.py:166-167 | A source's rows sort into strictly increasing sequence, all of them and no others |
| `QualityProperties.GapsPartitionMissing` | src/edge_evidence/quality.py:168-184 | Between a source's extremes a position is in exactly one gap interval if no row has it, and in none if one has |
| `QualityProperties.MissingCountsAddUp` | src/edge_evidence/quality.py:168-184 | The missing counts add up to the span of the source less its rows |
| `QualityProperties.LedgerGaps` | src/edge_evidence/quality.py:166-184 | The same of the committed events of a ledger, one finding per interval |
| `QualityProperties.RunsAreMaximal` | src/edge_evidence/quality.py:186-201 | Runs concatenate to the rows in production order, each has one payload, and neighbours differ |
| `QualityProperties.MaximalRunsAreUnique` | src/edge_evidence/quality.py:186-201 | There is only one such division |
| `QualityProperties.RunFindingIff` | src/edge_evidence/quality.py:202-222 | A DQ-004 finding exists for exactly the runs that reach the policy's length |
| `QualityProperties.StaleIffLatestIsOld` | src/edge_evidence/quality.py:224-238 | DQ-005 is found of a source if and only if its latest event, the one the projector keeps, is older than the policy allows |
| `QualityProperties.FindingsIgnoreArrivalOrder` | src/edge_evidence/quality.py:128-240 | Ledgers with the same events give the same rules, sources, events and evidence for every rule but DQ-003 |
| `QualityMeaning.FindingsAreTrue` | src/edge_evidence/quality.py:117-240 | Soundness: whatever is reported of a ledger is so; each rule's source, events, ordinals and evidence values are what the committed events make them |
| `QualityMeaning.DelaysAreFound` | src/edge_evidence/quality.py:136-147 | Completeness of DQ-001: every event later than the policy allows is reported, with its delay |
| `QualityMeaning.RegressionsAreFound` | src/edge_evidence/quality.py:148-164 | Completeness of DQ-003: every event below an earlier one of its source is reported against the highest before it |
| `QualityMeaning.GapsAreFound` | src/edge_evidence/quality.py:168-184 | Completeness of DQ-002: wherever positions lack between two events of a source with none in between, exactly those positions are reported |
| `QualityMeaning.RunsAreFound` | src/edge_evidence/quality.py:202-222 | Completeness of DQ-004: every maximal run that reaches the policy's length is reported, with its rows, length and payload digest |
| `QualityMeaning.StaleSourcesAreFound` | src/edge_evidence/quality.py:224-238 | Completeness of DQ-005: every source whose latest event is too old is reported by that event, with its age |
| `QualityMeaning.EvaluationTells` | src/edge_evidence/quality.py:117-240 | The evaluation of a ledger is sound and complete for all five rules at once |
| `FindingIdentity.FindingsAreSupported` | src/edge_evidence/quality.py:82-114 | Every finding is made from rows of its own source, with their identities, ordinals and digest |
| `FindingIdentity.FindingsResolve` | src/edge_evidence/quality.py:91-93 | Each pair of ordinal and event identity in a finding is a committed row |
| `FindingIdentity.IdentityBinds` | src/edge_evidence/quality.py:67-79 | The identity document binds rule, source, evidence references and evidence values |
| `FindingIdentity.FindingIdBinds` | src/edge_evidence/quality.py:67-79 | Without a collision, findings with one id are one finding |
| `FindingIdentity.FindingsAreKeyed` | src/edge_evidence/quality.py:132-238 | No two findings of an evaluation share both their rule and their last ordinal |
| `FindingIdentity.FindingIdsDistinct` | src/edge_evidence/quality.py:128-240 | So without collisions all finding ids of an evaluation are distinct |
| `FindingIdentity.OutputIsCanonical` | src/edge_evidence/quality.py:240 | The output is strictly sorted by id and is the only such sequence of its finding set |
| `Streams.InspectStream` | src/edge_evidence/stream.py:22-55 | The inspector's loop, record by record |
| `Streams.RecordsAreClassified` | src/edge_evidence/stream.py:31-41 | Invalid findings count the records that do not validate, duplicate findings the valid records beyond one per event identity |
| `Streams.InspectionNames` | src/edge_evidence/stream.py:43-53 | Regressions and delays name exactly the unique events that are not above an earlier one of their source, or late |
| `Streams.InspectionIff` | src/edge_evidence/stream.py:22-55 | Record by record: a finding is made if and only if its record, at the index it gives, does not validate, repeats an identity, is not above an earlier first event of its source, or arrived late |
| `Streams.InspectionOrder` | src/edge_evidence/stream.py:30-55 | Findings come in the order of their records |
| `Campaigns.IngestRecords` | src/edge_evidence/campaign.py:112-126 | The ingestion loop and its three counters, stopped by the first conflict |
| `Campaigns.RunCampaign` | src/edge_evidence/campaign.py:98-149 | The whole result: counts, inspector findings, evaluator findings and codes; or the conflict |
| `Campaigns.CampaignReturnsIff` | src/edge_evidence/campaign.py:115-126 | A campaign returns if and only if its valid records can share one ledger |
| `Campaigns.CampaignCounts` | src/edge_evidence/campaign.py:112-149 | When it returns, it accepted one event per identity, its duplicate and invalid counts are those the inspector found, and the three add up to the input |
| `Campaigns.FirstsAreCommitted` | src/edge_evidence/campaign.py:115-126 | The ledger then holds the first event of each identity, in input order |
| `Campaigns.LaterRowNotAbove` | src/edge_evidence/stream.py:44 | Among committed events the inspector's `<=` and the evaluator's `<` agree |
| `Campaigns.EvaluationNames` | src/edge_evidence/quality.py:133-162 | The evaluator finds regressions and delays of exactly the out-of-order and late events |
| `Campaigns.InspectorAgreesWithEvaluator` | src/edge_evidence/campaign.py:98-149 | Under any one threshold the inspector and the evaluator name the same regressed and the same delayed events |
| `Campaigns.CampaignAgrees` | src/edge_evidence/campaign.py:98-149 | So they do in every campaign that returns |
| `CampaignMeaning.ReturnedCampaignTells` | src/edge_evidence/campaign.py:98-149 | In a returned campaign the quality findings are sound and complete for the first events of all identities, two minutes after the latest observation in the stale scenario and a second after it otherwise, and the codes are those of all findings, sorted |
| `CampaignFaults.EditRecords` | src/edge_evidence/campaign.py:87-95 | The edit in place of the missing and frozen scenarios |
| `CampaignFaults.CampaignEvaluates` | src/edge_evidence/campaign.py:98-149 | A campaign over the mappings of a ledger's events returns, and evaluates that ledger |
| `CampaignFaults.MissingIsDetected` | src/edge_evidence/campaign.py:89-90 | Whatever the steady baseline, the removed record is reported as a gap of exactly its position, between its two neighbours |
| `CampaignFaults.FrozenIsDetected` | src/edge_evidence/campaign.py:91-94 | Whatever the steady baseline, a run of at least three events is reported that holds the three edited records, with the digest of the copied payload |
| `CampaignFaults.StaleIsDetected` | src/edge_evidence/campaign.py:127-132 | Evaluated two minutes after the last observation, the source is reported as stale by its last event |
| `Checksums.ParseChecksums` | src/edge_evidence/bundle.py:369-389 | The parser's loop: a bad line is reported and skipped, a non-canonical text reported last |
| `Checksums.PrintThenParse` | src/edge_evidence/bundle.py:275-277 | Parsing a printed checksum file returns the map it was printed from, for all names of one line without separators, without errors |
| `Checksums.ParsesIffPrinted` | src/edge_evidence/bundle.py:369-389 | Content parses without error if and only if it is what the printer makes of such a map, the one it parses to |
| `BundleProgram.BuildBundle` | src/edge_evidence/bundle.py:184-279 | The builder over two ledger reads, with whatever others commit in between; the files it returns tell of the first read, of the replay of the second, and of the inputs |
| `BundleProgram.ReadJsonl` | src/edge_evidence/bundle.py:348-366 | The loop over lines: a malformed one ends it, a non-canonical one is reported |
| `BundleProgram.CheckSums` | src/edge_evidence/bundle.py:407-412 | The checksum errors of a directory |
| `BundleProgram.CheckManifest` | src/edge_evidence/bundle.py:422-447 | The manifest errors |
| `BundleProgram.CheckLedger` | src/edge_evidence/bundle.py:449-466 | The loop over ledger documents and the ordinal dictionary it builds |
| `BundleProgram.ComparePairs` | src/edge_evidence/bundle.py:474-480 | `any` over the strict zip, which ends at the first disagreement |
| `BundleProgram.CheckFindings` | src/edge_evidence/bundle.py:468-484 | The errors of the quality findings |
| `BundleProgram.CheckBoundary` | src/edge_evidence/bundle.py:486-493 | The errors of the boundary findings |
| `BundleProgram.VerifyBundle` | src/edge_evidence/bundle.py:392-540 | The verifier as a whole, the exceptions it lets through included |
| `Bundles.FileSetComplete` | src/edge_evidence/bundle.py:399-405 | No file is missing and none unexpected if and only if the file set is the contract's |
| `BundleAgreement.ParseJsonlWritten` | src/edge_evidence/bundle.py:137-140 | Reading a written JSONL file returns its documents without complaint |
| `BundleAgreement.ChecksumsAgree` | src/edge_evidence/bundle.py:274-277 | A built bundle has no checksum error |
| `BundleAgreement.ManifestAgrees` | src/edge_evidence/bundle.py:260-272 | A built bundle has no manifest error |
| `BundleAgreement.LedgerAgrees` | src/edge_evidence/bundle.py:449-466 | The verifier recovers exactly the ledger's ordinals and identities from the sealed rows |
| `BundleAgreement.FindingAgrees` | src/edge_evidence/bundle.py:468-484 | A finding that carries its own digest and cites committed rows has no error |
| `BundleAgreement.SealedBundleVerifies` | src/edge_evidence/bundle.py:392-540 | A sealed bundle, whatever its state and its quality documents, has no errors but those of its quality and boundary documents and of a state that counts other rows |
| `BundleAgreement.BuiltBundleVerifies` | src/edge_evidence/bundle.py:184-279 | The exact verification result of a built bundle, for every ledger, policy, boundary finding and interference |
| `BundleAgreement.BuiltBundleValidIff` | src/edge_evidence/bundle.py:205-206 | A built bundle is valid if and only if no row was appended between the two reads and the boundary findings are well-formed |
| `BundleAgreement.BuildSucceeds` | src/edge_evidence/bundle.py:200-254 | The builder succeeds on every ledger with a portable id, UTC times and finite boundary findings with text codes |
| `BundleAgreement.BuildNeeds` | src/edge_evidence/bundle.py:200-254 | And on no other id or time, and no boundary finding without a code or with a non-finite number |
| `BundleAgreement.ReferencesPassIff` | src/edge_evidence/bundle.py:474-484 | Cited ordinals and events pass if and only if they pair off, are hashable, and each pair agrees |
| `BundleMeaning.CanonicalTextIff` | src/edge_evidence/bundle.py:336-345 | A JSON file reads without complaint if and only if it is the canonical text of a finite value |
| `BundleMeaning.CanonicalLinesIff` | src/edge_evidence/bundle.py:348-366 | A JSONL file reads without complaint if and only if it is the canonical text of finite documents |
| `BundleMeaning.LedgerOkIff` | src/edge_evidence/bundle.py:449-466 | The ledger loop reports nothing if and only if every document holds a valid event and its digest under positive, strictly increasing ordinals; its dictionary then maps each ordinal to its identity |
| `BundleMeaning.FindingOkIff` | src/edge_evidence/bundle.py:468-484 | A finding document passes if and only if it has the ten fields, its own digest and agreeing references |
| `BundleMeaning.ManifestOkIff` | src/edge_evidence/bundle.py:422-447 | The manifest passes if and only if it records exactly the seven payload files with their sizes, digests and media types |
| `BundleMeaning.SealedIff` | src/edge_evidence/bundle.py:407-412 | There is no checksum error if and only if the checksum file is the printed digests of the sealed files |
| `BundleMeaning.ValidIffWhole` | src/edge_evidence/bundle.py:392-540 | A directory is valid if and only if it has exactly the nine files, its checksum file is their printed digests, and the others are the canonical text of documents consistent with the files and each other |
| `BundleLimits.SealedVerifiesIff` | src/edge_evidence/bundle.py:495-505 | Sealed with any state and any quality documents, a ledger's directory is valid if and only if its findings pass and the state's two counts are the number of rows |
| `BundleLimits.EmptiedStateVerifies` | src/edge_evidence/bundle.py:495-505 | For every ledger but the empty one, the directory sealed with a state of no sources is valid, and its state file is not that of the replay |
| `BundleLimits.NullReferencePasses` | src/edge_evidence/bundle.py:477-480 | An ordinal cited with a null event passes if and only if no sealed row has it |
| `BundleLimits.NullReferenceVerifies` | src/edge_evidence/bundle.py:468-484 | For every ledger there is a valid directory with a finding that cites the ordinal after the last row, with a null event |
| `BundleLimits.CitationsResolveIff` | src/edge_evidence/bundle.py:449-484 | In every valid directory all cited pairs of ordinal and event are sealed rows if and only if no cited event is null |
| `BundleContents.BuiltBundleTells` | src/edge_evidence/bundle.py:184-279 | Every built bundle, file by file: the rows first read with their digests; findings sound and complete for those rows under the policy at the evaluation time, and no others; the boundary findings given, sorted; policy, run and manifest values; the replay of the second read; the report of the run and all codes |
| `BundleDiagnosis.WrongFilesAreNamed` | src/edge_evidence/bundle.py:399-405 | With another file set exactly the missing and unexpected names are reported, and nothing is read |
| `BundleDiagnosis.AlteredFileIsNamed` | src/edge_evidence/bundle.py:407-412 | Altering one sealed file of a valid bundle is reported as a checksum mismatch of that file and of no other, if the directory can still be read |
| `BundleDiagnosis.ResealedErrors` | src/edge_evidence/bundle.py:413-540 | However its documents were changed, a directory sealed again has no checksum, text or manifest error, and every other error exactly when its own check finds it |
| `BundleDiagnosis.ResealedRun` | src/edge_evidence/bundle.py:507-530 | Each of the six run errors is reported if and only if the value it names is not the one counted, given or supported |
| `BundleDiagnosis.ResealedState` | src/edge_evidence/bundle.py:495-505 | Each state error is reported if and only if the digest in the run, the event count or the last ordinal is not that of the sealed documents |
| `BundleDiagnosis.ResealedLedger` | src/edge_evidence/bundle.py:449-466 | A ledger document is reported as invalid if and only if one holds no valid event, and as mismatched if and only if one gives its event another digest |
| `BundleDiagnosis.ResealedFindings` | src/edge_evidence/bundle.py:468-493 | An identity mismatch is reported if and only if some finding carries another id than its content's, a classifier mismatch if and only if some boundary finding has another version |
| `BundleDiagnosis.ResealedOrder` | src/edge_evidence/bundle.py:449-466 | The order error is reported if and only if the ordinals of the documents that hold an event are not positive integers, each above the one before |
| `BundleDiagnosis.MismatchedIff` | src/edge_evidence/bundle.py:474-482 | The references of a finding are a mismatch if and only if some ordinal's committed event is not the one cited beside it, and every pair before it agrees with an ordinal that can be looked up |
| `BundleDiagnosis.RaisesIff` | src/edge_evidence/bundle.py:336-366 | Verification raises if and only if, in a directory of the contract's files, a JSON file cannot be read, or a JSONL file has a line that cannot be read before any malformed one |
| `BundleDiagnosis.TextErrorsIff` | src/edge_evidence/bundle.py:336-366 | In a verified directory a file is reported as malformed if and only if its JSON, or some line of its JSONL, is malformed, and as not canonical if and only if its text, or a line with no malformed one before it, is not its value's rendering |
| `BundleSeals.ValidIsSealed` | src/edge_evidence/bundle.py:407-412 | The checksum file of a valid bundle is the printed digests of its other files |
| `BundleSeals.ChecksumFileDetermines` | src/edge_evidence/bundle.py:369-443 | Without collisions, valid bundles with one checksum file agree on all nine files |
| `BundleSeals.SealedFilesDetermine` | src/edge_evidence/bundle.py:369-443 | Valid bundles with equal sealed files have equal checksum files |
| `BundleSeals.OneChangedFileIsDetected` | src/edge_evidence/bundle.py:392-443 | Changing exactly one file of a valid bundle makes it invalid |
| `BundleSeals.FileSetIsFixed` | src/edge_evidence/bundle.py:399-405 | So does adding or removing a file |
| `CampaignEvidence.InspectedBundleVerifies` | src/edge_evidence/bundle.py:295-329 | A bundle that carries an inspector's findings builds and verifies, for every ledger |
| `CampaignEvidence.BuildCampaignBundle` | src/edge_evidence/bundle.py:295-329 | A demonstration bundle is built if and only if its campaign returns and id and time are proper; it verifies, and tells of the first events of the campaign's records at the scenario's evaluation time with what the inspector found |
| `HistoricalProperties.MappedEvent` | src/edge_evidence/historical.py:123-164 | A mapped record is a valid event with the pseudonyms of its identity and stream and the sequence it was given |
| `HistoricalProperties.MappedContent` | src/edge_evidence/historical.py:150-164 | It carries the record's signal and timestamp, and the import time as its receipt time |
| `HistoricalProperties.LineSteps` | src/edge_evidence/historical.py:180-218 | Each line takes one record in, at the next position of its stream, or counts one rejection |
| `HistoricalProperties.ImportIsGood` | src/edge_evidence/historical.py:174-218 | After any lines: events and rejections add up to the lines, identities are distinct, each stream is numbered 0, 1, 2, ... in input order |
| `HistoricalAcceptance.LinesRead` | src/edge_evidence/historical.py:180 | A file of one-line texts, each under a line feed with or without a carriage return, has exactly those lines |
| `HistoricalAcceptance.LineTakenIff` | src/edge_evidence/historical.py:180-218 | At every line of every input: the line becomes an event if and only if it is a record of one of the two shapes with a new identity, non-empty texts, finite values, a type with an identifier and a timestamp not after the import; the event is given field by field, provenance included; any other line is one rejection |
| `HistoricalAcceptance.LineRejectedFor` | src/edge_evidence/historical.py:190-212 | The reason counted for a rejected record is that of the first of twelve grounds that applies |
| `HistoricalAcceptance.NoRecordRejected` | src/edge_evidence/historical.py:180-192 | Blank lines, invalid JSON and values that are no object are rejected as such, and an undecodable line ends the import |
| `HistoricalAcceptance.HexadecimalKeysIdentify` | src/edge_evidence/historical.py:80-82 | Keyed digests of 64 hexadecimal digits make identifiers under both prefixes, which the two results above suppose |
| `HistoricalImport.ReplayDigest` | src/edge_evidence/historical.py:248-251 | The digest of a fresh replay, or the conflict |
| `HistoricalImport.ImportAll` | src/edge_evidence/historical.py:174-218 | The loop over the lines |
| `HistoricalImport.QualifyHistorical` | src/edge_evidence/historical.py:167-245 | The import as a whole; its two replays never differ |
| `HistoricalLedger.LedgerTakesImportIff` | src/edge_evidence/historical.py:220-224 | A fresh ledger takes an import if and only if no two of its streams share a pseudonym |
| `HistoricalLedger.AllAccepted` | src/edge_evidence/historical.py:248-251 | And then every event is ACCEPTED, in input order |
| `HistoricalLedger.ImportHasNoSequenceFindings` | src/edge_evidence/quality.py:148-184 | Such an import evaluates without DQ-002 and DQ-003 findings, under any policy and at any time |
| `HistoricalLedger.QualifiesIff` | src/edge_evidence/historical.py:167-245 | An import is qualified if and only if every line that is not blank is decodable and no two streams with events share a pseudonym |
| `HistoricalLedger.ReportAddsUp` | src/edge_evidence/historical.py:229-244 | The report's counts add up to the lines, one format per event, and no stream with events goes uncounted |
| `HistoricalLedger.SourceCountIff` | src/edge_evidence/historical.py:207-242 | `source_count` is the number of streams with events if and only if every stream that some line looked up took a record in |
| `HistoricalLedger.RejectedSourceIsCounted` | src/edge_evidence/historical.py:207-242 | One record with an empty source gives no event, one rejection `invalid_source` and a source count of one |
| `HistoricalAcceptance.QualifiedTells` | src/edge_evidence/historical.py:220-245 | A qualified import returns the events of its lines, and a report with the digests of the file, of its events' canonical lines, and of a document that tells of their replay |
| `Text.SortedIsUnique` | src/edge_evidence/bundle.py:276 | There is one strictly increasing sequence over a set of names |

## Left out

- SQLite itself: WAL, synchronisation, busy timeouts, `BEGIN IMMEDIATE` failures, schema versions and the update and delete triggers. A transaction is an atomic step; rows are never updated because no operation updates them.
- Time laws quantify over all integers, although Python datetimes end with the year 9999; arithmetic beyond that range, which raises in Python, is not modelled.
- The class `EventLedger` has one writer; several writers are the step system of `Protocol`, which works on values and not on shared objects.
- An event object that was not built by `from_mapping` and does not satisfy its contract; ledger methods take valid events or mappings still to be validated.
- A row altered behind the ledger's back: `LedgerIntegrityError` is modelled by `Load`, but no reachable ledger raises it.
- Files and directories: temporary directories, atomic rename, `bundle_not_directory`, an existing target, unreadable files. Only regular files of a bundle count.
- SHA-256, HMAC, JSON text, UTF-8, timestamp text, event-type normalisation and the Markdown report are function values with the laws `Lawful`; nothing else is known of them.
- Strings hold no lone surrogates, so the encoding errors they cause in Python are not modelled; nor are integers of more than 4300 digits and nesting beyond the recursion limit.
- One value stands for NaN and both infinities; comparisons of documents with such numbers are not reached, since every reader rejects or raises on them first, `load_checkpoint` apart, which compares two fields before it raises.
- A float is its whole part and a code of its fraction; the rounding of `total_seconds()` is not modelled, and delays and ages are compared in exact microseconds.
- Objects have no key order: a finding document whose `ledger_ordinals` or `event_ids` is itself an object is iterated in sorted key order, which is its order in canonical text.
- `Mqtt.ParseMessage` returns the code of an adapter error and not the field its message names.
- The sorted tuple of error texts of the verifier is a set of error values.
- `QualityPolicy` with an unsupported version or thresholds its constructor refuses; thresholds that are not integers.
- `simulator.py`: the generated records of a scenario are an input. Campaign lemmas hold for all records; those on detected faults for any events of one source numbered from zero and observed in order, which is what the generator's baseline is.
- The report of a historical import is modelled without the echoed inputs and the first and last observation times.
- The Paho network loop, TLS, timeouts, start and stop; command lines; `about.py`.
- Seven of the ten values of a quality document are bound by its identity; severity and interpretation are not, and nothing is claimed of the interpretation text.
