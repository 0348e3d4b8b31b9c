# Event delivery and parking holds

This project models two parts of the platform and proves what they keep over whole runs.

**Event delivery.** The API writes events to an outbox table. Relay processes claim the oldest
unpublished rows, publish them to Kafka and book the outcome. A consumer group reads the partitions,
looks each event up in a ledger, calls a handler and enters the event in the ledger. Publish calls can
fail, with or without the record having been appended; every row write can fail, with or without
effect; any process can stop at any point. The central results, for every run:

- nothing enqueued is lost and nothing is marked published before a record of it exists
  (`RelaySafety.NoLoss`, `RelaySafety.RunKeeps`);
- once the partition of a published event is drained, its handler has been called once, and one time more
  for each failure that fell between a handler call and its ledger entry; without such failures the calls
  on a partition are its records with all repetitions removed (`EndToEnd.PublishedIsHandled`,
  `EndToEnd.HandledExactlyOnce`);
- when a younger event gets into its partition, an older one has no record yet if and only if all publish
  calls made for it so far have failed, or none has been made because, when the batch was claimed, another
  relay had it locked or its own transaction had not committed (`RelayOrder.InversionNeedsCause`);
- a row's counter is the number of publish calls, plus success writes whose reply was lost, less calls never
  counted, calls not counted yet and what stale success writes took back (`RelayAttempts.AttemptsBalance`,
  `RelayAttempts.AttemptsExact`);
- however many events can never be published and however many younger ones keep arriving, an event with
  fewer than fifty of the former ahead of it is published after a known number of batches, and one with
  fifty older ones never (`Draining.RowDrains`, `Draining.PublishedIffRoom`);
- from every state at rest, the run that carries out that many batches, and as many successful deliveries as
  there are records left, takes an event from the table to its handler (`Delivery.EnqueuedIsHandled`);
- a relay process, with its timer, failing batches and restarts, claims a batch only when none is under way,
  so it is one relay of this model (`RelayProcess.ProcessIsRelay`).

**Parking holds.** A hold expires lazily, when somebody looks at the clock, and eagerly, by a sweep over
the table. The repository's update overwrites whatever is stored. The central results:

- sweeps, and storing a hold after a failed command, change an answer if and only if an operation whose
  clock has reached the expiry writes it down before the first command whose clock has not; under clocks
  that never go back they are invisible (`HoldRuns.LazyIsEager`, `HoldRuns.ClocksInOrder`);
- what every interleaving of uncoordinated callers keeps (`HoldInterleavings.HoldsStaySound`), that two of
  them can both succeed (`HoldInterleavings.BothSucceed`), and what that takes
  (`HoldInterleavings.SecondSuccess`);
- callers that acquire the coordination key, load, act, store and release have at most one success per hold
  and lose no update, although the key is a lock that runs out by itself (`HoldSections.AtMostOneSuccess`,
  `HoldSections.DecisionsLast`). The repository has no such callers yet and its documents mention the key
  only for acquiring a hold (`docs/IMPLEMENTATION_ROADMAP.md:430`), so this order of calls is an assumption
  about them;
- two environments share coordination keys if and only if the key prefix of one continues that of the other
  (`HoldCoordination.EnvironmentsShareKeys`).

## How it is built

Objects that change state are classes with one method per method of the program; each method is proved
against a function of the old state (`RelayService.After`, `ConsumerService.ProcessMessage`,
`HoldDomain.Perform`, ...), and lemmas prove what that function achieves. What several processes do
together is a transition system: `RelaySystem`, `ConsumerSystem`, both joined in `EndToEnd`,
`HoldInterleavings`, `HoldSections` and the runs in `HoldCoordination`. `RelayRefinement.BatchIsRun`,
`ConsumerProgress.DeliverIsProcess` and `HoldInterleavings.SerialIsRun` show that undisturbed calls of the
methods and the serial functions are runs of the transition systems, and `Delivery` builds on that.

How a remote call ends is a parameter: `Wrappers.Write` for a row write, `Kafka.Send` for a publish
call, `RelayService.Fate` for all calls of one loop iteration. The properties hold for all values.

| module | models |
|---|---|
| Outbox, Kafka | the outbox table, the claim query, records, topics, the publisher, the consumer's reading of a record |
| RelayService, Draining | one `publishBatch`, and series of them |
| RelaySystem, RelaySafety, RelayAttempts, RelayOrder, RelayRefinement, RelayExamples | any number of relays, interleaved |
| RelayWorker, RelayProcess | the timer and the `running` flag of one process, and the process as a relay |
| ConsumerService, ConsumerSystem, ConsumerProgress | one message, and all partitions interleaved |
| EndToEnd, Delivery | relays and consumers together |
| HoldDomain, HoldRepository, HoldRuns | the hold, its table, serial commands and sweeps |
| HoldInterleavings, HoldCoordination, HoldSections | concurrent callers, the coordination key, callers that use it |
| Sequences, Sets, Wrappers | general notions |

`docs/EVENTS.md:8-18` calls the envelope's fields `eventId`, `eventType` and so on, while the publisher
writes and the consumer reads `id` and `type`; the model follows the code. `docs/EVENTS.md:35` and
`docs/IMPLEMENTATION_ROADMAP.md:419` promise order per aggregate; the code keeps it only under the
condition of `RelayOrder.InversionNeedsCause`. It breaks in `RelayExamples.FailureInverts` (one relay, a
failed publish call), `RelayExamples.TwoRelaysInvert` (no failure, two relays) and
`RelayExamples.LateCommitInverts` (no failure, one relay: `occurredAt` is taken when a transaction begins,
and the row appears when it commits). Results that assume rows to appear in order of `occurredAt` say so.

## Model

| member | source | states |
|---|---|---|
| Outbox.OutboxRepository.Enqueue | apps/api/src/common/outbox/outbox.service.ts:22-37 | Enqueueing adds one row with id, aggregate, type, payload and time as given, the given version or 1, the given metadata or {}, unpublished, with no attempts and no error; the backlog grows by exactly that row |
| Outbox.MarkVersusIncrement | apps/api/src/common/outbox/outbox-relay.service.ts:42-50 | The success write counts like the increment of the failure branch if and only if its snapshot is up to date, and on a stale one takes counts back; only the success write publishes |
| Outbox.WritesOnlyBook | apps/api/src/common/outbox/outbox-relay.service.ts:42-51 | No bookkeeping write adds or removes a row, touches another row, or changes the enqueued part of its own |
| Outbox.WritesAndBacklog | apps/api/src/common/outbox/outbox-relay.service.ts:42-51 | Only the success write takes a row out of the backlog, and it takes exactly its own |
| Outbox.ClaimSize | apps/api/src/common/outbox/outbox-relay.service.ts:26-36 | A claim takes all unpublished, unlocked rows up to 50, never fewer |
| Outbox.ClaimMembership | apps/api/src/common/outbox/outbox-relay.service.ts:32-34 | A row with fewer than 50 rows ahead of it is in every possible claim; a row with 50 strictly older ones is in none, however ties are broken |
| Outbox.ClaimExists | apps/api/src/common/outbox/outbox-relay.service.ts:26-36 | The claim query has an answer on every table and every set of locked rows |
| Kafka.DuplicatesAgree | apps/api/src/common/outbox/kafka-outbox.publisher.ts:27-42 | Duplicates of a row are identical records in one and the same partition, whatever its bookkeeping columns hold |
| Kafka.AggregateStaysTogether | apps/api/src/common/outbox/kafka-outbox.publisher.ts:32 | Events of one aggregate sent to one topic share a partition |
| Kafka.TopicChoice | apps/api/src/common/outbox/kafka-outbox.publisher.ts:67-72 | A nonempty string under `topic` in the metadata is the topic; without one the metadata has no influence, and the topic is the setting, the empty string included, or `platform.events.v1` if there is no setting |
| Kafka.EnvelopeAccepted | apps/api/src/common/outbox/kafka-event.consumer.ts:66-74 | The consumer reads back the row's key and type from the publisher's envelope if and only if the event type is nonempty, and refuses the record otherwise |
| Kafka.KafkaOutboxPublisher.Connect | apps/api/src/common/outbox/kafka-outbox.publisher.ts:59-65 | A connection once made is kept; a failed attempt leaves no memo, so the next call tries again |
| Kafka.KafkaOutboxPublisher.Publish | apps/api/src/common/outbox/kafka-outbox.publisher.ts:24-46 | Without a connection it fails and nothing is sent; otherwise it succeeds if and only if the send is acknowledged, and an appended record is the last of the one partition of the event's topic and aggregate, with the aggregate as key and a document of exactly the eight named fields, each holding the column of that name |
| Kafka.ReadFields | apps/api/src/common/outbox/kafka-event.consumer.ts:64-74 | An absent value is ignored; text that is no document, and a document without nonempty strings under both `id` and `type`, is refused; every other is accepted as these two strings |
| RelayService.OutboxRelayService.PublishEvent | apps/api/src/common/outbox/outbox-relay.service.ts:39-56 | One iteration, catch block included, does to table, logs, connection and counter what the step function says |
| RelayService.OutboxRelayService.PublishBatch | apps/api/src/common/outbox/outbox-relay.service.ts:25-59 | The loop goes through all claimed events, past failures, and stops only where a catch block throws; the result is the number of events published; a failed claim changes nothing |
| RelayService.BatchConservation | apps/api/src/common/outbox/outbox-relay.service.ts:26-58 | With no other writer the backlog falls by the returned number plus the success writes whose reply was lost, so the number is exact if and only if none was; the rows that leave are an in-order part of the oldest min(50, n) |
| RelayService.BatchHandles | apps/api/src/common/outbox/outbox-relay.service.ts:39-56 | If no reply is lost and no catch block throws, each claimed row has one attempt more and is either published without an error or unpublished with the error of its failure |
| RelayService.BookHandles | apps/api/src/common/outbox/outbox-relay.service.ts:41-51 | The same for one event, which is published if and only if the publish call and the success write both succeeded |
| RelayService.BatchFrame | apps/api/src/common/outbox/outbox-relay.service.ts:39-56 | A batch leaves rows it did not claim untouched and never changes the enqueued part of a row |
| RelayService.BatchBacklog | apps/api/src/common/outbox/outbox-relay.service.ts:41-47 | The backlog after any part of a batch is the backlog before it without exactly the rows marked on the way |
| RelayService.MarkedInOrder | apps/api/src/common/outbox/outbox-relay.service.ts:39-47 | The rows marked are an in-order part of the claim |
| RelayService.PublishedCount | apps/api/src/common/outbox/outbox-relay.service.ts:38-58 | The returned number counts the rows marked, less the lost replies |
| Draining.RowDrains | apps/api/src/common/outbox/outbox-relay.service.ts:15-58 | However many rows always fail and however many strictly younger rows arrive between batches: a good row with p < 50 failing and q good rows ahead of it is published after q / (50 - p) + 1 batches |
| Draining.NeededClosed | apps/api/src/common/outbox/outbox-relay.service.ts:15-34 | That number of batches in closed form: enough to get past q rows at 50 - p a batch, and one fewer is not |
| Draining.RowRound | apps/api/src/common/outbox/outbox-relay.service.ts:32-56 | Each batch takes the row itself or at least 50 - p of the good rows ahead of it, and leaves the failing ones |
| Draining.PublishedIffRoom | apps/api/src/common/outbox/outbox-relay.service.ts:32-56 | If no failing row is exactly as old and only younger rows arrive, enough batches publish a good row if and only if fewer than 50 failing rows are older |
| Draining.Draining | apps/api/src/common/outbox/outbox-relay.service.ts:15-58 | For the table as a whole, where k < 50 rows always fail and nothing is enqueued: n batches leave at most g - n(50 - k) of the g other rows, none once n(50 - k) >= g, and all of the failing ones |
| Draining.RemainingClosed | apps/api/src/common/outbox/outbox-relay.service.ts:15-34 | Taking min(g, 50 - k) away n times leaves g - n(50 - k), and nothing if and only if n(50 - k) >= g |
| Draining.RoundEffect | apps/api/src/common/outbox/outbox-relay.service.ts:38-56 | One batch takes out of the backlog exactly the claimed rows that can be published |
| Draining.Starvation | apps/api/src/common/outbox/outbox-relay.service.ts:32-34 | The threshold is tight: a row with 50 older always-failing rows is in no claim of any number of batches and never changes, whatever is enqueued |
| RelaySafety.StepKeeps | apps/api/src/common/outbox/outbox-relay.service.ts:25-59 | Every step of every relay, failing and crashing ones included, keeps the invariant that ties table, logs, open batches and publish calls together |
| RelaySafety.RunKeeps | apps/api/src/common/outbox/outbox-relay.service.ts:25-59 | Over any run of any number of relays rows never vanish, their enqueued part never changes and a published row never becomes unpublished |
| RelaySafety.NoLoss | apps/api/src/common/outbox/outbox-relay.service.ts:25-59 | In every reachable state a published row has a record in its own partition that carries it field by field, every other row is eligible or in an open claim, every record carries an enqueued row routed there, and open claims share no row |
| RelaySafety.StepClaims | apps/api/src/common/outbox/outbox-relay.service.ts:26-36 | Claims that are open at the same time stay disjoint |
| RelaySafety.RecordedInLog | apps/api/src/common/outbox/outbox-relay.service.ts:41 | A row's key is among its partition's records if and only if some publish call for it appended |
| RelayAttempts.AttemptsBalance | apps/api/src/common/outbox/outbox-relay.service.ts:42-51 | For any number of relays, in every run, the counter is the publish calls made for the row, plus its success writes whose reply was lost, less its calls dropped by crashes and ineffective increments, those not yet counted, and what stale success writes took back; so it stays within the calls if and only if the lost replies do not outweigh the rest |
| RelayAttempts.CallsAccounted | apps/api/src/common/outbox/outbox-relay.service.ts:41-51 | Every publish call leads to one counter write, or waits for it, or is dropped, and every lost reply of a success write leads to one more |
| RelayAttempts.AttemptsExact | apps/api/src/common/outbox/outbox-relay.service.ts:42-51 | For any number of relays the counter equals the counter writes that took effect if and only if no success write for the row took effect on a stale snapshot |
| RelayAttempts.OneRelayExact | apps/api/src/common/outbox/outbox-relay.service.ts:25-59 | One relay never writes on a stale snapshot, whatever fails, crashes and restarts, so its counters are exact |
| RelayExamples.LostReplyOvercounts | apps/api/src/common/outbox/outbox-relay.service.ts:42-50 | A run with one publish call and a counter of two: the success write took effect but was reported failed |
| RelayExamples.TwoRelaysShareRow | apps/api/src/common/outbox/outbox-relay.service.ts:26-46 | A failure-free run in which two relays publish one row, leaving two records and, by a stale success write, a counter of one after two counter writes |
| RelayOrder.TriesInOrder | apps/api/src/common/outbox/outbox-relay.service.ts:32-41 | In every run of any number of relays, at every publish call each strictly older row has been tried, or was locked or not yet in the table when this batch was claimed |
| RelayOrder.InversionNeedsCause | apps/api/src/common/outbox/outbox-relay.service.ts:30-56 | In every run of any number of relays: when a younger row's record is appended, an older row has no record yet if and only if publish calls for it were made and all failed, or none was made and it was locked or not yet in the table when the batch was claimed |
| RelayOrder.FailureFreeOrder | apps/api/src/common/outbox/kafka-outbox.publisher.ts:27-32 | One relay, rows appearing in order of `occurredAt`: if every publish call appends, events first appear in every partition in that order |
| RelayExamples.FailureInverts | apps/api/src/common/outbox/outbox-relay.service.ts:48-56 | A run of one relay in which a failed publish call lets a younger event of the same aggregate overtake |
| RelayExamples.TwoRelaysInvert | apps/api/src/common/outbox/outbox-relay.service.ts:30-34 | A failure-free run of two relays in which a younger event of the same aggregate overtakes one that is locked |
| RelayExamples.LateCommitInverts | apps/api/src/common/outbox/outbox.service.ts:22-37 | A failure-free run of one relay in which a younger event of the same aggregate overtakes one whose transaction commits later |
| RelayRefinement.BatchIsRun | apps/api/src/common/outbox/outbox-relay.service.ts:25-59 | Every undisturbed batch is a run of the transition system with one claim and the tables the method promises, from every state in which no claim is open |
| RelayRefinement.EventIsRun | apps/api/src/common/outbox/outbox-relay.service.ts:40-55 | The same for one iteration, through both branches and the throw in the catch block |
| RelayWorker.PollInterval | apps/api/src/common/outbox/outbox-relay.worker.ts:45-51 | The interval is never below 250 ms: a setting of 250 or more is respected, anything else gives 5000 |
| RelayWorker.OneBatchPerProcess | apps/api/src/common/outbox/outbox-relay.worker.ts:29-43 | After any sequence of ticks and settled batches `running` is set if and only if exactly one batch is in flight, and there are never two |
| RelayWorker.TickAfterSettling | apps/api/src/common/outbox/outbox-relay.worker.ts:33-42 | A batch that ends, by throwing too, never keeps the next tick from starting one |
| RelayProcess.ProcessIsRelay | apps/api/src/common/outbox/outbox-relay.worker.ts:17-43 | Whatever ticks, failing claims, settling batches and restarts do, and with any other relays beside it, what a process does is a run of the relay system, in which it claims only when no batch of its own is under way |
| RelayProcess.OneProcessExact | apps/api/src/common/outbox/outbox-relay.worker.ts:29-43 | So a single process has what holds for one relay: exact counters |
| RelayWorker.OutboxRelayWorker.RunOnce | apps/api/src/common/outbox/outbox-relay.worker.ts:29-34 | A tick starts a batch if and only if none is in flight, and afterwards exactly one is |
| RelayWorker.OutboxRelayWorker.Settle | apps/api/src/common/outbox/outbox-relay.worker.ts:38-42 | The flag falls when the batch settles, fulfilled or rejected |
| RelayWorker.OutboxRelayWorker.OnModuleInit | apps/api/src/common/outbox/outbox-relay.worker.ts:17-23 | If enabled, the timer is set to the poll interval and the start-up call counts as a tick |
| ConsumerService.KafkaEventConsumer.Process | apps/api/src/common/outbox/kafka-event.consumer.ts:63-85 | By message value: an absent one succeeds and an unparseable or incomplete one fails, both without effect; a complete one whose id is in the ledger succeeds without effect; otherwise the handler is called for exactly that id, and, if it completes, an entry with that id, type and group is inserted; it fails if either fails |
| ConsumerService.KafkaEventConsumer.Insert | apps/api/src/common/outbox/kafka-event.consumer.ts:80-84 | The ledger holds each id once: inserting a present id fails and changes nothing |
| ConsumerSystem.StepCursors | apps/api/src/common/outbox/kafka-event.consumer.ts:63-85 | Every step keeps committed offset <= position <= settled records, and every settled record to be ignored or entered in the ledger |
| ConsumerSystem.StepTraced | apps/api/src/common/outbox/kafka-event.consumer.ts:76-84 | Every step keeps each ledger entry traceable to a completed handler call and a settled record |
| ConsumerSystem.StepAccounted | apps/api/src/common/outbox/kafka-event.consumer.ts:76-84 | Every step keeps completed handler calls per id equal to ledger entry plus failures in the gap plus calls awaiting their entry |
| ConsumerSystem.StepOnce | apps/api/src/common/outbox/kafka-event.consumer.ts:76-84 | While no failure falls in the gap, every step keeps the calls on a partition equal to its settled ids with repetitions removed |
| ConsumerSystem.StepNotYetEntered | apps/api/src/common/outbox/kafka-event.consumer.ts:76-84 | With each id in one partition only, an event that passed the look-up is not in the ledger when its insert comes, in any interleaving of partitions |
| ConsumerProgress.DeliverIsProcess | apps/api/src/common/outbox/kafka-event.consumer.ts:63-85 | One delivery of the transition system does to ledger and handler what the method promises, and moves on if and only if the method succeeds |
| ConsumerProgress.RejectedBlocks | apps/api/src/common/outbox/kafka-event.consumer.ts:66-74 | A record the consumer cannot read holds its partition for good |
| ConsumerProgress.DeliveriesAdvance | apps/api/src/common/outbox/kafka-event.consumer.ts:63-85 | Without such a record each successful delivery advances the partition to the end of its log |
| ConsumerProgress.DeliveriesFinish | apps/api/src/common/outbox/kafka-event.consumer.ts:63-85 | Enough successful deliveries reach the end of the log if and only if no record left is unreadable |
| EndToEnd.HandledExactlyOnce | apps/api/src/common/outbox/kafka-event.consumer.ts:76-84 | With no failure in the gap, the completed handler calls on each partition are its settled records with every repetition removed, in order, plus the call whose entry is under way, for any number of relays, duplicates, crashes and redeliveries |
| EndToEnd.HandledInLogOrder | apps/api/src/common/outbox/kafka-event.consumer.ts:76-84 | Those calls sit at increasing places in the log, each at the first record of its event |
| EndToEnd.HandlerCallsAccounted | apps/api/src/common/outbox/kafka-event.consumer.ts:76-84 | In every reachable state completed handler calls for an id are one for its ledger entry, one per failure in the gap, one per entry under way |
| EndToEnd.OffsetSafety | apps/api/src/common/outbox/kafka-event.consumer.ts:63-85 | Every record below a committed offset is to be ignored or has its id in the ledger, and every ledger entry stems from a completed handler call |
| EndToEnd.PublishedIsHandled | apps/api/src/common/outbox/kafka-event.consumer.ts:76-84 | Once its partition is drained, a published row is in the ledger and was handled once plus once per failure in the gap, so exactly once if and only if there was none |
| EndToEnd.ConsumedToTheEnd | apps/api/src/common/outbox/kafka-event.consumer.ts:64-85 | From every reachable state with the partition between messages, enough successful deliveries consume the log to its end if and only if every row published there from the position on has an event type |
| EndToEnd.Progress | apps/api/src/common/outbox/kafka-event.consumer.ts:63-85 | In every interleaving with relays, other partitions, failures and restarts, the records remaining on a partition go down by its look-ups and up by new records and by what its own failures and restarts throw back, and by nothing else |
| EndToEnd.UndisturbedProgress | apps/api/src/common/outbox/kafka-event.consumer.ts:63-85 | From every reachable state, with typed events and no failure on the partition itself, each look-up takes one record off, whatever happens elsewhere |
| Delivery.EnqueuedIsHandled | apps/api/src/common/outbox/kafka-event.consumer.ts:63-85 | From every reachable state at rest with typed events, a good row with p < 50 failing and q good rows ahead: any q / (50 - p) + 1 batches of one relay, with younger rows arriving in between, and then any series of deliveries with as many successes as its partition has records left plus 50 a batch, are a run with that many claims and no more look-ups than deliveries, which ends in the tables and the consumer state they give, with the row published and its event handled |
| Delivery.RoundsAreRun | apps/api/src/common/outbox/outbox-relay.service.ts:25-59 | Batch after batch of one relay, with rows arriving in between, is a run of the relay system with the tables the batches promise and one claim each |
| EndToEnd.HandledInOrder | apps/api/src/common/outbox/kafka-outbox.publisher.ts:27-32 | One relay, rows appearing in order of `occurredAt`, no failed publish call, no failure in the gap: the handler is called on each partition in that order |
| EndToEnd.LogsHomed | apps/api/src/common/outbox/kafka-outbox.publisher.ts:67-72 | No event id ever occurs in two partitions |
| HoldDomain.Hold.Confirm | apps/services/go/availability/internal/domain/hold.go:42-57 | Succeeds if and only if there is a booking id and the hold is ACTIVE before its expiry; each error exactly in its own case; only the expiry error changes the status, to EXPIRED, and none changes booking id or reason |
| HoldDomain.Hold.Release | apps/services/go/availability/internal/domain/hold.go:59-74 | Succeeds if and only if there is a reason and the hold is ACTIVE before its expiry; each error exactly in its own case; only the expiry error changes the status, to EXPIRED, and none changes booking id or reason |
| HoldDomain.EffectiveStatus | apps/services/go/availability/internal/domain/hold.go:35-40 | An ACTIVE hold counts as EXPIRED from the very instant of its expiry on; every other status stays |
| HoldDomain.SettledAgree | apps/services/go/availability/internal/domain/hold.go:35-40 | Holds that agree once due expiry is carried out show the same effective status ever after |
| HoldDomain.PerformSettled | apps/services/go/availability/internal/domain/hold.go:42-74 | No command can tell whether a due expiry has been carried out, and after an error neither can anyone tell whether the hold was stored |
| HoldRepository.HoldRepository.Create | apps/services/go/availability/internal/persistence/holds.go:22-30 | Inserts under a free id, NULL exactly for an empty booking id or reason, so that the hold can be found again as it was; a taken id is an error without effect |
| HoldRepository.HoldRepository.FindByID | apps/services/go/availability/internal/persistence/holds.go:32-62 | Returns the stored row with NULL as the empty string, not found if and only if there is none while the database answers, and the database's error if and only if it does not |
| HoldRepository.HoldRepository.Update | apps/services/go/availability/internal/persistence/holds.go:64-85 | Overwrites status, booking id and reason whatever they held, and no other column or row; not found if and only if it was written and there is no row, and the database's error if and only if it was not |
| HoldRepository.HoldRepository.Expire | apps/services/go/availability/internal/persistence/holds.go:87-97 | Changes exactly the rows that are ACTIVE with an expiry at or before the reading, to EXPIRED; returns the number of rows changed; leaves no overdue ACTIVE hold |
| HoldRepository.RoundTrip | apps/services/go/availability/internal/persistence/holds.go:22-62 | All eight fields come back from storage, the empty string by way of NULL |
| HoldRepository.StorageReplay | apps/services/go/availability/internal/persistence/holds.go:22-97 | After any statements on any table a hold reads back with its five identifying fields as created and the other three as a replay on the hold alone gives them |
| HoldRuns.LazyIsEager | apps/services/go/availability/internal/persistence/holds.go:87-97 | Two histories with the same commands give the same answers if and only if they overtake the same ACTIVE holds, that is, write an expiry down before the first command that reads before it; nothing is assumed about clocks, sweeps or storing |
| HoldRuns.AlikeAfterwards | apps/services/go/availability/internal/persistence/holds.go:64-97 | If they give the same answers, they leave tables with the same effective statuses, booking ids and reasons at every time from their last reading on |
| HoldRuns.NobodyCanTell | apps/services/go/availability/internal/persistence/holds.go:32-97 | And such tables give the same answers to every later history, under whatever clocks from then on |
| HoldRuns.ClocksInOrder | apps/services/go/availability/internal/domain/hold.go:35-40 | Under clocks that never go back nothing is overtaken, so sweeps and storing after an error are invisible |
| HoldRuns.BareCommands | apps/services/go/availability/internal/domain/hold.go:35-74 | A history answers what its commands alone answer if and only if it overtakes no ACTIVE hold |
| HoldRuns.SweepNoticed | apps/services/go/availability/internal/persistence/holds.go:87-97 | A sweep changes the answer of the next command if and only if the hold is ACTIVE, the command has an argument, and the expiry lies after the command's reading and not after the sweep's |
| HoldRuns.SkewedClocksDiffer | apps/services/go/availability/internal/persistence/holds.go:87-97 | A sweep whose clock is ahead of a later command's takes away a confirmation that would have succeeded |
| HoldRuns.ClosedForm | apps/services/go/availability/internal/domain/hold.go:35-74 | Every answer of every history, under any clocks, with sweeps and storing anywhere: the first timely command with an argument succeeds unless it is overtaken; before it and if it is overtaken ErrHoldExpired, after it ErrHoldNotActive |
| HoldRuns.StoredForm | apps/services/go/availability/internal/persistence/holds.go:32-97 | What every history leaves stored for a hold, in all eight fields |
| HoldRuns.ClockedClosedForm | apps/services/go/availability/internal/domain/hold.go:35-74 | Under clocks that never go back the first command with an argument decides: it succeeds if and only if the hold has not expired, and all later ones get ErrHoldNotActive or ErrHoldExpired accordingly |
| HoldRuns.AtMostOneSuccess | apps/services/go/availability/internal/domain/hold.go:42-74 | Of serial commands on one hold at most one ever succeeds, under any clocks |
| HoldInterleavings.RunKeeps | apps/services/go/availability/internal/persistence/holds.go:64-97 | Every interleaving keeps the five identifying fields of every stored hold, and the soundness of rows and loaded copies |
| HoldInterleavings.HoldsStaySound | apps/services/go/availability/internal/domain/hold.go:42-74 | In every interleaving, lost updates included: CONFIRMED iff booking id, RELEASED iff reason, each from a successful command before expiry, and EXPIRED only after a clock reading at or past expiry |
| HoldInterleavings.SerialIsRun | apps/services/go/availability/internal/persistence/holds.go:32-85 | An uninterrupted command is a load, act and store of the interleaving model, with the effect the serial model gives it |
| HoldInterleavings.BothSucceed | apps/services/go/availability/internal/persistence/holds.go:64-85 | A run in which two callers confirm and release one hold, both successfully, and the later store wipes out the first |
| HoldInterleavings.SecondSuccess | apps/services/go/availability/internal/persistence/holds.go:64-85 | In every interleaving, once the table shows a hold confirmed or released, a later command on it succeeds only on a copy loaded before then or after a stale store has put ACTIVE back |
| HoldInterleavings.TwoSuccesses | apps/services/go/availability/internal/persistence/holds.go:32-85 | Any two successful commands on one hold, stored or not: the second acted on a copy its caller had before the first succeeded, or loaded while the table had shown ACTIVE ever since, or after a stale store had put ACTIVE back |
| HoldCoordination.KeyText | apps/services/go/availability/internal/coordination/redis.go:18-23 | The key is the environment, or `development` if that is empty, then `:availability:hold:`, then the hold id |
| HoldCoordination.KeyInjective | apps/services/go/availability/internal/coordination/redis.go:45-47 | Different holds have different keys |
| HoldCoordination.EnvironmentsShareKeys | apps/services/go/availability/internal/coordination/redis.go:18-23 | Two environments share a key if and only if the key prefix of one continues that of the other |
| HoldCoordination.KeysApart | apps/services/go/availability/internal/coordination/redis.go:18-23 | Environments whose names have no colon share a key if and only if they are the same |
| HoldCoordination.ColonsCollide | apps/services/go/availability/internal/coordination/redis.go:18-23 | A name and its continuation by the namespace share keys |
| HoldCoordination.HoldCoordinator.Acquire | apps/services/go/availability/internal/coordination/redis.go:25-39 | Refused for the expiry if and only if it is not in the future; otherwise, when the reply arrives, granted if and only if the key is absent or its deadline has passed, and already coordinated if and only if it is held; a lost reply is an error that may leave the key set until the given expiry; the keys of other holds are as held as before |
| HoldCoordination.HoldCoordinator.Release | apps/services/go/availability/internal/coordination/redis.go:41-43 | Deletes the key of this hold, whoever set it, and no other |
| HoldCoordination.CoordinatorExclusion | apps/services/go/availability/internal/coordination/redis.go:25-47 | Over any run two grants of one hold, told to their callers or not, are separated by a release of it or by the first one's expiry, and a grant neither released nor expired still has its key |
| HoldCoordination.GrantedIffFree | apps/services/go/availability/internal/coordination/redis.go:25-47 | After any run, an acquisition with its expiry in the future whose reply arrives is granted if and only if each earlier grant of the hold has been released or has run out |
| HoldSections.AtMostOneSuccess | apps/services/go/availability/internal/coordination/redis.go:25-43 | Callers that acquire until the hold's expiry, load, act, store and release, in any interleaving with lost replies, failed stores, vanishing callers and sweeps by any clock, have at most one success per hold |
| HoldSections.DecisionsLast | apps/services/go/availability/internal/persistence/holds.go:64-85 | Among such callers a hold stored as confirmed or released reads the same ever after, overwriting updates notwithstanding |
| HoldSections.SectionIsCommand | apps/services/go/availability/internal/coordination/redis.go:25-43 | A caller that is not interrupted does to the table what the serial command does, succeeds exactly when that does, and leaves the key free |
| HoldSections.ClosedRefuses | apps/services/go/availability/internal/domain/hold.go:42-74 | No command succeeds on a hold that is decided, expired, or taken by a key nobody gives back |
| HoldSections.DecidedCopyStep | apps/services/go/availability/internal/coordination/redis.go:25-31 | A success its caller never stored still keeps others out until expiry, because key and hold run out together |

## Left out

- Kafka, PostgreSQL and Redis themselves: a publish call that returns has appended, and one that fails has appended by then or never does; a claim skips the rows of claims that are still open, and a row write waits for them; statements are atomic; SETNX and DEL are atomic.
- How KafkaJS commits: an offset is committed only after the records below it were processed, so never above the position; delivery starts at the first record (`kafka-event.consumer.ts:54` asks for new records only, so a group that subscribes late misses what was there).
- JSON as text: a value is absent, unparseable or a document, and `occurredAt` is a number in it, not an ISO string.
- Several consumer groups on one ledger, which is keyed by event id alone, and two members of a group on one partition at the same time.
- Records that other producers put into the topics: the results of EndToEnd are about logs fed by the relays; those of ConsumerSystem and ConsumerProgress hold for any log.
- A change of `KAFKA_DEFAULT_TOPIC`, of a row's metadata or of the number of partitions while the system runs.
- The other statements of the transaction that `enqueue` can join: a row appears in the model when that transaction commits, with any `occurredAt`.
- The handler: it completes or fails; what it does is not modelled, and the repository's own does nothing.
- The overlap of two `connect` calls on one publisher, disconnecting, and logging.
- Column widths: `attempts` and the poll interval are unbounded.
- Time is an integer; the rounding of nanoseconds to the database's and Redis's precision is not modelled, and a process and Redis share one clock in HoldCoordination.
- Hold statuses other than the four, which `schema.sql:12-14` refuses, and the columns `created_at` and `updated_at`.
- A command handler for holds: the repository has none yet. A command is find, then confirm or release, then an optional update; HoldSections adds acquire before and release after.
- Retries with backoff, dead-letter topics and metrics, which `docs/EVENTS.md:51-54` plans and the code does not have.
- `GetAvailability`, the gRPC layer, configuration parsing, health endpoints, generated code, migrations and all user interfaces: nothing there has state of its own to reason about.
