# CipherMQ, modelled and verified

CipherMQ is a message broker: senders publish encrypted messages to exchanges, the server routes them by exact routing
key to bounded in-memory queues, pushes them to consumers over channels, and forgets them when they are acknowledged, when
they are evicted from a full queue, or when they were delivered and stay unacknowledged too long. This project models the
parts of it where correctness depends on several functions or several tasks together.

The broker appears at three levels:

* `ServerStates.ServerState` is the mutable object of `server/src/state.rs`, with its loops over targets, consumers and
  ids. Every method is proved equal to a function of module `Broker`.
* `Broker` gives the effect of each operation as a value. `BrokerIndex`, `BrokerRuns`, `BrokerHistory` and `Notification`
  prove properties of one step and of every finite run of operations, and `Publishing` says what a publish does in terms
  of bindings and tables alone.
* `Interleaving` splits publish, registration, acknowledgement, expiry and delivery into one step per access to a shared
  map, with any number of tasks. `NoDeliveryGap`, `AckCutoff`, `DeliveryMarks` and `QuietIndex` prove properties of every
  interleaving, and `PublishHistory` and `SessionHistory` trace publishes, statuses and receipts back to their events.
  `Uninterrupted` and `UninterruptedConsumers` prove that a publish, a registration, an acknowledgement or an
  expiry that runs alone is the atomic operation: tables, consumer lists and channels. The step-level state has no
  bindings; a publish there is given its targets, and `WholePublish` takes those the bindings yield.

Around it stand the delivery loop (`DeliveryLoop`), the storage actor's update buffers (`Storage`), the rate limiter
(`TokenBuckets`, `Connections`, and `ConcurrentChecks` for checks that overlap), the line formats (`Wire`), the receiver
(`Receiver`), the sender's pipeline (`Sender`), the composition of sender, wires, broker and receiver (`EndToEnd`), the
sender's window in it (`SenderWindow`), and what its records and wires hold in terms of its moves (`SenderHistory`,
`ReceiverHistory`).

`dafny verify dfyconfig.toml` checks the whole project.

## What turned out to need a condition

Each property below fails in general. A lemma gives an input on which it fails and another the exact condition.

* **The reverse index is not always exact.** A publish that fans out to several queues may later be evicted from one of
  them only; the eviction removes its status, and its copies in the other queues stay there untracked
  (`BrokerWitness.StrayIsReachable`). The index is exact throughout a run if and only if every publish of the run evicts its
  victims from all the queues that hold them (`BrokerRuns.AlwaysExactIff`). Runs without eviction and runs without fan-out
  are exact (`BrokerRuns.RegimesAreExact`).
* **An acknowledged message may be stored nowhere.** The receiver acknowledges what it has opened even if its storage task
  has returned and takes nothing any more (`LossWitness.FailedHandOffLoses`); the server lets any client acknowledge any
  message (`LossWitness.ForeignAckLoses`); and an acknowledgement under way removes whatever bears the id when it arrives,
  also another message that took the id after an eviction (`LossWitness.ReusedIdLoses`). No message is ever lost this way
  if and only if every acknowledgement that takes effect comes after a move that put the very message it removes in the
  receiver's storage (`EndToEnd.LossFreeIff`). That holds if the storage task takes what it is handed, only the receiver
  acknowledges and no id is reused for another message; then every command the sender stored is accounted for
  (`EndToEnd.CarefulNoSilentLoss`).
* **At step level the index can stay inexact after all tasks are done**, even without evictions and with one publish of an
  id at a time: when the id is published again while a second acknowledgement of it is still at work
  (`QuietIndexWitness.RepublishedDuringRemoval`). Where no publish passes its duplicate check while another publish or
  a removal of its id is at work, it is exact whenever nothing is at work on the id (`QuietIndex.ExactWhenQuiet`).
* **A failed write or flush enlarges the sender's window** (`SenderWindow.FailedWriteGrows`). The sending loop adds a permit,
  as its comment says, but the permit it owns is also returned when it goes out of scope. With fresh ids the window is
  conserved if and only if no write or flush fails (`SenderWindow.WindowConservedIff`).
* **A message can be marked delivered although no flush succeeded** (`DeliveryLoop.MarkedUnflushed`): exactly when the first
  two attempts fail and the third writes but cannot flush (`DeliveryLoop.Deliver`).
* **Buffered times can differ from immediate ones** (`Storage.SecondTimeWins`): exactly when a different time is written while
  one is buffered for a row that has none yet (`Storage.TimesAgreeIff`). An update whose row is saved only afterwards is kept
  by the buffer and lost by an immediate executor (`Storage.EarlyUpdateKept`), unless it is flushed at once
  (`Storage.StepRefinesIff`).
* **A release for a connection that is not open** can uncount one that is (`Connections.StrayReleaseUncounts`); it leaves the
  counters right if and only if neither its address nor its name belongs to an open connection
  (`Connections.StrayReleaseIff`).
* **The line formats** round-trip under conditions given exactly in `Wire`; spaces inside a payload are always kept.

A queue of size limit 0 holds one message: the bound is the larger of 1 and `max_queue_size`.

`ServerState::new` starts both cleanup tasks on clones of the new state. Cloning its maps copies them, so those tasks sweep
empty copies, and the running broker neither expires messages nor prunes consumer lists by timer. The theorems allow sweeps
and so cover runs with none.

## Conventions

Clocks, randomness, the outcomes of storing a row, of writing to a stream, of opening an envelope and of handing a message
to the storage task are parameters. `stamp` in a queued entry is the position of its publish in the run; no operation reads
it. `dropped` in the step-level state is read by no step; `NoDeliveryGap.DroppedByRun` says what it records, as
`EndToEnd.HandedByRun` does for `handed`. Maps that the
source iterates in an unspecified order are visited in an arbitrary order. Rate-limiter arithmetic is over the reals. At
step level, locks held across several accesses are ignored. That only adds interleavings, and says nothing about blocking:
publish takes a queue's guard and then the index's, acknowledge the index's and then a queue's.

## Model

| member | source | states |
|---|---|---|
| `ServerStates.ServerState.constructor` | server/src/state.rs:68-81 | A new broker has empty maps and the configured queue bound. |
| `ServerStates.ServerState.FindTargets` | server/src/state.rs:268-283 | The loop yields the queues bound with exactly this key, in binding order. |
| `ServerStates.ServerState.Enqueue` | server/src/state.rs:285-310 | The push loop, with its evictions from index and status, is the fold of single pushes, and collects the declared targets. |
| `ServerStates.ServerState.Notify` | server/src/state.rs:317-344 | The two nested loops send to every open consumer and keep exactly those. |
| `ServerStates.ServerState.Publish` | server/src/state.rs:234-351 | Whole new state of a publish; it is a duplicate exactly if its id has a status, fails exactly if it is none and its row was not saved, is accepted exactly if it is none, saved and some queue is bound, and changes nothing unless accepted. |
| `ServerStates.ServerState.RemoveTracked` | server/src/state.rs:475-485 | Visiting the queues of the index set in any order removes the id as a whole. |
| `ServerStates.ServerState.Acknowledge` | server/src/state.rs:453-487 | An unknown id changes nothing; a tracked one leaves its indexed queues, the index and the status. |
| `ServerStates.ServerState.CollectExpired` | server/src/state.rs:159-167 | The scan finds exactly the unacknowledged ids whose delivered time lies more than the limit before the clock reading. |
| `ServerStates.ServerState.CleanupOldMessages` | server/src/state.rs:155-182 | Removing the expired ids one by one, in any order, is one simultaneous removal. |
| `ServerStates.ServerState.MarkDelivered` | server/src/server.rs:418-426 | A status without a delivered time gets this clock reading and changes nothing else; any other is left as it is. |
| `ServerStates.ServerState.RegisterConsumer` | server/src/state.rs:354-424 | The queue is declared, the consumer listed last, and the snapshot is the deliverable entries in order. |
| `ServerStates.ServerState.PruneClosed` | server/src/state.rs:106-136 | Every list keeps its open consumers in order, and the lists left empty are noted. |
| `ServerStates.ServerState.CleanupDeadConsumers` | server/src/state.rs:98-153 | After a sweep the lists hold the open consumers and no list is empty. |
| `Publishing.PublishAnswers` | server/src/state.rs:245-283 | Each of the four answers in terms of status table, save and bindings alone: duplicate, failed save, no bound queue, accepted. |
| `Publishing.RefusedChangesNothing` | server/src/state.rs:245-283 | A known id, a failed save or a key without a bound queue leaves the whole broker as it was. |
| `Publishing.AcceptedPublish` | server/src/state.rs:268-314 | All an accepted publish does to the tables, queue by queue and id by id: bound queues gain the entry and full ones lose their oldest, victims lose those queues and their status, the id is indexed under exactly the bound queues and gets a status with the sent time only. |
| `Publishing.AcceptedTells` | server/src/state.rs:316-344 | All it does to consumers and channels: one copy per listing under a bound queue on each open channel, and only closed consumers of those queues are forgotten. |
| `BrokerIndex.PushAllEffect` | server/src/state.rs:285-310 | With distinct targets the whole push loop acts queue by queue: each target drops its oldest entry if full and gains the new one, each victim loses exactly the evicting queues and its status, nothing else changes. |
| `BrokerIndex.EnqueueTracks` | server/src/state.rs:285-314 | In any state, evictions included, a publish keeps every indexed queue holding its message. |
| `BrokerIndex.EnqueueExactIff` | server/src/state.rs:285-314 | An accepted publish keeps the index exact if and only if every victim leaves all queues that hold it. |
| `BrokerIndex.RemoveTracks` | server/src/state.rs:475-485 | Removal through the index keeps every indexed queue holding its message. |
| `BrokerIndex.RemoveTwice` | server/src/state.rs:169-180 | Removing two groups of ids one after the other is removing their union. |
| `BrokerIndex.RemoveIsScanIff` | server/src/state.rs:475-485 | Removal through the index equals filtering every queue if and only if the index lists every copy. |
| `BrokerIndex.AckIsScanIff` | server/src/state.rs:453-487 | An acknowledgement clears its message from all queues if and only if every copy is tracked. |
| `BrokerIndex.AckRefinesScan` | server/src/state.rs:453-487 | On an exact index an acknowledgement is the plain filter over all queues, and leaves the index exact. |
| `BrokerIndex.AcksCommute` | server/src/state.rs:453-487 | In every state acknowledging is idempotent, and acknowledgements of two messages commute. |
| `BrokerIndex.RemoveExact` | server/src/state.rs:475-485 | Removal of any ids keeps an exact index exact. |
| `BrokerIndex.SweepRemovesExpired` | server/src/state.rs:155-182 | A sweep takes from status and index exactly the unacknowledged ids delivered more than the limit ago, and on an exact index takes them from every queue with all other entries in place. |
| `BrokerIndex.TotalsAgree` | server/src/state.rs:285-314 | On an exact index the queue lengths sum to the index-set sizes of the tracked messages. |
| `BrokerRuns.TargetsOk` | server/src/state.rs:204-205 | Targets of a publish never repeat and are declared queues. |
| `BrokerRuns.BindRoutes` | server/src/state.rs:196-230 | Binding adds the queue at the end of the one route it names, if queue and exchange are declared and it is not on it yet, and changes no other route. |
| `BrokerRuns.DeclaredAndBoundRoutes` | server/src/state.rs:184-230 | After queue and exchange are declared and bound, a publish with the key is routed to the queue. |
| `BrokerRuns.DeclareChangesNoRoute` | server/src/state.rs:184-194 | Declaring again changes nothing, and declaring never changes a route or a queue's contents. |
| `BrokerRuns.RunSound` | server/src/state.rs:196-487 | In every reachable state bindings are distinct and declared, statuses are indexed, and indexed queues hold their messages. |
| `BrokerRuns.AlwaysExactIff` | server/src/state.rs:285-314 | The index is exact in all states of a run if and only if no publish of the run leaves a victim behind in another queue. |
| `BrokerRuns.AlwaysExactAt` | server/src/state.rs:285-314 | Exactness of a run, position by position. |
| `BrokerRuns.RegimesAreExact` | server/src/state.rs:285-314 | Runs that never evict, and runs that never fan out, keep the index exact throughout and the two totals equal. |
| `BrokerRuns.VictimBecomesStray` | server/src/state.rs:291-305 | A victim that another queue still holds stays there without status, and acknowledging it changes nothing. |
| `BrokerWitness.StrayIsReachable` | server/src/state.rs:291-305 | A concrete run of fan-out and eviction that reaches such a stray copy. |
| `BrokerHistory.QueueIsReplay` | server/src/state.rs:285-310 | A queue of the whole broker is the replay of its own pushes and removals. |
| `BrokerHistory.PushesArePublishes` | server/src/state.rs:245-310 | A queue is pushed to by exactly the steps that publish a saved message with an unknown id under a key that binds it, and gets that very message. |
| `BrokerHistory.QueueDiscipline` | server/src/state.rs:288-310 | In every run each queue is strictly in publish order, within max(1, max_queue_size), everything evicted is older than all that remains, and the entries ever pushed are exactly those queued, acknowledged, evicted and expired. |
| `BrokerHistory.KeepsNewest` | server/src/state.rs:288-310 | While nothing is acknowledged or expired, a queue holds exactly the newest pushes, as many as fit. |
| `BrokerHistory.StatusStep` | server/src/state.rs:234-487 | A step gives or keeps a status exactly when it accepts the id or does not release it; an accepted id had none. |
| `BrokerHistory.StatusIffHeld` | server/src/state.rs:245-248 | Over every run a message has a status if and only if some publish of it was accepted and nothing has released it since. |
| `BrokerHistory.ReacceptedOnlyAfterRelease` | server/src/state.rs:245-248 | Between two acceptances of one id lies an acknowledgement, expiry or eviction of it. |
| `BrokerHistory.AllOrNothing` | server/src/state.rs:268-314 | In every run, fan-out and eviction included, a message with a status is in every queue its latest publish routed it to, and the index lists exactly these. |
| `BrokerHistory.FateIs` | server/src/state.rs:155-182 | Held is having a status; acknowledged or dropped means the first release after the latest acceptance was an acknowledgement, or was an eviction or expiry. |
| `BrokerHistory.KnownIs` | server/src/state.rs:245-314 | An id has a fate, a latest message and a non-empty latest route exactly if some step accepted it, and both are those of the latest acceptance. |
| `BrokerHistory.HeldStatus` | server/src/state.rs:312-314 | In every run the status of a held message says when it was accepted, when it was first delivered since, if it was, and no acknowledgement. |
| `BrokerHistory.ExpiresIff` | server/src/state.rs:155-182 | A sweep takes a held message out of tracking if and only if it was delivered since its acceptance, the first time more than the limit before. |
| `Notification.NotifiedOncePerListing` | server/src/state.rs:317-344 | A notification puts one copy per listing on each open channel, none on closed ones, and leaves exactly the open consumers in the target lists. |
| `Notification.SendEachGot` | server/src/state.rs:320-340 | Over one consumer list, each open channel gains as many copies as it is listed. |
| `Notification.LiveIs` | server/src/state.rs:114-120 | Pruning keeps every listing of an open consumer and none of a closed one. |
| `Notification.LiveInOrder` | server/src/state.rs:114-120 | What pruning keeps is the listings of open consumers, in their order. |
| `Notification.SweepKeepsOpen` | server/src/state.rs:98-153 | A consumer sweep leaves lists for exactly the queues with an open consumer, each holding its open consumers in order, and changes nothing else. |
| `Notification.DeliverableIs` | server/src/state.rs:372-419 | The snapshot is exactly the queued entries that can still be delivered, in queue order. |
| `NoDeliveryGap.RunKeeps` | server/src/state.rs:234-424 | A ten-part invariant relating publishes, registrations, queues, statuses, consumer lists and channels holds in every interleaving. |
| `NoDeliveryGap.DroppedByRun` | server/src/state.rs:155-182 | A publish counts as dropped exactly when some event of the run acknowledged, evicted or expired its message. |
| `NoDeliveryGap.NoDeliveryGapEver` | server/src/state.rs:288-419 | In every interleaving a message told to a queue is on the channel of every registration on it that has sent its snapshot, unless an event of the run acknowledged, evicted or expired it or the channel closed. |
| `NoDeliveryGap.NoPutTwice` | server/src/state.rs:317-419 | A registration is given a publish at most twice, never twice by the same route, and channels get only real publishes for their own registrations. |
| `NoDeliveryGap.PublishNeverStuck` | server/src/state.rs:285-310 | In every interleaving a publish in its push loop finds its next target queue declared. |
| `PublishHistory.WayOf` | server/src/state.rs:234-351 | In every interleaving an accepted publish found its id unknown, then had its row saved, then was routed to its targets, then indexed, then accepted, each by an earlier event of its own; a refused one found its id known, its row unsaved or no target. |
| `PublishHistory.UnsavedStaysRefused` | server/src/state.rs:261-265 | A publish whose row was not saved takes no further step in any interleaving. |
| `AckCutoff.CutOffStep` | server/src/state.rs:464-485 | Only a fresh status insert ends the cut-off of a message. |
| `AckCutoff.CutOffRun` | server/src/server.rs:384-398 | While no publish inserts a fresh status, a cut-off message stays cut off and passes no gate. |
| `AckCutoff.AckCutsOffDelivery` | server/src/state.rs:464-485 | From the acknowledgement mark until a fresh status insert, no copy passes any session's gate, in every interleaving. |
| `DeliveryMarks.MarkedAfterWrite` | server/src/server.rs:400-457 | In every interleaving the event that changes a message's delivered time, from whatever it was, is a session's mark at its own clock reading, and an earlier attempt of that session wrote an entry of that message with nothing received in between. |
| `DeliveryMarks.TimeStays` | server/src/server.rs:418-457 | In every interleaving a delivered time, once set, stays exactly what it is until a publish inserts a fresh status. |
| `DeliveryMarks.SetOncePerAcceptance` | server/src/server.rs:418-457 | Between two events that change a message's delivered time lies the insert of a fresh status for it. |
| `DeliveryMarks.AtMostThreeAttempts` | server/src/server.rs:404-447 | Among any four attempts of a session lies the receipt of another message. |
| `SessionHistory.MarkSets` | server/src/server.rs:418-457 | In every interleaving a mark leaves the written message, acknowledged or not, with a delivered time if it has a status: the mark's clock reading if it had none; nothing else changes in the table. |
| `SessionHistory.HasStatusIff` | server/src/state.rs:291-314 | In every interleaving a message has a status exactly when a publish inserted one that no eviction, acknowledgement or expiry has removed since. |
| `SessionHistory.TimesAre` | server/src/server.rs:418-457 | In every interleaving the three times of a status are those of its insert, of the first delivery mark since and of the last acknowledgement mark since, and a time is missing exactly if there was no such mark. |
| `SessionHistory.CollectsOnlyExpired` | server/src/state.rs:155-167 | In every interleaving the expiry task collects only messages first marked delivered more than the limit ago and not marked acknowledged since their acceptance. |
| `SessionHistory.ReceivesInOrder` | server/src/server.rs:384-384 | In every interleaving receipt number n of a session takes put number n of its channel: everything once, in order. |
| `SessionHistory.CourseOf` | server/src/server.rs:384-458 | In every interleaving, from receipt to the next: an entry is written only after its message was found with a status and then an unacknowledged one, at most three times and again only after a failure; skipped only if found otherwise; marked only after a delivered attempt or a third that wrote; and the session closes by itself only after a third failed write. |
| `SessionHistory.ClosedForGood` | server/src/state.rs:320-340 | In every interleaving nothing is put on the channel of a closed session, received, written or marked there any more. |
| `QuietIndex.ExactWhenQuiet` | server/src/state.rs:234-487 | In every interleaving without evictions in which no publish of an id passes its duplicate check while another publish or a removal of it is at work: whenever nothing is at work on the id, the index is exact for it and no queue holds it twice. |
| `QuietIndex.SteadyAt` | server/src/state.rs:234-487 | Under the same condition, what queues, index and status say about an id while publishes and removals of it are under way. |
| `QuietIndexWitness.RepublishedDuringRemoval` | server/src/state.rs:453-487 | The clause on removals is needed: two acknowledgements overlap, the id is published again, and a queue is left holding it with neither index nor status. |
| `DeliveryLoop.Deliver` | server/src/server.rs:384-458 | When the message is skipped, how many attempts are made, when the session closes, when it is marked, exactly when it is marked without a successful flush, and that a mark sets a missing delivered time, to the clock reading of the branch taken, and nothing else. |
| `DeliveryLoop.MarkedUnflushed` | server/src/server.rs:404-457 | Two failed writes and a failed flush: the session goes on and marks, though nothing was flushed. |
| `DeliveryLoop.LoopIsSession` | server/src/server.rs:404-457 | The retry loop and the session steps of the interleaved model end the same way after as many attempts. |
| `UninterruptedConsumers.WholePublish` | server/src/state.rs:234-351 | From any reachable state a publish that runs alone to its end is the atomic publish: tables, consumer lists and channels. |
| `UninterruptedConsumers.RefusedPublish` | server/src/state.rs:245-283 | One that is refused changes nothing. |
| `UninterruptedConsumers.WholeRegistration` | server/src/state.rs:354-424 | From any reachable state a registration that runs alone is the atomic one followed by the deliverable entries on the consumer's channel. |
| `Uninterrupted.UninterruptedRemoval` | server/src/state.rs:453-487 | An acknowledgement or expiry whose steps run alone, visiting queues in any order, is the atomic removal. |
| `Storage.StepRefinesIff` | server/src/storage.rs:192-254 | Each command keeps the buffered executor in step with the immediate one if and only if its row comes first, and the times equal if and only if it also writes no different time over a buffered one. |
| `Storage.BufferingRefines` | server/src/storage.rs:192-254 | For any order of commands and flushes with rows saved first, rows with a time plus buffered ids are the immediate executor's rows with a time. |
| `Storage.TimesAgreeIff` | server/src/storage.rs:226-250 | The times agree throughout a run if and only if every command of it is clean, which can be checked before each command. |
| `Storage.OncePerWindowAgrees` | server/src/storage.rs:226-241 | At most one update per row and column between flushes makes the times agree throughout. |
| `Storage.FlushRefines` | server/src/storage.rs:380-441 | A flush at any moment keeps agreement and disagreement as they are. |
| `Storage.BuffersBounded` | server/src/storage.rs:226-241 | After every command both buffers are below 50, and a time once written is never overwritten. |
| `Storage.RowStep` | server/src/storage.rs:192-254 | A save sets the four columns of its row; a new row gets the given two times, an existing one keeps its own; nothing else adds a row or changes these columns. |
| `Storage.RowIsLatestSave` | server/src/storage.rs:192-212 | Over every run a row exists exactly if some command saved it, and its client, exchange, key and sent time are those of the latest save. |
| `Storage.ImmediateTime` | server/src/storage.rs:242-250 | The immediate executor in terms of its commands: a row's time is the one first saved, or else that of the first update after that save. |
| `Storage.FlushWrites` | server/src/storage.rs:251-254 | A flush command or a tick empties both buffers and leaves every row with the time that was buffered unless it had one. |
| `Storage.SyncUpdateEffect` | server/src/storage.rs:242-250 | A synchronous update writes its time at once if the row has none, and touches nothing else. |
| `Storage.FlushesAtFifty` | server/src/storage.rs:226-241 | A buffered update waits with its time unless it is the fiftieth of its buffer, which empties that buffer; the other buffer is untouched. |
| `Storage.AsyncUpdateEffect` | server/src/storage.rs:226-241 | Whether or not it triggers a flush, a buffered update decides what one column of its saved row will hold unless that is decided, and nothing else. |
| `Storage.SecondTimeWins` | server/src/storage.rs:226-254 | Two times in one window: the buffer writes the second, an immediate executor the first. |
| `Storage.EarlyUpdateKept` | server/src/storage.rs:226-254 | An update that overtakes its row is kept by the buffer and lost by an immediate executor. |
| `Storage.LoadsAllUnacknowledged` | server/src/storage.rs:255-271 | A load returns exactly the rows without an acknowledged time; those truly unacknowledged are the loaded ones minus those whose acknowledgement is buffered. |
| `Storage.StorageActor.constructor` | server/src/storage.rs:166-172 | The actor starts with an empty table model and empty buffers. |
| `Storage.StorageActor.FlushDeliveredUpdates` | server/src/storage.rs:380-410 | Writes the buffered delivered times to rows without one and empties the buffer; nothing for an empty buffer. |
| `Storage.StorageActor.FlushAcknowledgedUpdates` | server/src/storage.rs:412-441 | The same for acknowledged times. |
| `Storage.StorageActor.Serve` | server/src/storage.rs:174-372 | The actor loop over any commands ends in the state of their run: the rows saved, each with the columns of its latest save, fewer than 50 updates in each buffer, and the refinement if rows come first. |
| `TokenBuckets.OwnCallsDecide` | server/src/rate_limiter.rs:17-17 | A client's verdicts in a trace are those it would get if nobody else called. |
| `TokenBuckets.RefillComposes` | server/src/rate_limiter.rs:7-7 | Lazy capped refill over two intervals is refill over their sum. |
| `TokenBuckets.RejectedCallErasable` | server/src/rate_limiter.rs:17-17 | Deleting a call that the global bucket rejected changes no other verdict. |
| `TokenBuckets.WindowBound` | server/src/rate_limiter.rs:7-17 | In any window of any trace a client is admitted at most burst + rate * duration times, and its publishes at most the smaller of the global and the publish bound. |
| `TokenBuckets.SpacedNeverRejected` | server/src/rate_limiter.rs:7-17 | With bursts of at least 1 and positive rates, a client whose calls are one global refill apart and whose publishes are one publish refill apart is never rejected. |
| `TokenBuckets.FirstCallsAllowed` | server/src/rate_limiter.rs:7-17 | A new client has its whole bursts: at any clock readings, a call is allowed as long as its calls so far do not exceed the global burst, nor its publishes, if it is one, the publish burst. |
| `TokenBuckets.CheckCharges` | server/src/rate_limiter.rs:17-17 | A call is allowed exactly when the client's levels, the full bursts for a new client, hold a token for it, takes one token from each bucket that admits it, and leaves everybody else's buckets alone. |
| `TokenBuckets.VerdictsScale` | server/src/rate_limiter.rs:7-17 | The limiter gives the verdicts of one whose clock counts refilled tokens. |
| `ConcurrentChecks.CheckIsTakes` | server/src/rate_limiter.rs:17-17 | A check that is not overlapped is its one or two takes in a row. |
| `ConcurrentChecks.ConcurrentWindowBound` | server/src/rate_limiter.rs:7-17 | However checks overlap, in any window the takes of one kind granted to a client between two clock readings number at most burst + rate * duration. |
| `ConcurrentChecks.RefusedIff` | server/src/rate_limiter.rs:7-17 | However checks overlap, a take is refused if and only if from some take of the same client on, up to it, more than burst - 1 + rate * (time since) were granted. |
| `ConcurrentChecks.ApartNeverRefused` | server/src/rate_limiter.rs:7-17 | However checks overlap, a client whose takes of one kind are each at least one refill apart is granted all of them. |
| `ConcurrentChecks.RefusedTakeErasable` | server/src/rate_limiter.rs:7-17 | However checks overlap, deleting a refused take of either kind changes no other answer. |
| `Connections.ConnectExact` | server/src/rate_limiter.rs:18-18 | Admission keeps the counters equal to the open connections and within the caps, and releasing restores both maps. |
| `Connections.ReleaseExact` | server/src/rate_limiter.rs:20-24 | Releasing an open connection keeps the counters equal to the remaining ones. |
| `Connections.StrayReleaseIff` | server/src/rate_limiter.rs:20-24 | A release of a pair that may not be open keeps the counters right if and only if neither key is in use. |
| `Connections.StrayReleaseUncounts` | server/src/rate_limiter.rs:20-24 | A release for another client at the address of an open connection uncounts that address. |
| `Connections.CountersAlwaysExact` | server/src/rate_limiter.rs:18-24 | Over every run that releases only open connections, both counters are the per-key counts, present iff positive, within positive caps, with equal totals. |
| `Connections.RateLimiter.constructor` | server/src/rate_limiter.rs:16-16 | A new limiter has no buckets and no connections. |
| `Connections.RateLimiter.Check` | server/src/rate_limiter.rs:17-17 | The mutable check decides by the client's token levels, charges one token per admitting bucket and touches no other client. |
| `Connections.RateLimiter.CheckConnection` | server/src/rate_limiter.rs:18-18 | Admits exactly when the open connections of the address and of the client are below their caps, and the counters then count the new one too. |
| `Connections.RateLimiter.ReleaseConnection` | server/src/rate_limiter.rs:20-24 | Releasing an open connection leaves the counters counting the remaining ones. |
| `Wire.RequestIff` | server/src/server.rs:54-59 | A command word and its text come back exactly when the text is empty or does not end in white space. |
| `Wire.AckRoundTripIff` | server/src/server.rs:239-262 | An ack request comes back exactly when its id is not empty and does not end in white space. |
| `Wire.PublishRoundTripIff` | clients/sender_1/src/main.rs:910-913 | A publish comes back exactly when both names are free of spaces and the payload is not empty and does not end in white space. |
| `Wire.AckReplyRoundTripIff` | clients/sender_1/src/main.rs:842-850 | The server's reply comes back exactly when the id is not empty, does not end in white space and has no newline. |
| `Wire.FrameRoundTripIff` | clients/receiver_1/src/main.rs:626-651 | A delivered frame comes back exactly under the stated condition on id and payload. |
| `Wire.TrimIs` | server/src/server.rs:54-54 | Trimming cuts off white space at both ends and nothing else. |
| `Wire.AckParsedIff` | server/src/server.rs:239-262 | A buffer is an acknowledgement exactly if, trimmed, it is the word, a space and a non-empty id. |
| `Wire.PublishParsedIff` | server/src/server.rs:54-140 | A buffer is a publish exactly if, trimmed, it is the word and three fields separated by single spaces, the first two free of spaces. |
| `Wire.FrameParsedIff` | clients/receiver_1/src/main.rs:623-651 | A line is a frame exactly if, trimmed, it is the marker and a rest that, trimmed, is a non-empty id without spaces, a space and the payload. |
| `Receiver.HandleFrame` | clients/receiver_1/src/main.rs:626-684 | A frame that opens and whose id is new is handed over as it opens and then acknowledged, whether or not storage takes it; any other frame changes nothing. |
| `Receiver.ReceiveLoop` | clients/receiver_1/src/main.rs:547-699 | Over any lines, exactly the first line of each id that opens is handed over, with what it opens to, and then acknowledged, in the order of the lines. |
| `Receiver.AcknowledgedOnce` | clients/receiver_1/src/main.rs:653-684 | For any lines, repeated or reordered, no id is acknowledged twice, the acknowledged ids are exactly those of the lines whose payload opens, and each acknowledgement directly follows the attempt to hand its message over. |
| `Receiver.HandsOverFirsts` | clients/receiver_1/src/main.rs:626-684 | Which lines are handed over and acknowledged, with what content and in which order, in terms of the lines alone. |
| `Receiver.AcknowledgedIsStoredIff` | clients/receiver_1/src/main.rs:670-680 | The acknowledged ids are the stored ones if and only if the storage task takes the first line of each id that opens. |
| `Receiver.FirstOnlyPlaces` | clients/receiver_1/src/main.rs:653-656 | The processed frames are a subsequence of the opened ones, each the first of its id. |
| `Receiver.FlushBatch` | clients/receiver_1/src/main.rs:522-542 | A flush writes the batch in order and empties it. |
| `Receiver.ProcessMessages` | clients/receiver_1/src/main.rs:475-506 | Written plus batch is what was received, the batch holds what came since the last pause modulo 100 and is empty on exit, and the loop ends exactly at the first closed channel or timeout while stopping. |
| `Receiver.RecordsAre` | clients/receiver_1/src/main.rs:477-483 | The records are exactly those received, in order. |
| `Sender.StepDrift` | clients/sender_1/src/main.rs:819-948 | Which steps of sending loop and reader unbalance permits and pending entries, and by how much. |
| `SenderWindow.WindowConservedIff` | clients/sender_1/src/main.rs:891-948 | In the main loop with fresh ids, permits, pending and permits in transit sum to max_inflight exactly while no write or flush has failed, whatever the server refuses, and then at most max_inflight are pending. |
| `SenderWindow.FailedWriteGrows` | clients/sender_1/src/main.rs:925-939 | One failed write leaves one permit more than there were. |
| `SenderHistory.SentByRun` | clients/sender_1/src/main.rs:915-919 | The commands ever stored are those of the moves that stored one. |
| `SenderHistory.FailedByRun` | clients/sender_1/src/main.rs:925-1015 | Over every run an id is recorded as failed exactly when a write or flush of it failed or it was pending when the sender stopped waiting. |
| `SenderHistory.PendingByRun` | clients/sender_1/src/main.rs:842-939 | Over every run an id is pending, with the command last stored for it, exactly when no failed write and no acknowledgement has settled it since. |
| `SenderHistory.UpInOrder` | clients/sender_1/src/main.rs:922-939 | Over every run the server takes the commands in the order they were written, each once. |
| `SenderHistory.ServesInTurn` | server/src/server.rs:138-148 | What the server publishes is the command whose turn it is, with its own exchange, key and message. |
| `SenderHistory.DownInOrder` | clients/sender_1/src/main.rs:825-850 | Over every run the sender reads the answers in order, each once; an acknowledgement is given only for an unknown id, saved and bound to a queue. |
| `EndToEnd.AcceptedLands` | server/src/state.rs:278-314 | An accepted message is the newest entry of every queue of its route, and the route is not empty. |
| `EndToEnd.PublishSafety` | clients/sender_1/src/main.rs:842-939 | Over every run of sender, wires and broker, an id stored and no longer pending is recorded as failed, or the sender's own publish of it was accepted into a queue. |
| `EndToEnd.HandedByRun` | clients/receiver_1/src/main.rs:653-680 | A message is in the receiver's storage exactly when some move processed a frame of it, new on its connection, and the storage task took it. |
| `EndToEnd.AcknowledgedOncePerConnection` | clients/receiver_1/src/main.rs:653-680 | Whatever is delivered on it, a connection queues at most one acknowledgement of each id. |
| `ReceiverHistory.ProcessedByRun` | clients/receiver_1/src/main.rs:596-656 | Over every run an id counts as processed exactly when a frame of it was processed on the present connection. |
| `ReceiverHistory.FramesInOrder` | clients/receiver_1/src/main.rs:600-651 | Over every run the frames of a connection are read in the order of delivery, each once, and none of an earlier connection. |
| `ReceiverHistory.AcksInOrder` | clients/receiver_1/src/main.rs:670-680 | Over every run the acknowledgements under way are those of the processed frames, in order, less those that have left. |
| `ReceiverHistory.AcknowledgesInTurn` | server/src/server.rs:239-262 | An arriving acknowledgement is the one whose turn it is, and the broker acknowledges that id. |
| `EndToEnd.OwnFate` | clients/sender_1/src/main.rs:842-939 | A stored id neither pending nor failed is still in every queue of its latest route, or the first release of that publish was an eviction, an expiry or an acknowledgement. |
| `EndToEnd.AccountedOrLost` | clients/sender_1/src/main.rs:842-939 | Over every run a stored id is pending, failed, still queued everywhere its latest publish was routed, evicted or expired since, in the receiver's storage as last accepted, or lost to an acknowledgement; apart from pending and failed the last excludes the others. |
| `EndToEnd.LossFreeIff` | server/src/server.rs:239-262 | For every run, no message is ever lost to an acknowledgement if and only if each acknowledgement that takes effect, from any client, comes after a move that put the very message it removes in the receiver's storage. |
| `EndToEnd.NoSilentLoss` | clients/receiver_1/src/main.rs:653-684 | In such runs every stored id is accounted for. |
| `EndToEnd.CarefulRunsAreBacked` | clients/receiver_1/src/main.rs:670-680 | Every acknowledgement is such if the storage task takes what it is handed, only the receiver acknowledges and no id is reused for another message. |
| `EndToEnd.CarefulNoSilentLoss` | clients/receiver_1/src/main.rs:653-684 | Under these conditions on the moves alone, a stored id is pending, failed, still queued, evicted or expired, or the sender's own message is in the receiver's storage. |
| `EndToEnd.TakenWasAccepted` | clients/receiver_1/src/main.rs:653-684 | Everything put in storage was accepted by the broker as it is. |
| `LossWitness.FailedHandOffLoses` | clients/receiver_1/src/main.rs:673-678 | A run in which the receiver acknowledges a message its storage task did not take. |
| `LossWitness.ForeignAckLoses` | server/src/server.rs:239-262 | A run in which another client's acknowledgement removes a message nobody received. |
| `LossWitness.ReusedIdLoses` | server/src/state.rs:453-487 | A run in which an acknowledgement under way removes another message that took the id after an eviction. |

## Left out

- TLS, certificates, client names taken from them, and the permission table of `server/src/acl.rs`.
- Encryption, decryption, Base64 and JSON encoding: opening an envelope is an unknown partial function, payloads are text.
- The PostgreSQL pool, reconnection and SQL errors: the table is a map with the meaning of the statements, and no statement fails.
- Splitting and joining of commands by TCP reads: one command per read on the server, lines on the clients.
- Batch publishing (`publish_batch`): a loop over the publish that is modelled.
- Heartbeats, shutdown, the client counter, metrics, the admin server, configuration, logging and the key generators.
- `ServerState::consume` and other unused helpers.
- The window in the consumer sweep between noting an empty list and removing it, at step level; the atomic sweep is modelled.
- The sender's retry timing and final count: a retry is modelled as sending the command again; its acknowledgement read, waits and report are not.
- Server restart, including reloading of rows: only which rows a load returns is modelled.
- Floating-point rounding in the rate limiter.
- Deadlock: waiting for guards and locks is not modelled.
- The receiver's acknowledgement channel closing while frames still arrive: an acknowledgement may be lost on its way in `EndToEnd`, and is always queued in `Receiver`.
- Several receivers: one is modelled, and acknowledgements of all others count as those of any client.
- ServerStates.ServerState.constructor: does not start the two cleanup tasks, which the source starts on copies of the new state; their passes are the methods `CleanupOldMessages` and `CleanupDeadConsumers`.
- TokenBuckets.WindowBound: checks follow one another here, so that one order holds for both kinds of buckets; overlapping checks are treated bucket by bucket in `ConcurrentChecks`. The same holds for `RejectedCallErasable`, `SpacedNeverRejected` and `VerdictsScale`.
- EndToEnd.NoSilentLoss: broker operations are atomic here; their interleaving is treated in `NoDeliveryGap`, `AckCutoff`, `DeliveryMarks` and `QuietIndex`.
- NoDeliveryGap.NoDeliveryGapEver: the consumer sweep is not among its steps; notifications do prune closed consumers.
