# Velobus, proved

A Dafny model of the Velobus broker and its TypeScript client, and proofs of what they promise each
other. `dafny verify dfyconfig.toml` checks the whole project.

| file | what it models |
|---|---|
| `Scheduler.dfy`, `SchedulerInvariant.dfy`, `SchedulerRuns.dfy` | the RPC scheduler as a machine over values: each lock section is a step; the global invariant; theorems over every run |
| `SchedulerAnswers.dfy`, `SchedulerReplies.dfy` | what each operation does for its caller, exactly when and with which code; over runs, whose answer a caller gets and what giving up means |
| `Rpc.dfy` | the scheduler as it is kept: maps, queues, counters and byte totals updated in place, refining the machine step by step |
| `EventLog.dfy`, `FetchScan.dfy`, `Paging.dfy` | what a fetch means, the one-pass scan that computes it, and what paging through a growing log preserves |
| `Wal.dfy`, `Store.dfy`, `StartUp.dfy`, `Recovery.dfy`, `Provenance.dfy`, `RecoveryGaps.dfy` | the log file as bytes, the store over it, crash safety over whole runs, where the batches of a log come from, and the places where recovery promises less than one would think |
| `Protocol.dfy`, `Requests.dfy`, `Malformed.dfy`, `Utf8.dfy` | scalars, strings, records and the nine requests: parsers, printers and the reader that decodes in place |
| `Frames.dfy`, `FetchResponse.dfy`, `Responses.dfy` | envelopes and the incremental decoder; responses from the broker's encoder to the client's checks |
| `Cluster.dfy`, `ClusterRuns.dfy`, `Gate.dfy` | the cluster client's choice of node, retries and pending counts; the shared handler gate |
| `EndToEnd.dfy` | the pool and any number of broker processes in one machine, joined by the frames of the attempts |
| `ClientRequests.dfy`, `ServerAdmission.dfy` | the client's request table; the broker's per-connection ids and permits |
| `HandlerError.dfy`, `Histogram.dfy` | truncation of handler errors; the benchmark histogram |
| `Codes.dfy`, `Basics.dfy` | the protocol's error codes; sets, ordered sequences and other small facts |

How the parts are modelled:

- Every public operation of the scheduler is one atomic step; a run interleaves them in any order. Time
  is an argument that never goes back, except that the two clock readings inside one lock section may
  differ. A dropped ticket is a later cancel step. Connection ids are never handed out twice
  (`crates/velobus/src/main.rs:191`). A notification is one flag per enabled waiter.
- The log file is a sequence of bytes with a synced length. An append may stop after any prefix, its
  sync may fail, and a crash may cut the file anywhere at or above the synced length. The checksum is
  any function from bytes to 32-bit numbers.
- A frame of the pool may reach its broker late, after its client has failed, or never; brokers may die
  and come back empty at any time.
- Client operations are split at every `await`; replies, failures, aborts and reconnects come between.
- Topics, keys and messages are their UTF-8 bytes; handler errors start as UTF-16 code units.

## Where the code does less than expected

Three recovery promises that look natural are false of the code.

- "At most one unacknowledged batch remains in the log." A failed publish may have written its whole
  frame, recovery keeps every whole frame, and the next process can fail in the same way: two process
  lifetimes can leave two such batches, even if everything before the second failure was synced.
  `RecoveryGaps.TwoUnacknowledged` is such a run. `RecoveryGaps.AtMostOneUnacknowledged` gives the exact
  condition for the next failure: every whole frame on file is an acknowledged batch.
  `Provenance.UnacknowledgedAreFailures` is the bound that always holds, and
  `Provenance.RestartFindsTheAttempt` says which batch a restart may add.
- "At most one batch beyond the durable ones comes back." `Wal::open` syncs the file only when it has cut
  something off (`crates/velobus/src/wal.rs:91-141`), so a recovered batch can stay unsynced and a second
  one be written behind it. `RecoveryGaps.TwoBeyondDurable` is such a run, and
  `RecoveryGaps.AtMostOneBeyondDurable` the exact condition, on the file before the publish: all of it is
  synced.
- "A second restart recovers the same log." Without a crash in between it does
  (`Recovery.RestartTwice`). With one, a recovered and already served batch can vanish, because it was
  never synced. `RecoveryGaps.ServedThenGone` is such a run and `RecoveryGaps.SecondRestartAgrees` the
  exact condition. A cursor a client kept can then lie beyond the log:
  `RecoveryGaps.CursorLastsWhenDurable` says exactly which cursors cannot, and `Responses.ReceiptLasts`
  that those of receipts never do.

## Model

| member | source | states |
|---|---|---|
| `SchedulerRuns.RunKeepsInvariant` | `crates/velobus/src/rpc.rs:106-121` | In every state of every interleaving the whole invariant holds: calls placed with a registered worker of their route or queued on a served route, a route exists iff it has a worker, queue, concurrency, call and byte budgets, final replies, counted TAKE waiters, no lost wakeup |
| `SchedulerRuns.ParkedHasNothingToTake` | `crates/velobus/src/rpc.rs:369-405` | No lost wakeup: a parked waiter whose notification has not fired has an empty queue or a worker at exactly full concurrency |
| `SchedulerRuns.DispatchOrder` | `crates/velobus/src/rpc.rs:323-367` | Over a whole run no call is dispatched twice, and the ids dispatched for one route strictly increase across all workers and re-creations of the route |
| `SchedulerRuns.DispatchInTime` | `crates/velobus/src/rpc.rs:292-367` | Every dispatch is before the deadline set at admission, hands over the caller's payload, and reports exactly the ceiling of the time left, between 1 and the caller's own timeout, so the 30000 clamp never cuts |
| `SchedulerRuns.OneReply` | `crates/velobus/src/rpc.rs:145-156` | A reply once sent is never changed or followed by another, and its channel is closed |
| `SchedulerRuns.LeavesOnce` | `crates/velobus/src/rpc.rs:131-143` | A call that has left the table never returns |
| `SchedulerRuns.SilentOnlyIfGivenUp` | `crates/velobus/src/rpc.rs:407-513` | A call no longer waiting was answered, unless its caller cancelled or disconnected in between |
| `SchedulerRuns.SlotHeldUntilReleased` | `crates/velobus/src/rpc.rs:445-513` | A dispatched call keeps its owner's slot until that owner completes it or disconnects; timeouts, cancels and the caller's departure never free it |
| `SchedulerRuns.Origin` | `crates/velobus/src/rpc.rs:260-321` | Every live call stems from one accepted request, the only step of the whole run that was given its id, and still carries its route, payload, caller, cost and deadline |
| `SchedulerRuns.RepliesRespectDeadline` | `crates/velobus/src/rpc.rs:407-449` | No result and no handler error is sent at or after the deadline, and no deadline error before it |
| `SchedulerRuns.RetryCodesMeanNotAccepted` | `crates/velobus/src/rpc.rs:260-321` | A rejected request added nothing, and no accepted call is ever answered with the two codes a caller may retry on |
| `SchedulerRuns.DisconnectTwice` | `crates/velobus/src/rpc.rs:461-513` | Disconnecting a second time changes nothing |
| `SchedulerRuns.DisconnectLeavesNothing` | `crates/velobus/src/rpc.rs:461-513` | After a disconnect nothing of the connection is left but silent calls of its that others still run, and TAKE futures that have been notified and whose next attempt is refused |
| `SchedulerRuns.StepFate` | `crates/velobus/src/rpc.rs:131-513` | What any one step may do to any one call: keep its terms, set its owner once, close its channel once; leave a slot only by completion or the owner's disconnect |
| `SchedulerRuns.StepDispatch` | `crates/velobus/src/rpc.rs:323-367` | A step that dispatches hands over the oldest live queued call of the worker's route |
| `SchedulerReplies.AnswerIsTheWorkers` | `crates/velobus/src/rpc.rs:407-445` | Over every run a result or handler error a caller gets is the payload of the one completion of its call, with the matching failed flag, by the very worker the call was dispatched to, and that worker was handed the payload of the very request the call stems from |
| `SchedulerReplies.CompletionDelivers` | `crates/velobus/src/rpc.rs:407-445` | Over every run a worker that completes its call in time while the caller waits is not refused, and what it sent is the caller's one reply from then on |
| `SchedulerReplies.CancelledForGood` | `crates/velobus/src/rpc.rs:451-459` | Over every run the call of a dropped ticket is never dispatched and never answered again; a queued one is gone for good, a running one keeps its owner and terms with nobody waiting |
| `SchedulerReplies.StepReply` | `crates/velobus/src/rpc.rs:145-156` | Whatever step answers a call, its channel was open; results and handler errors come only from its own worker in time, and SERVICE_UNAVAILABLE only when its worker, or the last of its route, has just gone |
| `SchedulerReplies.ConnectedUntilClosed` | `crates/velobus/src/rpc.rs:208-210` | Over every run a connection is known exactly from its start until it closes |
| `SchedulerReplies.RegisteredAsAsked` | `crates/velobus/src/rpc.rs:212-258` | Over every run a registered worker has the route, concurrency and queue limit of its own registration, and neither it nor its route ever exceeds them |
| `SchedulerAnswers.RequestDecides` | `crates/velobus/src/rpc.rs:260-321` | A request is accepted exactly when its caller is connected, a worker serves the route, and queue, table, bytes and ids have room once the overdue calls of the route are gone; otherwise the code names the first of these that fails |
| `SchedulerAnswers.RequestDoes` | `crates/velobus/src/rpc.rs:260-321` | An accepted request is queued under a new id with its own caller, route, payload, deadline and cost and its workers are woken; beyond that only the overdue calls of the route are gone and told so |
| `SchedulerAnswers.CompleteDoes` | `crates/velobus/src/rpc.rs:407-445` | A completion is taken exactly from the worker that runs the call, with the right code otherwise; it frees the slot and the bytes, tells a caller that still waits the payload, the failure or the missed deadline, and touches no other call |
| `SchedulerAnswers.CancelDoes` | `crates/velobus/src/rpc.rs:451-459` | A dropped ticket removes a queued call with its place and its bytes, silences a running one in place, says nothing, and changes nothing else |
| `SchedulerAnswers.ExpireDoes` | `crates/velobus/src/rpc.rs:145-156` | A timer tells a caller that still waits that the deadline has passed, removes a queued call, silences a running one, and changes nothing else |
| `SchedulerAnswers.RegisterDoes` | `crates/velobus/src/rpc.rs:212-258` | A registration is taken exactly from a connected, unregistered worker that agrees with the route's queue limit, is recorded with the route, concurrency and limit it gave, and leaves all others as they were |
| `SchedulerAnswers.BeginTakeDoes` | `crates/velobus/src/rpc.rs:369-385` | A TAKE starts exactly when its worker is registered and has fewer out than its concurrency |
| `SchedulerAnswers.EndTakeDoes` | `crates/velobus/src/rpc.rs:92-103` | A TAKE that ends takes only itself away and the count is that of the TAKEs left |
| `SchedulerAnswers.PollDecides` | `crates/velobus/src/rpc.rs:386-404` | A poll hands out exactly the oldest call in time if a slot is free, retries exactly if that one ran out of time between two looks, and parks in all other cases and only then |
| `SchedulerAnswers.PollDoes` | `crates/velobus/src/rpc.rs:323-367` | After a poll the overdue calls of the route are gone and told so, a dispatched one has the worker as owner and is otherwise unchanged, and every other call is as it was |
| `SchedulerAnswers.DisconnectSpares` | `crates/velobus/src/rpc.rs:461-513` | A closing connection leaves alone every call that others made and that it neither runs nor is the last to serve |
| `SchedulerAnswers.DisconnectTells` | `crates/velobus/src/rpc.rs:476-512` | Every call that goes with it although somebody else waits is answered SERVICE_UNAVAILABLE |
| `SchedulerAnswers.DisconnectUnregisters` | `crates/velobus/src/rpc.rs:461-513` | Its registration goes and no other, a route goes exactly with its last worker, and the enabled TAKEs of the route are notified |
| `SchedulerInvariant.RequestInv` | `crates/velobus/src/rpc.rs:260-321` | Admission or refusal keeps the invariant |
| `SchedulerInvariant.TryTakeInv` | `crates/velobus/src/rpc.rs:323-367` | One lock section of try_take keeps the invariant |
| `SchedulerInvariant.CompleteInv` | `crates/velobus/src/rpc.rs:407-445` | Completion keeps the invariant |
| `SchedulerInvariant.ExpireInv` | `crates/velobus/src/rpc.rs:145-156` | Expiry keeps the invariant |
| `SchedulerInvariant.CancelInv` | `crates/velobus/src/rpc.rs:451-459` | A dropped ticket keeps the invariant |
| `SchedulerInvariant.DisconnectInv` | `crates/velobus/src/rpc.rs:461-513` | Disconnection keeps the invariant, with every waiter it could strand notified |
| `SchedulerInvariant.PollInv` | `crates/velobus/src/rpc.rs:394-404` | Parking after an empty attempt keeps the invariant, so parking never misses a call |
| `SchedulerInvariant.RegisterInv` | `crates/velobus/src/rpc.rs:212-258` | Registration keeps the invariant |
| `SchedulerInvariant.BeginTakeInv` | `crates/velobus/src/rpc.rs:369-385` | Counting a waiter keeps the invariant |
| `SchedulerInvariant.EndTakeInv` | `crates/velobus/src/rpc.rs:92-103` | Dropping a take guard keeps the invariant, and the count it lowers is above zero, so the saturating subtraction never saturates |
| `SchedulerInvariant.RetryShrinks` | `crates/velobus/src/rpc.rs:323-367` | Each retry of try_take removes a live call, so its loop ends |
| `Rpc.Broker.Remove` | `crates/velobus/src/rpc.rs:131-143` | Removing a call subtracts its bytes, its slot or its queue place exactly, wakes its worker if it had one, and touches no membership |
| `Rpc.Broker.ExpireCall` | `crates/velobus/src/rpc.rs:145-156` | The caller is answered once; a queued call goes, a running one falls silent |
| `Rpc.Broker.ExpireRoute` | `crates/velobus/src/rpc.rs:158-171` | Exactly the overdue queued calls of the route are answered and removed |
| `Rpc.Broker.NotifyRoute` | `crates/velobus/src/rpc.rs:173-181` | Exactly the enabled waiters of the route's workers are notified |
| `Rpc.Broker.Connected` | `crates/velobus/src/rpc.rs:208-210` | The maps after a connection are those of the abstract step, and stay valid |
| `Rpc.Broker.Register` | `crates/velobus/src/rpc.rs:212-258` | The maps, lists and counters after a registration, and the error code, are those of the abstract step |
| `Rpc.Broker.Request` | `crates/velobus/src/rpc.rs:260-321` | Clean-up, budgets, id and queueing come to the abstract step, error for error; accepted exactly when the caller is connected, the route served and there is room |
| `Rpc.Broker.TryTake` | `crates/velobus/src/rpc.rs:323-367` | The retry loop ends and does what the first section that did not retry says |
| `Rpc.Broker.BeginTake` | `crates/velobus/src/rpc.rs:369-385` | The pending take is counted within the worker's concurrency |
| `Rpc.Broker.Poll` | `crates/velobus/src/rpc.rs:386-404` | One turn of the waiting loop is the abstract one |
| `Rpc.Broker.EndTake` | `crates/velobus/src/rpc.rs:92-103` | The guard gives the count back |
| `Rpc.Broker.Complete` | `crates/velobus/src/rpc.rs:407-445` | Ownership check, single reply and release come to the abstract step, error for error; taken exactly from the owner, and a caller that still waits is sent that worker's payload, its failure or the missed deadline |
| `Rpc.Broker.Expire` | `crates/velobus/src/rpc.rs:447-449` | A timer that fires does the abstract step |
| `Rpc.Broker.Cancel` | `crates/velobus/src/rpc.rs:451-459` | A dropped ticket does the abstract step: nobody waits for the call any more, and a queued one is gone with its bytes |
| `Rpc.Broker.Disconnect` | `crates/velobus/src/rpc.rs:461-513` | Three loops over the tables, through states in which the invariant is broken, come to the one abstract step |
| `Rpc.Broker.OrphanCalls` | `crates/velobus/src/rpc.rs:463-475` | The caller's queued calls go and its running ones fall silent, in whatever order the table lists them |
| `Rpc.Broker.RetireWorker` | `crates/velobus/src/rpc.rs:476-512` | The worker's calls fail, its route loses it, and the last member takes the queue down with it |
| `Rpc.DisconnectInPhases` | `crates/velobus/src/rpc.rs:461-513` | The phases of a disconnect add up to its single declarative description |
| `EventLog.CoalesceExact` | `crates/velobus/src/store.rs:145-211` | The selection is, in ascending order, exactly the matching events of the window with no later matching event of the same topic and non-empty key |
| `EventLog.NothingSkipped` | `crates/velobus/src/store.rs:145-211` | Every matching event the cursor passes is returned or superseded by a returned later one of its key |
| `EventLog.ScanFurthest` | `crates/velobus/src/store.rs:160-203` | The cursor is the one furthest point at which every intermediate selection stays within limit, bytes and scan |
| `EventLog.PageProgress` | `crates/velobus/src/store.rs:157-211` | A page says exactly whether more remains; while more remains its cursor strictly advances, and it stops short of the end only after 4096 events or before one that would break a budget |
| `EventLog.FetchRefuses` | `crates/velobus/src/store.rs:145-185` | A fetch is refused exactly for a cursor beyond the log and for a byte budget that the very first event it would return breaks |
| `FetchScan.Fetch` | `crates/velobus/src/store.rs:145-211` | The one-pass scan with hash index, in-place replacement, running byte count and final sort returns exactly the declarative answer, including both error codes, and counts each coalesced record once |
| `Paging.AllPagesConcatenate` | `crates/velobus/src/store.rs:145-211` | Pages in `all` mode, under any per-page budgets and whatever is appended between the pages, concatenate to exactly the topic-filtered log up to the last cursor |
| `Paging.PagesKeepMeaning` | `crates/velobus/src/store.rs:145-211` | Pages in `latest` mode, each of the log as it is by then, keep every empty-key event once, in order, and fold to the same map as the filtered log up to the last cursor |
| `Paging.PagingReadsTheWholeLog` | `crates/velobus/src/store.rs:145-211` | Once nothing more is appended, after at most as many pages as there are events left paging has read the whole log: the same final map, and in `all` mode the same events |
| `Paging.CoalesceKeepsMeaning` | `crates/velobus/src/store.rs:185-200` | Replacing within one window changes no final value of any key |
| `Wal.ReadFrameExact` | `crates/velobus/src/wal.rs:92-146` | Recovery reads a frame as a batch exactly when the bytes are the ones an append of that legal batch writes |
| `Wal.FramePrefixReads` | `crates/velobus/src/wal.rs:92-122` | Any shorter prefix of a frame is a torn tail, never damage |
| `Wal.ReplaySound` | `crates/velobus/src/wal.rs:91-141` | Whatever recovery accepts is, byte for byte, a lawful log followed by a torn tail |
| `Wal.ReplayComplete` | `crates/velobus/src/wal.rs:91-141` | Recovery accepts every lawful log with a torn tail, whole |
| `Wal.FrameSize` | `crates/velobus/src/wal.rs:148-187` | The capacity charge is the appended frame's length, and recovery's length bounds admit every legal batch |
| `Recovery.FromFrame` | `crates/velobus/src/protocol.rs:175-196` | A batch decoded from any frame of legal length gives a log frame recovery accepts, of the size that was charged |
| `Store.EventsNumbered` | `crates/velobus/src/store.rs:101-112` | Events in memory are numbered by their positions |
| `Store.Store.Publish` | `crates/velobus/src/store.rs:114-143` | Refusals, poisoning, append and commit come to the abstract publish, for every fault of the file; in memory and on disk taken exactly when not poisoned, fitting and written, and then the events grow by exactly the records |
| `Store.PublishDecides` | `crates/velobus/src/store.rs:114-143` | In either mode a publish returns a receipt exactly when the store is not poisoned, the history and the sequence range have room and, on disk, the log budget has room and the file takes the frame; then the log grows by exactly the records under the receipt's numbers; otherwise it stays and the code says which of these failed |
| `Store.PublishWrites` | `crates/velobus/src/wal.rs:148-187` | A publish leaves a prefix of its frame behind the file, all of it and synced if it was taken, and nothing if it was refused for capacity |
| `StartUp.OpenDecides` | `crates/velobus/src/wal.rs:49-146` | Start-up accepts exactly the files within the budget that hold the magic, a lawful log and at most a torn frame; a file over the budget or lawful up to a batch beyond the retained budget is CAPACITY, every other, a wrong magic first, STORAGE |
| `StartUp.OpenAccepts` | `crates/velobus/src/wal.rs:49-146` | What start-up recovers from an accepted file is exactly its log, and what it leaves is exactly the log's bytes, synced if it had to cut |
| `Store.Store.AppendFrame` | `crates/velobus/src/wal.rs:168-187` | The frame is built, written and synced as specified; a fault leaves a prefix and no new synced length |
| `Store.Store.Recover` | `crates/velobus/src/wal.rs:49-146` | The start-up loop accepts, truncates and refuses exactly as the abstract replay, error for error |
| `Store.Store.Commit` | `crates/velobus/src/store.rs:101-112` | Events, bytes and numbering grow by exactly the batch |
| `Store.Store.Fetch` | `crates/velobus/src/store.rs:145-211` | A fetch changes nothing but a counter and returns the answer of the log in memory |
| `Recovery.RestartSucceeds` | `crates/velobus/src/wal.rs:49-146` | After any crash the restart succeeds, and finds a prefix of the log in memory or, of a poisoned process only, all of it and one batch more |
| `Recovery.RestartTwice` | `crates/velobus/src/wal.rs:91-141` | Without a crash in between a second restart changes nothing on disk or in memory |
| `Recovery.AcknowledgedSurvives` | `crates/velobus/src/store.rs:114-143` | Over every run of publishes, refusals, faults, crashes and restarts the log an acknowledgement completed is a prefix of the log at every later point |
| `Recovery.RecoveredInSequence` | `crates/velobus/src/store.rs:65-84` | In every state of every run sequence numbers are consecutive, every batch fits a legal frame, and the retained budget holds |
| `Provenance.EveryBatchWasPublished` | `crates/velobus/src/store.rs:114-143` | Over every run and in every state the log is a subsequence of the publishes of the run, acknowledged or failed: each batch was written by a step of its own, in step order, behind the very batches before it |
| `Provenance.RestartFindsTheAttempt` | `crates/velobus/src/wal.rs:91-141` | Over every run a restart finds a prefix of the log in memory, or all of it followed by the batch of the publish that failed in this process and was the last to write |
| `Recovery.DurableGrows` | `crates/velobus/src/wal.rs:168-194` | No step loses a durable batch, and an acknowledgement means the whole log is durable |
| `Recovery.ExtrasAreFailures` | `crates/velobus/src/store.rs:114-143` | Over every run the log never holds more batches than were acknowledged and failed together |
| `Provenance.UnacknowledgedCount` | `crates/velobus/src/store.rs:114-143` | Over every run the unacknowledged batches of the log are exactly those left when every acknowledged publish has taken its own place |
| `Provenance.UnacknowledgedAreFailures` | `crates/velobus/src/store.rs:114-143` | Over every run no more batches of the log are unacknowledged than publishes failed |
| `RecoveryGaps.SecondRestartAgrees` | `crates/velobus/src/wal.rs:49-146` | A second restart after any crash finds the log of the first exactly when the first cut off a torn frame or read only synced bytes |
| `RecoveryGaps.LastsWhenSynced` | `crates/velobus/src/wal.rs:49-146` | The log in memory outlasts every crash exactly when the whole file is synced |
| `RecoveryGaps.CursorLastsWhenDurable` | `crates/velobus/src/store.rs:145-154` | Over every later failure, crash and restart a cursor stays within the log, with the same events before it, exactly when those events are durable now |
| `RecoveryGaps.AtMostOneBeyondDurable` | `crates/velobus/src/store.rs:114-143` | Over all faults of a publish about to be written and all crashes after it, at most one batch beyond the durable ones comes back exactly when the whole file is synced before the publish |
| `RecoveryGaps.TwoBeyondDurable` | `crates/velobus/src/wal.rs:91-141` | A concrete run: after a failed publish in each of two process lifetimes a restart finds two batches beyond those that were durable before the second |
| `RecoveryGaps.AtMostOneUnacknowledged` | `crates/velobus/src/store.rs:114-143` | Over all later faults, cuts and restarts with at most one more failed publish, at most one batch of the log is unacknowledged exactly when every whole frame on file now is an acknowledged batch |
| `RecoveryGaps.TwoUnacknowledged` | `crates/velobus/src/wal.rs:91-141` | A concrete run: a failed publish in each of two process lifetimes leaves two unacknowledged batches, although the whole file was synced before the second |
| `RecoveryGaps.ServedThenGone` | `crates/velobus/src/wal.rs:49-146` | A concrete run: a crash after a restart takes away a batch that restart had found |
| `Protocol.NumberCodec` | `crates/velobus/src/protocol.rs:126-140` | A scalar parses to n exactly when the bytes are its big-endian form |
| `Protocol.StringCodec` | `crates/velobus/src/protocol.rs:141-148` | A string parses exactly when the bytes are its encoding, within the bound and valid UTF-8 |
| `Protocol.TopicCodec` | `crates/velobus/src/protocol.rs:157-173` | A topic parses exactly when it is valid, or the wildcard where allowed |
| `Protocol.RecordCodec` | `crates/velobus/src/protocol.rs:175-196` | The record codec is a bijection between valid records and what the decoder accepts |
| `Protocol.RecordsCodec` | `crates/velobus/src/protocol.rs:175-196` | A batch decodes exactly from its own encoding, so re-encoding a decoded batch gives back the same bytes |
| `Protocol.EncodedSize` | `crates/velobus/src/protocol.rs:308-315` | The encoder's size is the sum the capacity computation uses |
| `Protocol.Reader.DecodeRecords` | `crates/velobus/src/protocol.rs:175-196` | The decoding loop agrees with the parser, error for error |
| `Protocol.Reader.String` | `crates/velobus/src/protocol.rs:141-148` | Reading a string in place agrees with the parser, error for error |
| `Requests.RequestCodec` | `crates/velobus/src/protocol.rs:198-294` | For every opcode and body: a request decodes exactly from the client's encoding of a legal request, and in only one way |
| `Requests.DecodeRequest` | `crates/velobus/src/protocol.rs:198-294` | The decoder returns the request or the error code of the specification for every opcode and body |
| `Malformed.TruncatedIsProtocol` | `crates/velobus/src/protocol.rs:108-168` | Every proper prefix of every request body is a PROTOCOL error, wherever it is cut |
| `Malformed.TrailingIsProtocol` | `crates/velobus/src/protocol.rs:149-154` | A request body with anything behind it is a PROTOCOL error |
| `Malformed.FaultDecides` | `crates/velobus/src/protocol.rs:198-294` | A request laid out in full is taken exactly when all its values are in range, and otherwise gets the code of the first that is not |
| `Requests.FetchCodec` | `packages/client/src/index.ts:433-450` | The fetch body the client lays out is what the broker parses |
| `Requests.CompleteCodec` | `packages/client/src/index.ts:373-380` | The completion body the client lays out is what the broker parses |
| `Requests.CallCodec` | `packages/client/src/index.ts:229-247` | The call body the client lays out is what the broker parses |
| `Frames.ChunkingIrrelevant` | `packages/client/src/protocol.ts:76-109` | However a stream is cut, the same frames come out, the same bytes stay unfinished, and a failure comes in the chunk that completes the impossible length |
| `Frames.EnvelopesRoundTrip` | `packages/client/src/protocol.ts:111-119` | Any concatenation of envelopes decodes to exactly the opcodes, ids and bodies that went in |
| `Frames.FailureStays` | `packages/client/src/protocol.ts:82-96` | Later bytes never move the point of failure |
| `Frames.FrameDecoder.Push` | `packages/client/src/protocol.ts:82-108` | The two-buffer loop emits, keeps and fails exactly as a one-shot reading of the held bytes and the chunk, and ends |
| `Frames.ReadEnvelope` | `crates/velobus/src/protocol.rs:317-324` | An envelope reads back as one frame and leaves the rest of the stream |
| `FetchResponse.Encode` | `crates/velobus/src/store.rs:29-47` | The encoder's loop writes exactly the page |
| `FetchResponse.Receive` | `packages/client/src/index.ts:450-479` | The client's parser returns a page exactly when the bytes are that page's encoding and it passes every check |
| `FetchResponse.ReceiveEvents` | `packages/client/src/index.ts:458-476` | The loop with its key set accepts exactly the event lists that are in order, on topic and unique by identity |
| `FetchResponse.PagePasses` | `packages/client/src/index.ts:450-479` | Every page a fetch returns passes cursor, progress, count, byte, sequence, topic and identity checks |
| `FetchResponse.PageRoundTrip` | `packages/client/src/index.ts:450-479` | The client reads the broker's page back as exactly its cursor and events |
| `FetchResponse.IdentityInjective` | `packages/client/src/index.ts:469-473` | For valid topics the identity text tells apart exactly the different pairs of topic and key |
| `Responses.ResponseReadable` | `crates/velobus/src/main.rs:267-279` | Every response is one legal frame under the request's id; one too long becomes a LIMIT error the client can read |
| `Responses.FetchDelivered` | `crates/velobus/src/main.rs:267-279` | From page to socket bytes to page, a fetch arrives unchanged |
| `Responses.ReceiptNamesItsEvents` | `packages/client/src/index.ts:419-430` | A receipt passes the client's checks and names exactly the events the publish added |
| `Responses.ReceiptExact` | `packages/client/src/index.ts:419-430` | The client takes a receipt exactly if it is the encoding of a sound one for as many records as it sent |
| `Responses.ReceiptLasts` | `crates/velobus/src/store.rs:114-143` | Over every run the numbers of a receipt name the same events at every later point, across crashes and restarts, and no cursor up to its last number is ever refused as beyond the log |
| `Responses.TakeReads` | `packages/client/src/index.ts:358-371` | The worker reads every legal reply to a TAKE back as exactly that job, or as none |
| `Responses.TakeExact` | `packages/client/src/index.ts:358-371` | The worker takes a reply to a TAKE exactly if it encodes none or a job with a real id, at most 30000 ms and a payload within the limit |
| `ClientRequests.ErrorBodyReads` | `crates/velobus/src/protocol.rs:326-330` | The broker's error body carries its code to the client |
| `ClientRequests.ErrorCodeExact` | `packages/client/src/index.ts:577-586` | The client reads a code exactly from the bodies that carry a code 1..12 and a valid message |
| `Cluster.Choose` | `packages/client/src/cluster.ts:229-237` | The chosen node is connected, untried, has a free slot and the fewest pending, the first of those from the cursor; none only if there is none |
| `ClusterRuns.NeverReplays` | `packages/client/src/cluster.ts:238-273` | Under every interleaving each node is tried at most once, every attempt but the last ended in code 8 or 9, and attempt timeouts never grow nor exceed the original |
| `ClusterRuns.BeginDecides` | `packages/client/src/cluster.ts:238-247` | A new request has tried nothing and has exactly the whole time its caller gave |
| `ClusterRuns.TryDecides` | `packages/client/src/cluster.ts:248-271` | A turn of the request's loop starts an attempt exactly when some untried node is connected with a free slot and time is left, on the best such node with exactly the time left; otherwise the request ends as too late, with its last refusal, as refused locally or as unavailable, each exactly when due |
| `ClusterRuns.ResumeDecides` | `packages/client/src/cluster.ts:257-268` | Exactly a reply is an answer, exactly a lost connection is an uncertain result and retires its client, exactly codes 8 and 9 go on to another node, and every other error is final |
| `ClusterRuns.CountsHold` | `packages/client/src/cluster.ts:211-273` | A node's count is exactly its operations in flight, within 0..32, and bounds its client's own table, so pool traffic never meets that client's own backpressure |
| `ClusterRuns.CountsReturn` | `packages/client/src/cluster.ts:211-273` | With no attempt and no health check out, every count is back to zero |
| `ClusterRuns.StepInv` | `packages/client/src/cluster.ts:186-273` | Every step of requests, pings, replies, failures and reconnects keeps all of this |
| `EndToEnd.AcceptedAtMostOnce` | `packages/client/src/cluster.ts:238-273` | Over every run of the pool and any number of broker processes that come and go, at most one process accepts a request, at most once: every attempt but the last was refused before anything was accepted |
| `EndToEnd.DispatchedAtMostOnce` | `crates/velobus/src/rpc.rs:323-367` | In all broker processes together at most one step ever hands a given request of the pool to a worker |
| `EndToEnd.DispatchedWithinTime` | `packages/client/src/cluster.ts:250-258` | Whichever broker a request ends up on, the worker is told at most the time the caller gave for all attempts together |
| `EndToEnd.VerdictIsTrue` | `packages/client/src/cluster.ts:238-273` | A request that ended as refused, too late or never sent was refused by every broker it tried and is never handed out, at any later point of the run; one that returned an answer was accepted by its last broker, whose one reply is a success |
| `EndToEnd.StepInv` | `packages/client/src/cluster.ts:186-273` | Every step of pool, brokers and frames keeps what the outcomes of attempts say true of what the brokers did |
| `ServerAdmission.NeverSpurious` | `crates/velobus/src/main.rs:401-434` | For every interleaving of reader, operations, writer and a client with at most 32 unanswered requests, the loop never finds a duplicate id and never lacks a permit |
| `ServerAdmission.StepInv` | `crates/velobus/src/main.rs:291-310` | Each micro-step keeps every unanswered request in exactly one place, and ids and permits exactly those in use |
| `Gate.RunKeepsInv` | `packages/client/src/cluster.ts:45-75` | In every state of every run: active permits are those granted and not released and within the limit, waiters within their bound, nobody waits beside a free permit, every acquire is granted, rejected or waiting, and no grant overtakes an older waiter |
| `Gate.ReleaseTwice` | `packages/client/src/cluster.ts:63-74` | Two releases in a row have the effect of one |
| `Gate.ReleasedForGood` | `packages/client/src/cluster.ts:63-74` | Over every run, once a permit is released another release of it changes nothing, whatever happened in between |
| `Gate.StepHistory` | `packages/client/src/cluster.ts:45-75` | Steps only extend the list of grants, which is in ticket order |
| `Gate.RejectedWaiterAborted` | `packages/client/src/cluster.ts:55-74` | A waiter is turned away only because its own signal fired |
| `Gate.GrantedNotAborted` | `packages/client/src/cluster.ts:55-74` | A permit goes only to an acquire whose signal has not fired |
| `Gate.AbortedNeverGranted` | `packages/client/src/cluster.ts:55-74` | Over every run a waiter whose signal has fired never gets a permit |
| `Gate.HandlerGate.Acquire` | `packages/client/src/cluster.ts:49-62` | Keeps the invariant; granted at once exactly when the signal has not fired and fewer permits than the limit are outstanding, and then nobody waits; turned away at once exactly when the signal has fired or the permits and the queue are both full; otherwise last in the queue |
| `Gate.HandlerGate.Release` | `packages/client/src/cluster.ts:63-74` | The closure's loop does the abstract release, keeps the invariant, only extends the grants, and leaves nobody waiting beside a free permit |
| `Gate.HandlerGate.Listen` | `packages/client/src/cluster.ts:57-57` | Takes out exactly its own waiter, leaves all others waiting, and keeps the invariant |
| `ClientRequests.FindId` | `packages/client/src/index.ts:546-550` | The wrap-around search ends with the first free id, which is never 0 |
| `ClientRequests.Pigeonhole` | `packages/client/src/index.ts:546-550` | More ids in a row than are pending cannot all be pending |
| `ClientRequests.SettledOnce` | `packages/client/src/index.ts:546-609` | Over any run a request once settled keeps its outcome, is pending under one id until then, and is settled when the connection has failed |
| `ClientRequests.StepFair` | `packages/client/src/index.ts:569-609` | A reply settles only the request whose own id and opcode it carries, an error only the one under its id, and only a failure loses requests |
| `ClientRequests.ReceiveDecides` | `packages/client/src/index.ts:569-593` | On an open connection a good reply settles exactly its request with that reply, a readable error settles exactly its request with that code, and a frame closes the connection, losing all that is pending, exactly when it is neither |
| `ClientRequests.SendDecides` | `packages/client/src/index.ts:541-560` | A send is refused exactly on a closed connection, with a full table or for a body too large; otherwise the request is pending under the first free id unless the socket threw |
| `ClientRequests.Client.Send` | `packages/client/src/index.ts:541-560` | The method does the abstract send, accepts exactly when open, not full and fitting, and keeps the table's invariant |
| `ClientRequests.Client.Receive` | `packages/client/src/index.ts:569-593` | Frame matching, error reading and settlement are the abstract step: a good reply or readable error settles exactly its request, everything else closes the connection; the invariant and every earlier outcome are kept |
| `ClientRequests.Client.Fail` | `packages/client/src/index.ts:595-609` | Keeps the invariant; afterwards nothing is pending and every request ever made is settled, as before if it was and as lost otherwise |
| `HandlerError.HandlerErrorBytes` | `packages/client/src/index.ts:621-629` | For every message: valid UTF-8, the whole encoding if it fits, otherwise its longest valid prefix of at most 4096 bytes, at most 3 short |
| `HandlerError.CompletionBody` | `crates/velobus/src/protocol.rs:271-291` | The broker's decoder takes the completion that carries any message's bytes |
| `HandlerError.EncodeIsValid` | `packages/client/src/index.ts:621-624` | Encoding any string, lone surrogates included, gives valid UTF-8 |
| `HandlerError.CutIsValid` | `packages/client/src/index.ts:625-628` | Valid UTF-8 may be cut before a byte exactly when that byte is no continuation byte |
| `Histogram.LatencyHistogram.AtPercentile` | `scripts/benchmarks/metrics.mjs:37-48` | Against the true nearest-rank sample s: no value iff nothing was recorded or s is above the range; otherwise an upper bound, exact at zero, within the floor, and within the relative precision above it |
| `Histogram.LatencyHistogram.Record` | `scripts/benchmarks/metrics.mjs:20-35` | A value is refused or recorded once, and the buckets up to each bound keep holding exactly the samples at most that bound |
| `Histogram.LatencyHistogram.FindBucket` | `scripts/benchmarks/metrics.mjs:28-33` | The binary search finds the first bound that reaches the value |
| `Histogram.LatencyHistogram.BuildBounds` | `scripts/benchmarks/metrics.mjs:10-11` | The bounds loop ends, with strictly rising bounds that grow by at most the relative precision and end at the maximum |
| `Histogram.RankByCount` | `scripts/benchmarks/metrics.mjs:37-48` | At least `rank` samples are at most v exactly when the nearest-rank sample is |

## Left out

- Sockets, timers, task spawning, signals and process start-up: only the steps they trigger are here.
- The memory mode of the store has no recovery to speak of; its publish and fetch are in `Store.dfy`.
- Real file I/O, file locks and directory syncs, and a crash inside the file's first eight bytes, which is a start-up error (`crates/velobus/src/wal.rs:86-90`).
- A file system that reorders or corrupts unsynced bytes: a crash only ever cuts the file.
- CRC-32 itself, constant-time token comparison, HELLO policy and command-line parsing.
- Statistics text and its validation, and telemetry counters.
- The 64-bit wrap-around of byte totals: all totals are bounded by budgets far below it.
- `Cluster.Choose`: takes the pool as a value, because the pool's steps are a machine over values and the method only reads it.
- The cluster client's aggregate request bound, connection backoff with jitter, service attachment and close.
- The client's write queue and socket backpressure: a send either reaches the socket or fails the connection.
- `ClientRequests.Client.Receive`: whether a request's own parser takes a body is an argument; the fetch, receipt and TAKE parsers are modelled in `FetchResponse.dfy` and `Responses.dfy`.
- `FetchResponse.Receive`: identities are compared as bytes rather than decoded strings, which are equal exactly when their bytes are; the reader's error codes stand in for the client's single error class.
- `Frames.FrameDecoder.Push`: a callback that throws out of the middle of a chunk is not modelled; the connection is closed then.
- `ServerAdmission.NeverSpurious`: the closing of a connection after a protocol error ends the run and is not a step.
- `Histogram.LatencyHistogram.AtPercentile`: over the reals, without floating-point rounding.
- `EndToEnd.DispatchedAtMostOnce`: which broker connection a frame arrives on, and the route and payload in it, are left open.
- `ClusterRuns.NeverReplays`: deadlines and the time left are reals, without the rounding of the client's floating-point clock.
- The open-loop schedule, resource sampling, benchmark runners, examples and packaging scripts.
- Fairness between workers and progress that depends on the runtime's own scheduler.
