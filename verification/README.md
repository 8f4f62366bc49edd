# A verified model of the uAMQP client layer

uAMQP is a Python client for AMQP 1.0 built over a C library. This project models the logic above that
library and proves what it guarantees over every input, every run and every interleaving. Each module
follows one component; nothing here runs the original program.

* **Send engine** (`SendEngine`, `SendTheorems`, `SendCounts`, `SendProgress`, `SendClients`,
  `ErrorPolicies`). The queue of a
  `SendClient`, its filter passes, completion callbacks, retries and deadlines, as a transition system.
  The sender and the service are an environment that may accept or refuse any transfer and complete any
  accepted one once, with any result. A pass is broken at its one suspension point, so the runs include
  every interleaving of the asynchronous client. The class `SendClient` records its run and is proved to
  follow the engine, so the theorems about runs hold of it.
* **Batch splitter** (`BatchSplitter`). Greedy packing of encoded items into messages: conservation,
  size limits, optimality, and the single-message form.
* **CBS token machine** (`CbsToken`). The status machine and the poll that drives it, with a clock that
  never goes back and completions that arrive later.
* **Connection lock** (`ConnectionLock`). Lock, guarded work and release in a `finally`, for any number
  of threads.
* **Receive side** (`Settlement`, `ReceiveRuns`, `ReceiveClients`). The FIFO queue, the batch and generator
  loops, at-most-once settlement, and what auto_complete settles in a whole run. The class
  `ReceiveClient` records its run, so the theorems about receive runs hold of it.
* **Codec** (`MessageCodec`, `Values`). Section order, size sum and decoder fold over an abstract
  self-delimiting section codec; and the conversion of Python values to AMQP values and back.

Properties that turned out not to hold everywhere are stated with the exact condition under which they
do, and with an input or a run that shows the failure:

* an empty item that arrives while the open body is over the limit is dropped by the splitter
  (`SectionsConserved`, `EmptyItemLost`);
* data that restarts when iterated again, such as a list, is split only if it fits in one message
  (`RestartingEndsIffOneMessage`);
* a policy hook that grants retries without charging them makes attempts, and the iterations of `wait`,
  unbounded (`AttemptsBoundedIffCharging`, `EmptiesIffCharging`);
* a release after a timed-out acquire can free another thread's lock (`ExclusionIff`, `AtMostOneIff`,
  `AnyNumberInside`);
* for a client made with auto_complete on, a batch may hold messages that were never settled: those that
  arrived while a generator, since closed, had switched auto_complete off (`MessageSettledIff`,
  `BatchSettledAtCall`, `BrokenGenerator`);
* a generator that outlives the one it was begun inside leaves auto_complete off for good, and later
  batches are unsettled though no generator is open (`FlagRestoredIff`, `LostFlag`);
* a generator begun while another is open finds auto_complete off and never settles what it yields
  (`YieldedSettledIff`, `InnerGenerator`);
* polling a token less often than its refresh window can miss the refresh (`PollGapIsTheWindow`);
* a message without any section encodes to no bytes, which the decoder refuses (`RoundTripMessage`);
* text with NUL, integers wider than 64 bits, tuple keys and keys that collide once encoded do not
  survive the value conversion (`RoundTrip`).

Where the code and its documentation disagree, the model follows the code: a cancelled send counts as
complete; `bytes` become an AMQP string, not a binary; the timeout handed over at the exact deadline is 0,
which the sender documents as no expiry; the batch data is documented as any iterable, but only a one-shot
iterator is split as promised.

## Model

| member | source | states |
|---|---|---|
| `SendEngine.StepKeeps` | uamqp/client.py:536-632 | every step of sender, service, clock, queueing or pass keeps: lists hold known messages, each message is queued once, it waits for an ack iff exactly one transfer of it is outstanding or being handed over, and on_send_complete has run exactly once for each message that is done; done is final |
| `SendEngine.OrderedKept` | uamqp/client.py:610-632 | every step keeps the messages that are not done held exactly once and in queueing order |
| `SendEngine.EveryRun` | uamqp/async_ops/client_async.py:530-566 | all of the above holds at the end of every run, whatever interleaves at the await of a transfer |
| `SendTheorems.NoMessageLost` | uamqp/async_ops/client_async.py:530-566 | in every run, at every interleaving point, a queued message not done is in what the pass has kept or in the part not passed yet, in order; if nothing is held, all queued messages are done |
| `SendTheorems.LeavesOnlyWhenDone` | uamqp/client.py:612-632 | across any step of any run, a held message stays held or is done |
| `SendTheorems.SnapshotDone` | uamqp/client.py:747-776 | whatever was pending at one point of a run is done at any later point where the client rests with nothing pending |
| `SendTheorems.OneTransferPerMessage` | uamqp/client.py:604-631 | no message ever has two outstanding transfers; outside the transfer call it waits for an ack iff it has exactly one |
| `SendTheorems.NotifiedWhenDone` | uamqp/client.py:568-592 | a step runs on_send_complete at most once, exactly for the message it makes done; never on a retry |
| `SendTheorems.CompleteIffConfirmed` | uamqp/client.py:582-592 | in every run a message is SendComplete iff the sender reported one of its transfers as ok or cancelled |
| `SendTheorems.FailedIffCondemned` | uamqp/client.py:551-590 | in every run a message is SendFailed iff some step found it past its deadline when visited, reported its transfer timed out, or brought an error that the policy calls final or that left no retry |
| `SendTheorems.SameDeadline` | uamqp/client.py:597-626 | in every run each attempt, retries included, carries a timeout ending at idle_time + msg_timeout; it is 0 exactly at that instant (or when no timeout is configured) |
| `SendTheorems.ZeroAtDeadline` | uamqp/sender.py:230-232 | for every positive msg_timeout, a run that hands a message over at its exact deadline with timeout 0, which the sender documents as no expiry |
| `SendTheorems.ChargedAlways` | uamqp/client.py:568-575 | in every run under a charging policy the attempts of a message are exactly its retries while it waits to be sent, and one more once it is in flight or complete (a message that fails past its deadline is not handed over for it); the counter stays within the budget |
| `SendCounts.RetriesCounted` | uamqp/client.py:568-572 | in every run, under any policy, the retry counter of a message is the number of retries charged to it |
| `SendCounts.ExhaustedAfterAll` | uamqp/client.py:568-581 | under a charging policy, an error that would be retried fails a message iff it has been attempted exactly 1 + max(0, max_retries) times, and sends it back to the queue iff fewer |
| `SendCounts.RetriedIff` | uamqp/errors.py:63-98 | in every run an error sends a message back to the queue iff a retry is left and it is a client exception, no state at all, one of eight transient conditions, or an unrecognised one that the hook, if any, would retry; otherwise the message fails |
| `SendCounts.BackoffIsLastSet` | uamqp/client.py:572 | in every run the backoff is what the last retry set, or zero if the client has slept since or no retry was granted |
| `SendCounts.WaitingIffMet` | uamqp/client.py:615-616 | in every run the count of waiting messages is positive iff the last pass met a message in flight, so only then is the sleep put off |
| `SendCounts.IdleSinceQueued` | uamqp/client.py:700 | in every run the deadline of a message counts from the time at which it was queued |
| `SendTheorems.FreeRounds` | uamqp/errors.py:90-93 | with a hook that retries for free, runs with any number of attempts of one message exist |
| `SendTheorems.AttemptsBoundedIffCharging` | uamqp/errors.py:86-98 | each message is attempted at most 1 + max(0, max_retries) times in every run iff the policy never retries or charges every retry; the default policy does |
| `SendTheorems.PotentialStep` | uamqp/client.py:551-590 | the sum of remaining outcomes strictly falls at every completion and refused transfer, and rises only by queueing |
| `SendTheorems.OutcomesBounded` | uamqp/client.py:551-590 | a run holds at most (1 + budget) completions and refusals per message queued |
| `SendProgress.ProgressRun` | uamqp/client.py:610-651 | through any part of a run in which nothing is queued, no message gets an outcome back, and once a pass has begun each message is done, in flight, has used up an outcome, or is still ahead of the pass |
| `SendProgress.PassHandsOver` | uamqp/client.py:610-632 | from any point of any run, whatever is queued or completed meanwhile, once a pass has begun and ended every message that was waiting to be sent is done or has been handed over once more |
| `SendProgress.OutcomesSpent` | uamqp/client.py:754-757 | after k iterations whose transfers are all answered, each message is done or has used up k of its 1 + budget outcomes |
| `SendProgress.EmptiesInBudget` | uamqp/client.py:754-757 | under a charging policy, from any point of any run, answered iterations leave every message done after budget + 1 of them and nothing pending after budget + 2 |
| `SendProgress.NeverEmpties` | uamqp/errors.py:90-93 | with retries for free, any number of answered iterations can leave a message pending |
| `SendProgress.EmptiesIffCharging` | uamqp/client.py:747-757 | budget + 2 answered iterations always leave nothing pending iff the policy never retries or charges every retry |
| `SendClients.SendClient.OnMessageSent` | uamqp/client.py:536-592 | the whole new message, backoff and notification for each result, as the engine's step whose counts, outcomes and backoff the run theorems pin |
| `SendClients.SendClient.QueueMessage` | uamqp/client.py:698-702 | the message is appended, fresh, and the run goes on by a queue step |
| `SendClients.SendClient.RunCallbacks` | uamqp/client.py:643-650 | any completions keep the object on a run of the engine |
| `SendClients.SendClient.OtherCoroutines` | uamqp/async_ops/client_async.py:546 | other coroutines only append to the list being iterated, and the run goes on |
| `SendClients.SendClient.Transfer` | uamqp/client.py:604-608 | a transfer, accepted, refused or interleaved, ends with the message kept unless it is done |
| `SendClients.SendClient.SendOne` | uamqp/client.py:617-631 | a waiting message is marked, timed out or transferred as the engine does |
| `SendClients.SendClient.VisitOne` | uamqp/client.py:612-631 | one turn of the loop is the engine's turn |
| `SendClients.SendClient.FilterPending` | uamqp/client.py:610-632 | the list returned holds, in order, every queued message that is not done, even those appended while the pass was suspended |
| `SendClients.SendClient.ClientRun` | uamqp/client.py:643-651 | an iteration runs a pass: every message that was waiting to be sent is done or handed over once more; the pending list then holds every queued message that is not done, in order; and the client has slept for the backoff due after the pass unless that met a message in flight |
| `SendClients.SendClient.SleepOff` | uamqp/client.py:646-649 | how long it sleeps, and what backoff is left |
| `SendClients.SendClient.Wait` | uamqp/client.py:754-757 | it ends only when a shutdown is seen or nothing is pending, each iteration with an open link runs a pass, and it does end, within budget + 2 iterations, if the policy charges its retries and the service answers the transfers of each iteration |
| `SendClients.SendClient.SendAllMessages` | uamqp/client.py:770-776 | results follow the snapshot in order; if the loop ended without shutdown each is a done state, and so is every message queued meanwhile; it ends under the same condition |
| `BatchSplitter.SectionsConserved` | uamqp/message.py:562-604 | the data sections of the messages, concatenated, are the items in order, each once, iff no empty item arrives while the open body is over the limit |
| `BatchSplitter.EmptyItemLost` | uamqp/message.py:567-569 | a concrete item list that loses its empty item to the truth test |
| `BatchSplitter.EachMessageFits` | uamqp/message.py:562-604 | each message counts within the limit, or holds one section that cannot fit alone, or is empty; for non-empty items, exactly which messages are empty |
| `BatchSplitter.FramingGap` | samples/test_azure_event_hubs_send.py:63 | the wire size of a body exceeds its counted size by exactly 5 bytes a section and 3 more for each section of 256 bytes or over |
| `BatchSplitter.WireOverrun` | uamqp/message.py:590-596 | a message counted within the limit exceeds it on the wire by at most 8 bytes a section, and exactly when its framing does not fit |
| `BatchSplitter.StaysAhead` | uamqp/message.py:562-604 | from any open body, greedy packing needs no more non-empty messages than any split (parts that fit, or one oversized item) whose current part began no later |
| `BatchSplitter.FewestNonEmpty` | uamqp/message.py:562-604 | for all items, oversized and empty ones included, no order-preserving split whose parts fit or are one item has fewer parts than there are non-empty messages |
| `BatchSplitter.NonEmptyIsLoose` | uamqp/message.py:562-604 | for non-empty items the non-empty messages are themselves such a split, so the minimum is attained |
| `BatchSplitter.FewestMessages` | uamqp/message.py:562-604 | no order-preserving split within the limit has fewer messages |
| `BatchSplitter.GreedyIsASplit` | uamqp/message.py:562-604 | when each item fits alone the messages are themselves such a split, so the minimum is attained |
| `BatchSplitter.OverflowSplits` | uamqp/message.py:591-596 | from any open body, one message results iff everything left fits, and then it is the concatenation |
| `BatchSplitter.RestartingEndsIffOneMessage` | uamqp/message.py:563-599 | data that restarts at each `for` is split in finitely many messages iff it fits in one |
| `BatchSplitter.BatchMessage.FillBody` | uamqp/message.py:571-596 | one run of the inner loop yields the first message of the packing, and the carried item and cursor for the rest |
| `BatchSplitter.BatchMessage.MultiMessageGenerator` | uamqp/message.py:562-604 | the loop with its carried item and cursor yields the greedy packing and uses up the iterator |
| `BatchSplitter.BatchMessage.Gather` | uamqp/message.py:616-641 | it succeeds iff the multi-message splitter would yield exactly one message, and gives that message; otherwise the content is too large |
| `CbsToken.StepKeeps` | src/cbs.pyx:94-174 | every poll, callback and tick keeps: one request at most, requests charged to first, retries or refreshes, the expiry in force being that of the token last put, and no jump from Ok to Expired within a window |
| `CbsToken.EveryRun` | src/cbs.pyx:94-174 | all of that holds in every run from a new authenticator |
| `CbsToken.RequestsBounded` | uamqp/authentication/cbs_auth.py:116-148 | at most one put-token outstanding, none in Idle, Ok, RefreshRequired, Expired and Error, one in InProgress and Timeout; the requests accepted, counted where they are accepted, are exactly the first ones, the retries and the refreshes, and number at most 1 + retries + refreshes |
| `CbsToken.AuthorizedMeansUnexpired` | uamqp/authentication/cbs_auth.py:112-157 | on a connection not closing or in error, (False, False) means the token last put was unexpired when the status was read |
| `CbsToken.PollDoes` | uamqp/authentication/cbs_auth.py:112-157 | for every state and every decision of the outside, the outcome of a poll, whether a request is made, with which token and when, and what it is charged to, in terms of the fields and delays alone |
| `CbsToken.TimesOutIff` | src/cbs.pyx:125-145 | in every run a poll during a request reports a timeout iff there is a limit and the request was accepted at least that long ago |
| `CbsToken.StaysAuthorized` | src/cbs.pyx:118-134 | in every run in which the connection is live, tokens are renewed, accepted and confirmed in time, and readings are at most a gap apart that with the request delay fits the window, the token is refreshed whenever needed and no reading ever finds it expired |
| `CbsToken.PollGapIsTheWindow` | src/cbs.pyx:65-67 | with the window of a tenth of the first lifetime, readings at most `gap` apart never go from Ok straight to Expired iff gap is at most the window (or the first token was already expired) |
| `CbsToken.LatePoll` | src/cbs.pyx:119-134 | for any larger gap, a run that jumps |
| `CbsToken.ExpiredIsNeverPut` | src/cbs.pyx:94-101 | an authenticator made with an expired token never sends a request |
| `CbsToken.TokenAuth.Create` | src/cbs.pyx:56-67 | the window is a tenth of the lifetime; creation overflows iff the token expired ten seconds ago or more |
| `CbsToken.TokenAuth.GetStatus` | src/cbs.pyx:111-151 | the new status is the sampled one, and nothing else changes |
| `CbsToken.TokenAuth.Authenticate` | src/cbs.pyx:94-109 | skipped in progress, raised when expired or refused, otherwise a request is outstanding |
| `CbsToken.TokenAuth.Refresh` | src/cbs.pyx:118-123 | the token is replaced before the request, the expiry only after it was accepted |
| `CbsToken.TokenAuth.Handle` | uamqp/authentication/cbs_auth.py:112-157 | a poll extends the object's run by the machine's poll step and does what the fields before it call for: puts, puts again and charges a retry, refreshes with the renewed token and its expiry, waits, times out or raises; at most one request is outstanding, the accepted ones are within the policy, and (False, False) on a live connection means the token last put was unexpired at the reading |
| `CbsToken.TokenAuth.PollOnce` | uamqp/authentication/cbs_auth.py:112-157 | state and outcome for every status and every failure |
| `CbsToken.TokenAuth.OnOpenComplete` | src/cbs.pyx:156-159 | an open failure, and only that, sets the status to Failure, and extends the run |
| `CbsToken.TokenAuth.OnPutTokenComplete` | src/cbs.pyx:167-174 | a completion sets the status to Ok or Error, leaves no request outstanding, and extends the run |
| `ConnectionLock.ExclusionIff` | uamqp/connection.py:190-208 | for any number of threads and any interleaving, at most one thread is inside and the lock is free exactly when none is, throughout a run, iff no release after a timed-out acquire runs while a thread is inside |
| `ConnectionLock.AtMostOneIff` | uamqp/connection.py:190-208 | for any number of threads and any interleaving, at most one thread is ever inside iff none acquires between a stale release that freed a holder and that holder's own release |
| `ConnectionLock.ExclusionWithoutExpiry` | uamqp/connection.py:190-208 | if no timed acquire expires, exclusion holds throughout |
| `ConnectionLock.AnyNumberInside` | uamqp/connection.py:257-277 | with acquires that time out on a held lock, for every n there is a run that ends with n threads inside at once |
| `ConnectionLock.AloneInside` | uamqp/connection.py:257-277 | from acquire to release a thread is the only one inside, unless a stale release freed a holder |
| `ConnectionLock.Connection.Lock` | uamqp/connection.py:190-195 | acquired when the lock is free, timed out when it is still held, amid any steps of other threads |
| `ConnectionLock.Connection.ReleaseLock` | uamqp/connection.py:197-208 | the lock is free afterwards, whoever held it; a free lock is released silently |
| `ConnectionLock.Connection.Work` | uamqp/connection.py:248-264 | raises on a stored error; otherwise the work is done between an acquire and a release of this thread, alone inside at each moment unless a stale release freed a holder; a timeout still releases |
| `Settlement.AtMostOneDisposition` | uamqp/message.py:376-466 | for any arrivals and any calls in any order, a delivery gets no disposition in ReceiveAndDelete and at most one in PeekLock, that of the first call made on it |
| `Settlement.SettledKeeps` | uamqp/message.py:260-265 | a call keeps that law, and returns True iff it is the first one on a delivery in PeekLock |
| `Settlement.ExactlyOneWhenSettled` | uamqp/receiver.py:190-241 | a settled delivery has exactly one disposition in PeekLock and none in ReceiveAndDelete |
| `ReceiveRuns.EveryRunSound` | uamqp/client.py:975-1022 | in every run of arrivals, generators, batches and consumer calls, each delivery is settled by the first call on it, and every message that arrived with auto_complete on is settled |
| `ReceiveRuns.EveryRunHandsOutOnce` | uamqp/client.py:996-1000 | in every run each message is in the queue, in a batch or yielded by a generator, and in one of them only |
| `ReceiveRuns.EveryRunCompletes` | uamqp/client.py:996-1002 | in every run, what a generator that found auto_complete on has yielded and come back from is settled |
| `ReceiveRuns.SilentRun` | uamqp/client.py:985-1003 | when the consumer settles nothing, a message that arrived with auto_complete off is settled by such a generator or never |
| `ReceiveRuns.MessageSettledIff` | uamqp/client.py:975-1022 | in every run a message is settled for every consumer iff it arrived with auto_complete on, or a generator that found it on yielded it and came back, or the mode is ReceiveAndDelete |
| `ReceiveRuns.YieldedSettledIff` | uamqp/client.py:985-1003 | what a closed generator yielded is settled for every consumer iff that generator found auto_complete on, or the message arrived with it on, or the mode is ReceiveAndDelete |
| `ReceiveRuns.BatchSettledIff` | uamqp/client.py:1034-1086 | whatever the flag at the call, a batch is settled for every consumer iff it takes no message that arrived with auto_complete off (or the mode is ReceiveAndDelete) |
| `ReceiveRuns.BatchSettledAtCall` | uamqp/client.py:1034-1086 | the same by what the caller can check before the call: none of the queued messages it will take arrived with auto_complete off, and the flag is on if it takes more than is queued |
| `ReceiveRuns.NoGeneratorNoneOff` | uamqp/client.py:986-1003 | in a run without generators no message arrives with auto_complete off, so the batches of a client made with it on are settled |
| `ReceiveRuns.FlagRestoredIff` | uamqp/client.py:986-1003 | once no generator is open, auto_complete is what the client was made with iff that is off, or no generator begun inside an outer one was ever closed while no outer one was open |
| `ReceiveRuns.BrokenGenerator` | uamqp/client.py:985-1003 | a run with auto_complete on: a generator is closed after the first of two messages, and the next batch returns the second with no disposition sent |
| `ReceiveRuns.LostFlag` | uamqp/client.py:986-1003 | two generators closed in the order they were begun: none is open, no queued message arrived with the flag off, auto_complete is off, and the next batch is unsettled |
| `ReceiveRuns.InnerGenerator` | uamqp/client.py:986-1003 | two properly nested generators: both are closed, auto_complete is on again, and a message the inner one yielded has no disposition |
| `ReceiveClients.ReceiveClient.Settle` | uamqp/message.py:386-391 | a settle call is the link's transition, returning True iff the delivery was not settled |
| `ReceiveClients.ReceiveClient.MessageReceived` | uamqp/client.py:1016-1022 | the message is settled under auto_complete and put last in the queue, nothing lost or reordered |
| `ReceiveClients.ReceiveClient.Drain` | uamqp/client.py:1063-1065 | moves the front of the queue to the batch, in order, until the queue is empty or the batch full |
| `ReceiveClients.ReceiveClient.CheckIdle` | uamqp/client.py:956-972 | the client gives up iff no message came and the last activity was at least the timeout ago, so no message has come for that long; it then shuts down, or forgets the activity; otherwise it notes the time |
| `ReceiveClients.ReceiveClient.DoWork` | uamqp/client.py:393-397 | nothing on a client that is shut down; on an open link messages only go last in the queue, and the idle timeout is reached exactly when it is due |
| `ReceiveClients.ReceiveClient.WaitOnce` | uamqp/client.py:1073-1082 | past the deadline the wait expires without working the connection; otherwise it works it once, and expires if messages were waiting and none came |
| `ReceiveClients.ReceiveClient.FillQueue` | uamqp/client.py:1072-1082 | the inner loop only appends to the queue; it ends with an empty queue only if the client is shut down, has been idle too long or is past the deadline, and otherwise when the queue is full or an iteration brought nothing |
| `ReceiveClients.ReceiveClient.ReceiveMessageBatch` | uamqp/client.py:1052-1086 | an error iff the size exceeds the credit; otherwise the batch continues what was handed out in order, holds at most the size asked for, leaves the queue empty if it is short, is short only with a message that arrived during the call, or because the client is shut down, has been idle for its timeout since the call or is past the timeout given, and the outer loop body ran at most once; it is settled for every consumer iff each message it takes was queued and had arrived with auto_complete on, or arrives with it on; with auto_complete on at the call, iff no message among the first max_batch_size queued had arrived with it off |
| `ReceiveClients.ReceiveClient.FillBatch` | uamqp/client.py:1071-1085 | the outer loop body runs at most once and extends the batch by what it takes, in order |
| `ReceiveClients.ReceiveClient.YieldQueue` | uamqp/client.py:996-1000 | messages are yielded in order; all are settled but the one the generator was closed on |
| `ReceiveClients.ReceiveClient.CloseGenerator` | uamqp/client.py:1001-1003 | the last message yielded is completed, and auto_complete is what the generator found |
| `ReceiveClients.ReceiveClient.MessageGenerator` | uamqp/client.py:985-1003 | what was queued is yielded first, in order, and all that arrives too unless the consumer closes the generator; it finishes only when closed, shut down or idle for the timeout since it began, and restores the auto_complete it found; if that was on, every yielded message is settled, with exactly one disposition each in PeekLock; in any case all it yielded is settled for every consumer iff it found the flag on, or all of it arrived with the flag on, or the mode is ReceiveAndDelete |
| `ReceiveClients.ReceiveClient.ConsumerCode` | uamqp/message.py:376-466 | settle calls between two calls of the client keep the object on its run, and settled messages stay settled |
| `Values.RoundTrip` | uamqp/utils.py:91-143 | `.value` of `data_factory(v)` is the normal form of v (text and byte arrays to bytes, sequences to lists), for every tree, iff its text has no NUL, its integers fit 64 bits, no dictionary key is a tuple and no two keys of a dictionary have one encoding |
| `Values.WrappedRepresents` | uamqp/utils.py:108-143 | in the wrapped value of any tree, at every depth: text and bytes become a string that ends at the first NUL, byte arrays a binary, each integer the smaller of int and long that holds it or else a double, sequences a list item by item, and a map holds only entries of the dictionary and all its keys |
| `Values.LastAssigned` | src/vendor/azure-uamqp-c/src/amqpvalue.c:1527-1620 | of map entries whose keys are equal once encoded, the value assigned last is kept |
| `Values.PyLastAssigned` | src/amqpvalue.pyx:792-799 | of keys that are equal in Python, the getter's dictionary keeps the value assigned last |
| `Values.ScalarsNotRestored` | src/amqpvalue.pyx:235-238 | concrete bytes and an integer that do not come back |
| `Values.TupleKeyRaises` | src/amqpvalue.pyx:792-799 | a tuple key makes the getter raise |
| `Values.CollidingKeys` | src/amqpvalue.pyx:770-772 | text and bytes with one encoding are two keys in Python and one in AMQP |
| `Values.DataFactory` | uamqp/utils.py:108-143 | the recursive loops build exactly the wrapped value the round trip speaks of |
| `Values.GetValue` | src/amqpvalue.pyx:648-674 | the getters compute exactly the unwrapped value, or raise |
| `Values.GetListValue` | src/amqpvalue.pyx:740-746 | the list getter's loop collects the values of all items, or raises if one does |
| `Values.GetMapValue` | src/amqpvalue.pyx:792-799 | the map getter's loop assigns the entries in order to a dictionary, later equal keys replacing |
| `MessageCodec.EncoderOrder` | src/message.pyx:588-678 | the sections written come in the order header, message annotations, properties, application properties, footer, delivery annotations, body, each section of the message once, none twice, and the data in order |
| `MessageCodec.GetEncodedMessageSize` | src/message.pyx:406-683 | the bytes written are those of exactly the message's sections, by rising rank, and the size returned is their length; only a data body without data is refused |
| `MessageCodec.DecodesIff` | src/message.pyx:722-822 | for every sequence of sections in any order, decoding fails iff one is unreadable, there are two value bodies, or a value and a data body; otherwise the last of each other section and all data in order |
| `MessageCodec.ParsesBack` | src/message.pyx:701-719 | the joined encodings parse back to exactly the sections written |
| `MessageCodec.RoundTripMessage` | uamqp/message.py:327-338 | decoding the encoding gives every section and all data back in order, except for the message with no section at all, which the decoder refuses |
| `MessageCodec.MessageDecoder.OnSection` | src/message.pyx:722-822 | one callback updates the message or sets the error that stays |
| `MessageCodec.DecodeMessage` | src/message.pyx:701-719 | feeding the buffer section by section computes the decoding the theorems speak of, malformed and truncated buffers included |

## Left out

- The vendored C library, TLS, SASL, WebSocket and proxy set-up: the sender is an environment and the per-value wire encoding an abstract codec.
- Redirect, which discards queues on purpose, and keyboard interrupts.
- User callbacks and policy hooks that raise, and a receiver that answers a raising callback with a modified disposition.
- Message objects are records in a map keyed by identity, so aliasing of one message object by two queues is not captured; each message is queued once and fresh.
- `send_message` and its error details, closing after sending, and the states of the link; they add only easy members.
- SendClients.SendClient.Wait: runs for a given number of iterations, because the loop may wait for ever when the service does not answer or the link does not open.
- SendClients.SendClient.SendAllMessages: bounded by iterations in the same way; closing the client afterwards is not modelled.
- SendClients.SendClient.RunCallbacks: does not say which transfers complete, because the service decides.
- SendClients.SendClient.ClientRun: the asynchronous client resets its count of waiting messages outside the lock that guards the pass; concurrent iterations that reset the count during another's pass are not modelled.
- ReceiveClients.ReceiveClient.ReceiveMessageBatch: waits for a given number of connection iterations, because the loop may wait for ever; the same holds of MessageGenerator.
- ReceiveClients.ReceiveClient.DoWork: the client is not closed from inside a callback or by another thread while it works.
- Streaming receive, which bypasses the queue.
- BatchSplitter.EachMessageFits: bounds the counted size, because that is what the code compares; `FramingGap` and `WireOverrun` state the difference on the wire. Items come in already encoded; filling in missing application properties is not modelled.
- CbsToken.PollGapIsTheWindow: clock readings are whole seconds and the tenth is exact, because rounding of floating point is not the point; `expires_at` is taken as given.
- ConnectionLock.Connection.Work: sleep, destroy, handle_token and send follow the same pattern and are covered by the steps; `_close` and `do_work` themselves are not modelled.
- Values.RoundTrip: doubles are reals, so rounding, infinities and integers too wide for a double are not modelled; datetimes, already wrapped values and arrays are left out; an unhashable item inside a tuple key is not tracked.
- MessageCodec.GetEncodedMessageSize: the 32-bit truncation of a data section's length and failures of the C library are not modelled.
- MessageCodec.MessageDecoder.OnSection: failures to store a section, which come only from memory exhaustion, are not modelled.
- Malformed delivery states without a condition.
- Management requests, addresses, samples, and the asynchronous copies of the connection and the authenticator.
