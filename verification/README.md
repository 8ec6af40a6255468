# Verification of wire_rpc

`wire_rpc` is an asyncio JSON-RPC 2.0 framework. This project models its components as state
machines and classes whose steps are what a task does between two suspensions, and proves what
they promise for every interleaving: byte budgets, ownership of responses, bounded queues without
lost wakeups, atomic session stores, and framing.

`dafny verify dfyconfig.toml` checks everything.

| file | component |
|---|---|
| `Messages.dfy` | decoded messages and the length of their encoding, for both bundled codecs |
| `BatchBudget.dfy`, `Execution.dfy`, `ExecutionProperties.dfy` | `process`: the per-request failure boundary and the batch loop |
| `WireLaws.dfy` | what replies say member by member, what a client makes of them, which batches run, what the counters count |
| `BatchTolerance.dfy`, `BatchInstances.dfy` | how far a batch's replies may grow when they are encoded again, and batches that go beyond |
| `Client.dfy`, `BatchAgreement.dfy` | the client's check of a batch reply, and that both sides agree |
| `ExpiryHeap.dfy`, `MemoryStore.dfy` | sessions in memory, over a real binary heap of expiry marks |
| `Sessions.dfy`, `SqlStore.dfy`, `RedisStore.dfy`, `SessionRuns.dfy`, `SessionLaws.dfy` | the session table all backends implement; SQL and Redis; whole runs; what each operation promises |
| `PayloadQueue.dfy`, `QueueLaws.dfy` | the bounded receive queue and its one shared event; what `put` and `get` return |
| `HttpOwnership.dfy`, `HttpLaws.dfy`, `HttpTransport.dfy` | the HTTP server transport as a state machine, what each step promises, and its object |
| `Multicast.dfy` | admission: slots, peer counts, peer locks |
| `ClientChannel.dfy`, `ChannelLaws.dfy`, `ChannelVerdicts.dfy` | the client's channel: one exchange at a time, closed for good after a failure; and that real messages are answered and taken as it assumes |
| `Framing.dfy`, `FrameWriting.dfy` | length-prefixed frames: the format, the reader, the writers |
| `Routing.dfy` | flattening of router trees, and the middleware chain of a call |
| `WorkerSlots.dfy` | admission slots handed over to native work on cancellation |

How to read it. Each stateful component has a pure `Next` (or step) function over a `State`, an
`Invariant`, a lemma that every step keeps it, and theorems over every run from the initial state.
The class beside it has the component's fields, and each method's contract says that the whole new
state is the one `Next` gives. The modules named `...Laws` say, apart from those definitions, what
each step and operation does for its caller. What user code does (handlers, callbacks), what arrives and when
something fails or is cancelled are parameters, so a theorem holds for all of it. Time is a
parameter too.

Where the code and the documentation, or the code and an obvious guess, part:

- `docs/protocol.md` says that a batch of only notifications gets no reply. If the server refuses
  the batch as a whole, or one of its methods is invalid, it does reply, though nobody waits: the
  client checks no methods. `BatchAgreement.WaitsIffReplies` says exactly when the two sides agree,
  `RefusedNotificationsAreAnswered` is an instance.
- A batch with a call and an invalid method gets a list with an error without an id, which the
  client rejects, and closes: `BatchAgreement.AcceptedIff`, `InvalidMethodIsRejected` and
  `ClientChannel.InvalidItemBreaksTheChannel`.
- A stray answer nobody waited for is read by a later exchange, which rejects it, or, if it is a
  single error and the exchange a batch, reports it as its own refusal
  (`ClientChannel.StrayTakenForTheBatchsRefusal`). `FirstAnswerIsItsOwn` says exactly when the first
  answer read is the exchange's own, `OwnAnswerIsTaken` when it is taken, and `ChannelVerdicts`
  derives what the channel assumes of answers from the messages.
- The budget counts the bytes of each reply, but a batch's replies are decoded and encoded again. A
  handler that returns bytes of its own can write a response shorter than the codec does, and the
  batch reply can then exceed `max_response_size`. `BatchTolerance.ToleranceIff` says how far replies
  may grow, `BatchInstances.JsonSlackIsReached` and `GrowingReplyOverflows` are real cases.
- Bytes of a handler's own that do not decode make `process` raise after the whole batch has run,
  although its documentation lets no failure escape: `ExecutionProperties.RaisesIff`.
- Replies that fit together may still be replaced, because later items hold back room for a stand-in
  that can be longer than their reply: `BatchInstances.FittingTogetherIsNotEnough`, and
  `BatchBudget.NoneReplacedIff` for the exact condition.
- A multicast listener told to stop, or cancelled, just as it acquires a slot leaves without giving
  the slot back (`Multicast.StopCanKeepASlot`), and so does one whose wait for a request ends in a cancellation or
  an unexpected exception; `SlotIsLostIff` says exactly when. The semaphore is not used again.
- A session rotated to its own key succeeds in the SQL stores and is a collision in the others:
  `SessionRuns.StepsAgree` (the base class always draws a new key).
- If the event loop itself cancels the task of a running worker, the worker runs on without a slot:
  `WorkerSlots.CancelledTaskFreesABusySlot`, and `AbandonedIffStruck` for exactly when.

## Model

| member | source | states |
|---|---|---|
| Messages.JsonListLength | wire_rpc/_execution.py:224 | a printed JSON list is as long as its parts plus one byte per part and one more (two if empty): what the budget charges for list framing |
| Messages.StrSizeBound | wire_rpc/request.py:27 | escaping under section 7 of RFC 8259 lengthens a string at most sixfold, apart from two quotes |
| Messages.IntSizeBound | wire_rpc/request.py:27 | a 64-bit integer id takes at most 20 bytes |
| BatchBudget.SpentPlusHeldFits | wire_rpc/_execution.py:206-221 | loop invariant of the batch budget: bytes spent plus bytes held back for unfinished items never exceed the budget |
| BatchBudget.CollectedCost | wire_rpc/_execution.py:220-221 | the replies collected so far take exactly the bytes deducted from `remaining` |
| BatchBudget.CollectedInOrder | wire_rpc/_execution.py:211-221 | the reply list holds one reply per answered item, each at its item's rank: none lost, repeated or reordered |
| BatchBudget.NoneReplacedIff | wire_rpc/_execution.py:218-219 | no reply is replaced if and only if every prefix of real replies fits beside the later stand-ins |
| BatchInstances.FittingTogetherIsNotEnough | wire_rpc/_execution.py:206-221 | two calls whose responses take 2040 and 38 bytes, as the JSON codec writes them, fit a limit of 2100 together with the list around them, yet the first is replaced (concrete input) |
| Execution.Configure | wire_rpc/app.py:80-91 | any accepted configuration leaves at least 2048 response bytes and never more than the transport takes |
| Execution.ExecutionHost.ProcessOne | wire_rpc/_execution.py:74-142 | one envelope: reply, dispatch and counters as specified, for every outcome of validation, principal lookup and handler |
| Execution.ExecutionHost.RefuseBatch | wire_rpc/_execution.py:145-149 | a refused batch is one null-id error, counted as invalid, and dispatches nothing |
| Execution.ExecutionHost.RunBatch | wire_rpc/_execution.py:208-221 | the loop over `remaining` and `reserved` computes the specified replies, dispatches and counters |
| Execution.ExecutionHost.Process | wire_rpc/_execution.py:159-225 | one message, undecodable, single or batch: the reply, or that a kept reply which does not decode makes it raise; everything dispatched, and counters |
| Execution.ExecutionHost.ProcessBatch | wire_rpc/_execution.py:197-224 | a batch is refused, answered, unanswered or raises, with everything dispatched and counted before it can raise |
| Execution.ExecutionHost.EncodeList | wire_rpc/_execution.py:224 | the loop that decodes the kept replies yields their list, or raises exactly if one does not decode |
| ExecutionProperties.RaisesIff | wire_rpc/_execution.py:214-224 | an unrefused batch loses all its replies if and only if the handler of some call returned a response that does not decode and that fits beside what is spent before it and held back after it |
| ExecutionProperties.UndecodableIff | wire_rpc/_execution.py:112-137 | such a response exists only for a valid call whose handler returned one within the limit |
| ExecutionProperties.EnvelopeMembers | wire_rpc/_execution.py:137 | a response holds its id, the version, and exactly one of a result and an error |
| ExecutionProperties.AnswerFits | wire_rpc/_execution.py:112-137 | the reply to a single request fits the limit for every handler outcome |
| ExecutionProperties.ErrorEnvelopeFits | wire_rpc/app.py:89-91 | every framework error for any acceptable id encodes in at most 2048 bytes, in both codecs |
| ExecutionProperties.FallbackAgrees | wire_rpc/_execution.py:55-70 | the stand-in is absent exactly for the items that get no reply, which are exactly the valid notifications |
| BatchTolerance.BatchFits | wire_rpc/_execution.py:203-224 | the list of an unrefused batch's replies fits the limit if decoding and encoding them again lengthens them by no more than the batch's slack, all together |
| BatchTolerance.ToleranceIff | wire_rpc/_execution.py:203-224 | an unrefused batch with a call in it fits whatever handlers do, as long as replies grow by no more than g all together, if and only if g is at most the slack, which the items and the limits determine before anything runs |
| BatchTolerance.SlackIsPositive | wire_rpc/_execution.py:204 | the n + 8 bytes set aside exceed the list framing by at least 3 in both codecs, so replies that do not grow fit |
| BatchTolerance.ListSizeIs | wire_rpc/_execution.py:224 | the sent list takes its framing, the bytes spent, and what the kept replies gain when encoded again |
| BatchTolerance.MostSpent | wire_rpc/_execution.py:208-221 | what is held back for invalid items after the last call is never spent, beyond their own shorter errors |
| BatchTolerance.InvalidAnswer | wire_rpc/_execution.py:67-95 | the error for any invalid item is no longer than its stand-in, whatever id that keeps |
| BatchTolerance.OneByteTooLong | wire_rpc/_execution.py:208-224 | a last reply that uses up the budget and gains one byte more than the slack makes the list exactly one byte too long |
| BatchInstances.JsonSlackIsReached | wire_rpc/_execution.py:203-224 | every unrefused JSON batch of calls alone has a slack of 7 bytes, and a handler that writes JSON itself, eight times `1e1`, overflows the limit by one byte |
| BatchInstances.GrowingReplyOverflows | wire_rpc/_execution.py:224 | 120 times `1e15`, 4 bytes each as a handler writes them and 18 as the codec does, carry a batch of one call over a limit of 2100 (concrete input) |
| BatchTolerance.EveryReplyFits | wire_rpc/_execution.py:159-225 | whatever arrives and whatever handlers do, every reply fits `max_response_size`, if a batch's replies do not grow by more than its slack when encoded again |
| ExecutionProperties.BatchAnswersEachCallOnce | wire_rpc/_execution.py:212-221 | every item with a reply has it at its own position, its own or its stand-in, and a valid call's carries its id |
| ExecutionProperties.ReplyPositionsIncrease | wire_rpc/_execution.py:212-221 | positions follow item order and their number is the number of replies |
| ExecutionProperties.ReplyBelongsToAnItem | wire_rpc/_execution.py:212-221 | conversely every reply in the list is that of some item |
| ExecutionProperties.BatchDispatchesEachOnce | wire_rpc/_execution.py:212-213 | what an unrefused batch dispatches is its valid items whose dispatch starts, each exactly once, in item order, and nothing else |
| Client.BatchResponse | wire_rpc/client.py:318-339 | the one-pass check with a `seen` set accepts exactly whole-batch errors and bijections between responses and ids |
| Client.IndexById | wire_rpc/client.py:217 | the dictionary finds each response under its own id, given the ids are distinct |
| Client.LineUp | wire_rpc/client.py:217-229 | entry k is taken from the one response with item k's id, None for notifications |
| Client.FinishBatch | wire_rpc/client.py:213-229 | result of a batch for every possible reply: error, whole-batch error, or entries in item order |
| Client.YieldsOnce | wire_rpc/client.py:213-229 | a reply determines the result |
| BatchAgreement.RequestRoundTrip | wire_rpc/client.py:203-207 | what the client sends for an item, the server validates back to the same method, id and parameters |
| BatchAgreement.EnvelopePasses | wire_rpc/client.py:346-365 | every response the server can build for an id passes the client's check for that id, and carries its body into the entry |
| BatchAgreement.RefusalPasses | wire_rpc/client.py:324-328 | the server's whole-batch error passes as one and is not mistaken for a notification |
| BatchAgreement.CallReply | wire_rpc/_execution.py:208-224 | each call of a client batch has its reply at its position in the server's list, with its id |
| BatchAgreement.ReplyIsACalls | wire_rpc/_execution.py:208-224 | each reply in the server's list carries the id of a call of the batch |
| BatchAgreement.RepliesAreExact | wire_rpc/client.py:330-338 | the server's replies to an unrefused batch of valid methods are a bijection with its ids, each well formed |
| BatchAgreement.AnsweredIffWaited | wire_rpc/client.py:208-213 | for an unrefused batch of valid methods the client waits if and only if there is a reply |
| BatchAgreement.WaitsIffReplies | wire_rpc/client.py:208-213 | for every batch the client sends: it waits exactly when the server replies, if and only if the batch holds a call and processing it does not raise, or holds none and is neither refused nor holds an invalid method |
| BatchAgreement.AnsweredIff | wire_rpc/_execution.py:198-224 | a batch is answered if and only if processing it does not raise and it is refused, holds a call, or holds an item with an invalid method |
| BatchAgreement.RaisesForACall | wire_rpc/_execution.py:224 | processing raises only for an unrefused batch with a call in it |
| BatchAgreement.InvalidItem | wire_rpc/_execution.py:55-95 | an item with an invalid method, called or not, gets an error without an id, and a stand-in that keeps its id |
| ExecutionProperties.OwnErrorIsShorter | wire_rpc/_execution.py:67-95 | that error is never longer than the stand-in, in either codec |
| BatchAgreement.InvalidItemsErrorStays | wire_rpc/_execution.py:214-221 | so the budget never replaces it, and the reply list holds an error without an id |
| BatchAgreement.AcceptedIff | wire_rpc/client.py:318-339 | the reply to a batch with a call is accepted if and only if the server refused the whole batch or every method in it is valid |
| BatchAgreement.InvalidMethodIsRejected | wire_rpc/client.py:333-334 | a batch of one call with an empty method is answered and rejected (concrete input) |
| BatchAgreement.RefusedNotificationsAreAnswered | wire_rpc/_execution.py:198-206 | a refused batch of notifications is answered although nobody waits (concrete input) |
| BatchAgreement.OwnEntries | wire_rpc/client.py:217-229 | each entry is what the server's reply to that item carries |
| BatchAgreement.BatchAgreementHolds | wire_rpc/client.py:183-229 | end to end, for every batch with a call and every handler outcome: processing raises exactly if a reply kept for a call does not decode; otherwise a waiting client gets a reply, reports the whole-batch error only if nothing ran, returns one entry per item from that item's own reply if every method is valid, and rejects the reply exactly otherwise |
| WireLaws.CallLaw | wire_rpc/_execution.py:100-137 | on the wire, a valid call whose dispatch failed or never started gets -32000 for a missed deadline, -32001 for denied access, -32002 for a busy peer and -32603 otherwise, with the fixed text and no data; -32603 also for a response over the limit; else what its handler returned |
| WireLaws.ReturnedStands | wire_rpc/_execution.py:112-117 | what the handler returned stands in the response under the call's id: a result, or an error with its code, message and data |
| WireLaws.NoCallLaw | wire_rpc/_execution.py:88-95 | an invalid request gets -32600 without an id, a message that does not decode -32700, a valid notification nothing |
| WireLaws.StandInLaw | wire_rpc/_execution.py:67-70 | a stand-in is an internal error with the item's own id if that is a string or a number, and a null one otherwise |
| WireLaws.ValidIff | wire_rpc/request.py:24-29 | a request is valid exactly if it is a dictionary of version 2.0 with a method of 1 to 255 characters and no id, or a null, short string or 64-bit one |
| WireLaws.RefusalLaw | wire_rpc/_execution.py:197-206 | a refused batch gets one -32600 error without an id, and dispatches nothing |
| WireLaws.RefusedIff | wire_rpc/_execution.py:197-206 | an empty batch and one longer than `max_batch_size` are refused, any other exactly if its stand-ins and n + 8 bytes exceed the limit |
| WireLaws.ValidBatchRuns | wire_rpc/_execution.py:203-206 | a batch of valid requests within `max_batch_size` runs if the limit leaves 2049 bytes a request and 8 |
| WireLaws.EntriesTell | wire_rpc/client.py:217-229 | in the client's result each call's entry is what its handler returned, or the very error of its failure, or an internal error if its reply was too large or displaced; a notification's is nothing |
| WireLaws.TakesWellFormed | wire_rpc/client.py:309-365 | a call takes exactly the well-formed responses to its id, a batch only lists of well-formed responses to ids of its own, and none of them counts as pushed |
| WireLaws.PushedIsNoAnswer | wire_rpc/client.py:341-344 | a pushed notification counts as one and is nobody's answer |
| WireLaws.CountersLaw | wire_rpc/_execution.py:94-141 | what one request adds to each counter |
| WireLaws.CountersMatchReplies | wire_rpc/_execution.py:110-137 | for calls the counters agree with the replies: completed or failed exactly one, timed out only with -32000 on the wire |
| WireLaws.BatchCounters | wire_rpc/_execution.py:208-221 | over a batch every item counts once as invalid, completed or failed, except notifications that succeed |
| WireLaws.MessageCounters | wire_rpc/_execution.py:186-206 | a message that does not decode and a refused batch count as one invalid and nothing else |
| ExpiryHeap.RootIsLeast | wire_rpc/auth/sessions/memory.py:27-28 | the first element of a heap is a least one |
| ExpiryHeap.Push | wire_rpc/auth/sessions/memory.py:46 | heap order is kept and exactly the mark is added |
| ExpiryHeap.Pop | wire_rpc/auth/sessions/memory.py:28 | a least mark leaves, everything else stays, heap order is kept |
| ExpiryHeap.Heapify | wire_rpc/auth/sessions/memory.py:34 | any list becomes a heap of the same elements |
| Sessions.ApplyKeepsCapacity | wire_rpc/auth/sessions/memory.py:42-43 | no operation leaves more than `max_sessions` sessions |
| MemoryStore.DropStep | wire_rpc/auth/sessions/memory.py:28-31 | a stale mark deletes nothing even if its key is in use again, and live sessions keep their marks |
| MemoryStore.InMemorySessionStore.DropExpired | wire_rpc/auth/sessions/memory.py:26-31 | the heap loop removes exactly the sessions with expiry at or before now |
| MemoryStore.InMemorySessionStore.Rebuild | wire_rpc/auth/sessions/memory.py:32-34 | the rebuilt heap has exactly one mark per session, and is paid for by `max_sessions` + 1 pushes |
| MemoryStore.InMemorySessionStore.MarkAll | wire_rpc/auth/sessions/memory.py:33 | exactly one mark per session, each with its session's expiry |
| MemoryStore.InMemorySessionStore.Prune | wire_rpc/auth/sessions/memory.py:24-34 | the table becomes its live part, and at most 2 * `max_sessions` marks remain |
| MemoryStore.InMemorySessionStore.Create | wire_rpc/auth/sessions/memory.py:39-46 | collision before capacity; the session is dated by the second clock reading |
| MemoryStore.InMemorySessionStore.Lookup | wire_rpc/auth/sessions/memory.py:47-49 | finds exactly the live session under the key |
| MemoryStore.InMemorySessionStore.Destroy | wire_rpc/auth/sessions/memory.py:50-52 | removes the session and what has expired, nothing else |
| MemoryStore.InMemorySessionStore.Rotate | wire_rpc/auth/sessions/memory.py:53-62 | the entry moves to the new key with its record and expiry |
| MemoryStore.InMemorySessionStore.Revoke | wire_rpc/auth/sessions/memory.py:63-68 | removes and counts exactly the principal's live sessions |
| MemoryStore.InMemorySessionStore.Execute | wire_rpc/auth/sessions/memory.py:36-70 | every operation steps the table as a plain expiring map does; the heap bounds and rebuild cost bound are kept |
| SqlStore.TableOfOwned | wire_rpc/auth/sessions/postgres.py:70-71 | deleting a principal's rows deletes and counts exactly its sessions of this namespace, no other namespace's rows |
| SqlStore.SqlSessionStore.Insert | wire_rpc/auth/sessions/postgres.py:58-62 | capacity before collision, counted within the namespace |
| SqlStore.SqlSessionStore.Select | wire_rpc/auth/sessions/postgres.py:63-64 | finds exactly the row under the namespace and digest |
| SqlStore.SqlSessionStore.Delete | wire_rpc/auth/sessions/postgres.py:65-66 | deletes exactly that row |
| SqlStore.SqlSessionStore.UpdateDigest | wire_rpc/auth/sessions/postgres.py:67-68 | a row keeps value and expiry under its new digest; a taken digest fails |
| SqlStore.SqlSessionStore.DeleteOwned | wire_rpc/auth/sessions/postgres.py:69-71 | deletes and counts the principal's rows |
| SqlStore.SqlSessionStore.Transaction | wire_rpc/auth/sessions/sqlite.py:87-117 | an operation's transaction steps its namespace as specified; a failure restores everything, expired rows included; other namespaces stay |
| RedisStore.RedisSessionStore.Script | wire_rpc/auth/sessions/redis.py:9-53 | the script steps the paired structures exactly as the plain expiring map and keeps the key sets of hash and sorted set equal |
| RedisStore.RedisSessionStore.DropExpired | wire_rpc/auth/sessions/redis.py:13-15 | the two removals leave exactly the live sessions in both structures |
| RedisStore.RedisSessionStore.Add | wire_rpc/auth/sessions/redis.py:16-21 | collision before capacity; the key enters both structures |
| RedisStore.RedisSessionStore.Fetch | wire_rpc/auth/sessions/redis.py:22-24 | finds exactly the live record |
| RedisStore.RedisSessionStore.Remove | wire_rpc/auth/sessions/redis.py:25-27 | the key leaves both structures |
| RedisStore.RedisSessionStore.Move | wire_rpc/auth/sessions/redis.py:28-38 | rotation keeps the expiry and both structures in step; a record without an expiry is refused untouched |
| RedisStore.RedisSessionStore.RemoveOwned | wire_rpc/auth/sessions/redis.py:39-50 | both structures lose exactly the principal's keys, and their number is returned |
| SessionRuns.StepsAgree | wire_rpc/auth/sessions/sqlite.py:87-117 | every backend answers as the plain table, from equal live sessions to equal live sessions, except exactly for SQL rotating a live key onto itself; error kinds differ only for a creation both full and colliding |
| SessionRuns.RunsAgree | wire_rpc/auth/sessions/memory.py:36-70 | so over every run of operations with a nondecreasing clock, which may advance between the memory store's two readings |
| SessionRuns.Sources | wire_rpc/auth/sessions/memory.py:39-62 | in every backend a stored entry was there before, was just created, or came unchanged from the rotated key |
| SessionRuns.RotationKeepsOneSession | wire_rpc/auth/sessions/_base.py:105-115 | in every reachable state of every backend a created session lives under at most one key of its rotated descendants, with its original record and absolute expiry |
| SessionRuns.RevokedStaysGone | wire_rpc/auth/sessions/_base.py:117-119 | in every backend no descendant of the principal's earlier sessions is ever stored again after a revocation |
| SessionRuns.GoneStaysGone | wire_rpc/auth/sessions/_base.py:100-103 | in every backend a session that was removed or has expired stays gone until something stores its key |
| SessionRuns.OneRotationWins | wire_rpc/auth/sessions/memory.py:53-62 | in every backend competing rotations of a live key to free keys have exactly one winner |
| SessionRuns.RotatesIff | wire_rpc/auth/sessions/_base.py:105-115 | a rotation succeeds if and only if its key is live and its new key free; SQL also takes a session's own key for free |
| SessionRuns.Replay | wire_rpc/auth/sessions/memory.py:24-70 | a run of the real store answers as specified, its heap stays within 2 * `max_sessions` + 1 marks, and rebuilds times (`max_sessions` + 1) is at most the number of operations |
| SessionLaws.CreateLaw | wire_rpc/auth/sessions/memory.py:39-46 | in every backend a session is created exactly if its key is free and fewer than `max_sessions` are live, with its record and a full lifetime, and nothing else changes; the error kinds |
| SessionLaws.GetLaw | wire_rpc/auth/sessions/memory.py:47-49 | `get` finds exactly the live session's record and changes nothing |
| SessionLaws.DestroyLaw | wire_rpc/auth/sessions/memory.py:50-52 | `destroy` leaves nothing under its key and everything else as it was |
| SessionLaws.RotateLaw | wire_rpc/auth/sessions/memory.py:53-62 | `rotate` moves a live session to a free key with record and expiry, fails only on a collision, and changes nothing else |
| SessionLaws.RevokeLaw | wire_rpc/auth/sessions/memory.py:63-68 | `revoke` leaves none of the principal's sessions and all others, and counts the live ones |
| SessionLaws.ExpiredIsForgotten | wire_rpc/auth/sessions/sqlite.py:92-117 | every operation forgets what has expired, except a failed SQL transaction, which leaves all as it was |
| SessionLaws.StoredIsHolder | wire_rpc/auth/sessions/_base.py:53-119 | after any run of any backend the live session under a key is the one last created there or rotated to it, and not since destroyed, rotated away, revoked or expired |
| SessionLaws.GetFindsTheHolder | wire_rpc/auth/sessions/_base.py:74-93 | and `get` returns exactly its record |
| PayloadQueue.AcceptAccounted | wire_rpc/transports/_queue.py:61-66 | adding an item that fits keeps totals, peer counts and all three bounds |
| PayloadQueue.AcceptConserved | wire_rpc/transports/_queue.py:63 | an added item takes the next place in the order of acceptance |
| PayloadQueue.DeliverAccounted | wire_rpc/transports/_queue.py:80-86 | taking an item keeps totals and counts, with no zero count left |
| PayloadQueue.DeliverConserved | wire_rpc/transports/_queue.py:80-88 | the oldest item moves from queued to delivered |
| PayloadQueue.PurgeAccounted | wire_rpc/transports/_queue.py:92-103 | dropping a peer leaves exactly the other peers' totals and counts |
| PayloadQueue.PurgeConserved | wire_rpc/transports/_queue.py:92-103 | dropping a peer keeps the split of accepted items into delivered, queued, dropped and discarded, in order |
| PayloadQueue.ShutConserved | wire_rpc/transports/_queue.py:105-111 | closing discards exactly what was queued |
| PayloadQueue.NotifyKeeps | wire_rpc/transports/_queue.py:67 | setting the event after any change re-establishes that nobody sleeps through a chance |
| PayloadQueue.AttemptKeeps | wire_rpc/transports/_queue.py:58-90 | a pass of `put` or `get` keeps accounting, conservation and the wakeup invariant |
| PayloadQueue.NextKeeps | wire_rpc/transports/_queue.py:47-111 | so does every step of any producer, consumer, cancellation, drop or close |
| PayloadQueue.ReachableInvariant | wire_rpc/transports/_queue.py:47-111 | all of it holds in every reachable state |
| PayloadQueue.NobodySleepsThroughAChance | wire_rpc/transports/_queue.py:58-90 | no parked `get` while an item is queued, no parked `put` while its item fits, nobody parked after `close` |
| PayloadQueue.NothingElseIsLost | wire_rpc/transports/_queue.py:92-111 | an accepted item neither delivered nor queued was queued when its own peer was dropped or the queue closed, and delivery follows acceptance |
| QueueLaws.PutLaw | wire_rpc/transports/_queue.py:47-69 | `put` adds its item, last, exactly if the queue is open and all three bounds, counted from the items, would still hold; it fails if closed, refuses an item over the byte limit, and waits otherwise |
| QueueLaws.GetLaw | wire_rpc/transports/_queue.py:71-90 | `get` returns and removes the oldest item exactly if there is one, fails if closed, and waits otherwise |
| QueueLaws.OthersLaw | wire_rpc/transports/_queue.py:92-111 | no other step adds or delivers anything |
| QueueLaws.ReturnsAreRecorded | wire_rpc/transports/_queue.py:47-90 | over every run the items whose `put` returned are the accepted ones, and those `get` returned are accepted ones in order of acceptance, none twice |
| QueueLaws.WaitersAreKept | wire_rpc/transports/_queue.py:68-69 | a waiting task stays parked or woken, wanting the same, until it runs on or is cancelled |
| QueueLaws.CancelledIsGone | wire_rpc/transports/_queue.py:68-69 | a cancelled task waits no longer, and the queue is as it was |
| QueueLaws.DropLaw | wire_rpc/transports/_queue.py:92-103 | dropping a peer leaves none of its items and all others |
| QueueLaws.CloseLaw | wire_rpc/transports/_queue.py:105-111 | closing empties the queue and wakes everybody |
| QueueLaws.ClosedCallsFail | wire_rpc/transports/_queue.py:59-60 | from then on every call that runs fails |
| PayloadQueue.StepLoses | wire_rpc/transports/_queue.py:47-111 | no step loses an item otherwise, or forgets one that was accepted |
| PayloadQueue.PayloadQueue.TryPut | wire_rpc/transports/_queue.py:58-69 | one pass of the loop of `put` |
| PayloadQueue.PayloadQueue.TryGet | wire_rpc/transports/_queue.py:77-90 | one pass of the loop of `get` |
| PayloadQueue.PayloadQueue.Put | wire_rpc/transports/_queue.py:47-69 | an item larger than the whole budget is refused before anything else |
| PayloadQueue.PayloadQueue.RunOn | wire_rpc/transports/_queue.py:68-69 | a woken task rechecks whatever the flag says by then |
| PayloadQueue.PayloadQueue.RemoveItems | wire_rpc/transports/_queue.py:94-101 | the loop keeps exactly the other peers' items, in order, and subtracts the rest |
| PayloadQueue.PayloadQueue.DropPeerItems | wire_rpc/transports/_queue.py:92-103 | the whole effect of `drop_peer` |
| PayloadQueue.PayloadQueue.CloseQueue | wire_rpc/transports/_queue.py:105-111 | the whole effect of `close` |
| HttpOwnership.CleanupKeeps | wire_rpc/transports/http.py:185-195 | a handler's cleanup, whenever it runs, keeps the books: its body is subtracted exactly if `recv` has not taken it |
| HttpOwnership.EnqueueKeeps | wire_rpc/transports/http.py:168-177 | queueing a body keeps all bounds and the one-entry-per-request order |
| HttpOwnership.RecvKeeps | wire_rpc/transports/http.py:206-219 | a pass of `recv` keeps them, taking only a request never handed out before |
| HttpOwnership.RespondKeeps | wire_rpc/transports/http.py:249-274 | an answer goes to the request handed out last |
| HttpOwnership.ShutKeeps | wire_rpc/transports/http.py:276-288 | closing leaves no open future, nothing queued and nobody to answer |
| HttpOwnership.NextKeeps | wire_rpc/transports/http.py:150-291 | every step of any handler, of `recv`, `send`, `finish_notification` and `close`, with timeouts and cancellations in between, keeps the invariants |
| HttpOwnership.ReachableInvariant | wire_rpc/transports/http.py:150-291 | in every reachable state `queued_bytes` is the exact sum of the queued bodies within its bound, pending requests are within theirs, and answers are owned |
| HttpOwnership.RecvFindsThePrincipal | wire_rpc/transports/http.py:216-217 | the lookup of the taken request's identity never misses |
| HttpOwnership.AnswersGoToTheOwner | wire_rpc/transports/http.py:249-274 | an answer only ever completes the open future of the active request |
| HttpOwnership.HandsOutOnlyUnfinished | wire_rpc/transports/http.py:211-218 | what `recv` returns is the first unfinished request queued, never returned before, with the identity it was queued with |
| HttpOwnership.ResponseOwnership | wire_rpc/transports/http.py:150-291 | an answered request holds exactly the bytes sent right after `recv` handed it out |
| HttpLaws.RecvReturnsItsOwnBody | wire_rpc/transports/http.py:212-217 | over every run the body `recv` returns, and the identity it claims, are those the claimed request's own handler read |
| HttpLaws.RecvOutcomes | wire_rpc/transports/http.py:208-219 | `recv` returns a body exactly if the transport is open and an unfinished request is queued, fails exactly if it is closing, and waits otherwise |
| HttpLaws.RecvRunsIff | wire_rpc/transports/http.py:204-206 | `recv` runs exactly if no other does and no answer is owed |
| HttpLaws.RecvCancelled | wire_rpc/transports/http.py:219-221 | a cancelled `recv` waits no longer, and changes nothing else |
| HttpLaws.ReceiverIsKept | wire_rpc/transports/http.py:178-219 | a waiting `recv` is not forgotten, and is woken once a request is queued |
| HttpLaws.AdmittedIff | wire_rpc/transports/http.py:152-158 | a request is admitted exactly if the transport is open and has room for it |
| HttpLaws.QueuedIff | wire_rpc/transports/http.py:168-178 | its body is queued last, with its identity, exactly if the transport is open and both sizes allow it; otherwise the request is over and leaves no trace |
| HttpLaws.GivenUp | wire_rpc/transports/http.py:179-195 | a handler that gives up, at any point, leaves its future cancelled and, after its cleanup, no book; the others stay |
| HttpLaws.AnswerArrives | wire_rpc/transports/http.py:249-274 | an answer completes the active request if it still waits, and leaves nobody active |
| HttpLaws.RefusedSend | wire_rpc/transports/http.py:264-271 | a body over the limit, a closed transport and a missing owner leave everything as it was |
| HttpLaws.OutcomesAreFinal | wire_rpc/transports/http.py:188-189 | over every run a request's outcome never changes again |
| HttpLaws.CloseFails | wire_rpc/transports/http.py:276-288 | closing fails every waiting request and wakes `recv` |
| HttpLaws.ClosedForGood | wire_rpc/transports/http.py:276-288 | over every run nothing is admitted, queued or handed out after closing, and nobody waits |
| HttpTransport.StillBooked | wire_rpc/transports/http.py:206-219 | futures and identities of queued and active requests are always there |
| HttpTransport.HttpServerTransport.Arrive | wire_rpc/transports/http.py:150-158 | admission reserves a place before anything suspends |
| HttpTransport.HttpServerTransport.BodyRead | wire_rpc/transports/http.py:167-178 | the body is queued, or the request fails and leaves every book |
| HttpTransport.HttpServerTransport.CleanUp | wire_rpc/transports/http.py:185-195 | the whole effect of the handler's `finally` |
| HttpTransport.HttpServerTransport.Receive | wire_rpc/transports/http.py:197-206 | refused while another `recv` runs or an answer is owed |
| HttpTransport.HttpServerTransport.Recv | wire_rpc/transports/http.py:208-219 | one pass of the loop, skipping finished requests and subtracting each body taken |
| HttpTransport.HttpServerTransport.Answer | wire_rpc/transports/http.py:267-274 | the active request's future gets the body unless it is done, and nobody is active any more |
| HttpTransport.HttpServerTransport.Send | wire_rpc/transports/http.py:256-274 | its errors in order, or the answer |
| HttpTransport.HttpServerTransport.FinishNotification | wire_rpc/transports/http.py:249-254 | the empty answer, nothing without an owner |
| HttpTransport.HttpServerTransport.Close | wire_rpc/transports/http.py:276-288 | the loop fails exactly the pending unfinished requests |
| Multicast.AdmitKeeps | wire_rpc/multicast_app.py:304-307 | admission keeps all invariants; a request is busy if and only if any task of its peer is outstanding |
| Multicast.LeaveKeeps | wire_rpc/multicast_app.py:281-287 | a task's cleanup keeps counts, locks and the slot balance |
| Multicast.PhaseKeeps | wire_rpc/multicast_app.py:273-275 | so do taking and giving back the peer's lock |
| Multicast.NextKeeps | wire_rpc/multicast_app.py:266-312 | every step of the listener and of any task keeps the invariants |
| Multicast.ReachableInvariant | wire_rpc/multicast_app.py:266-312 | in every reachable state counts equal outstanding tasks, and free slots, tasks and the listener's slot add up to `max_concurrency` |
| Multicast.HandlersNeverOverlap | wire_rpc/multicast_app.py:273-275 | two handlers of one peer never run at once |
| Multicast.LockIsNeverContended | wire_rpc/multicast_app.py:274 | a task always finds its peer's lock free |
| Multicast.CleanupNeverMisses | wire_rpc/multicast_app.py:282 | the cleanup's lookup always finds the peer's entry |
| Multicast.IdleServerIsClean | wire_rpc/multicast_app.py:281-287 | without tasks there are no peer entries, and all slots are free exactly if the listener holds none |
| Multicast.StopCanKeepASlot | wire_rpc/multicast_app.py:294-298 | a stop racing with an acquisition loses the slot (concrete run) |
| Multicast.SlotIsLostIff | wire_rpc/multicast_app.py:294-303 | after the listener left, a server whose tasks have all run their cleanup has all slots again if and only if the listener was neither stopped nor cancelled just as it acquired one, nor broken off, by a cancellation or an unexpected exception, while it waited for a request; a task cancelled before its first step, which has no cleanup, is not part of it |
| Multicast.ListenerLaw | wire_rpc/multicast_app.py:294-307 | an idle listener takes a free slot, hands it to the received request's task, or gives it back when it leaves |
| Multicast.TasksAdvance | wire_rpc/multicast_app.py:266-287 | in every reachable state an accepted task can take its peer's lock, handle, reply and leave, giving its slot back |
| Multicast.TasksAreLeftAlone | wire_rpc/multicast_app.py:266-312 | nothing but its own steps touches a task |
| Multicast.MulticastApp.Spawn | wire_rpc/multicast_app.py:304-307 | the whole effect of admitting a request |
| Multicast.MulticastApp.ServeFinally | wire_rpc/multicast_app.py:281-287 | the whole effect of the cleanup |
| ClientChannel.TransmitKeeps | wire_rpc/client.py:274-276 | sending, completed or broken off, keeps answers and requests in step |
| ClientChannel.TakeKeeps | wire_rpc/client.py:277-282 | reading a message, accepted, handed on or rejected, keeps them in step |
| ClientChannel.NextKeeps | wire_rpc/client.py:261-289 | so does every step of clients, server and network |
| ClientChannel.ReachableInvariant | wire_rpc/client.py:261-289 | in every reachable state the outstanding answers are in request order, and while open they are one per stray and last the exchange's own |
| ClientChannel.FreeChannelOwesNothing | wire_rpc/client.py:261-289 | when the lock is free and the client open, every answer owed was consumed, except one per one-way request that was answered: refused, or a batch holding an invalid item |
| ClientChannel.FirstAnswerIsItsOwn | wire_rpc/client.py:277-282 | the first answer a waiting exchange reads is its own if and only if no such stray is left |
| ClientChannel.OwnAnswerIsTaken | wire_rpc/client.py:277-282 | without strays the first answer read is the exchange's own; it is taken if and only if the request was served or, for a batch, refused outright, and anything else closes the client |
| ClientChannel.InvalidItemBreaksTheChannel | wire_rpc/client.py:330-334 | a batch holding an invalid item rejects its own answer and closes the client (concrete run) |
| ChannelVerdicts.AnsweredAsTheChannelSays | wire_rpc/_execution.py:159-225 | of the messages themselves: unless processing raises, which it does only for a batch with a call, a call, notification or batch is answered exactly as the channel's verdicts say |
| ChannelVerdicts.TakenAsTheChannelSays | wire_rpc/client.py:309-365 | of the messages themselves: a call or batch takes a reply, its own or another request's, exactly when the channel says so, and takes none for a pushed notification |
| ChannelVerdicts.BatchResponses | wire_rpc/client.py:318-339 | the reply list of an unrefused batch is taken by nobody but that batch, and by it exactly if every method is valid |
| ClientChannel.NothingSentAfterFailure | wire_rpc/client.py:283-289 | from the moment a failed or cancelled exchange starts to abort, nothing is ever sent again |
| ClientChannel.DeadChannelSendsNothing | wire_rpc/client.py:271-272 | nor after a close that finds nothing being sent |
| ClientChannel.GivingUpChangesNothing | wire_rpc/client.py:267-270 | cancelling a mere waiter for the lock leaves every run as if it had never asked |
| ChannelLaws.CloseIsFinal | wire_rpc/client.py:118-122 | over every run, after the user closes the client no request is ever begun, and the server gets nothing more unless one was just being sent |
| ChannelLaws.ClosedForGood | wire_rpc/client.py:271-272 | a closed client stays closed and begins nothing |
| ChannelLaws.EnterLaw | wire_rpc/client.py:270-274 | a task that gets the lock of an open client holds it and begins exactly one request, unless it only listens; of a closed one it begins nothing |
| ChannelLaws.SendsIncrease | wire_rpc/client.py:270-274 | each request is begun once, in the order of the lock |
| ChannelLaws.LockLaw | wire_rpc/client.py:270-289 | the lock passes only from nobody to the task that acquires it, and stays with an aborting exchange until its cleanup is done |
| ChannelLaws.WaitersLaw | wire_rpc/client.py:267-270 | asking puts a task in line, and only getting the lock or giving up takes it out |
| ChannelLaws.SentLaw | wire_rpc/client.py:274-276 | a sent request joins those on their way, last; a one-way exchange is over, any other waits |
| ChannelLaws.ServeLaw | wire_rpc/_execution.py:159-225 | the server takes requests in order and answers each, unless it simply serves a one-way one |
| ChannelLaws.PushLaw | wire_rpc/client.py:277-281 | a pushed notification ends only a listener's wait; a malformed one breaks the channel |
| ChannelLaws.TakenLaw | wire_rpc/client.py:309-339 | a call ends only with its own response, a batch only with its own list or a single error without an id |
| ChannelLaws.ListenerLaw | wire_rpc/client.py:246-259 | a listener takes no answer for a notification |
| ChannelLaws.FailLaw | wire_rpc/client.py:283-289 | a failure, wherever it strikes, closes the client at once and keeps the lock until the cleanup is done |
| ClientChannel.StrayTakenForTheBatchsRefusal | wire_rpc/client.py:324-328 | a batch can take an earlier refused notification's error for its own refusal (concrete run) |
| ClientChannel.Client.EnterExchange | wire_rpc/client.py:270-272 | the lock's new owner checks `closed` before sending anything |
| ClientChannel.Client.AfterSend | wire_rpc/client.py:274-276 | a one-way exchange ends here, any other waits |
| ClientChannel.Client.OnMessage | wire_rpc/client.py:277-289 | a message is handed on, accepted, or breaks the channel |
| ClientChannel.Client.OnFailure | wire_rpc/client.py:283-289 | a failure closes the client before it suspends again |
| ClientChannel.Client.Close | wire_rpc/client.py:118-122 | closing marks the client closed and nothing else |
| Framing.LengthOfPrefix | wire_rpc/transports/tcp/tcp.py:445 | reading back a written length gives the length, up to 2^32 - 1 |
| Framing.PrefixOfLength | wire_rpc/transports/tcp/tcp.py:70 | any four bytes are the prefix of the length they spell |
| Framing.FirstFrame | wire_rpc/transports/tcp/tcp.py:68-75 | a frame is read back whatever follows it |
| Framing.CutFrame | wire_rpc/transports/tcp/tcp.py:68-75 | a frame cut short anywhere is not taken for one |
| Framing.CutStream | wire_rpc/transports/tcp/tcp.py:68-75 | a stream cut anywhere yields its whole frames and nothing else, and shows whether it was cut inside one |
| Framing.RoundTrip | wire_rpc/transports/stdio.py:20-53 | reading gives back exactly the payloads written, in order |
| Framing.ReadsOnlyWhatIsThere | wire_rpc/transports/stdio.py:20-36 | for every stream at all, the frames read encode to a prefix of it, and to all of it exactly if it ends at a boundary |
| Framing.EndingTells | wire_rpc/transports/tcp/tcp.py:68-75 | what is left after the last whole frame tells how reading ends: nothing, a length that is refused, or part of a frame |
| Framing.FrameReader.ReadExactly | wire_rpc/transports/tcp/tcp.py:59-75 | exactly n bytes whatever the chunking, or none |
| Framing.FrameReader.ReadFrame | wire_rpc/transports/tcp/tcp.py:405-421 | one frame of the joined stream; any failure closes, and a closed connection is never read again |
| Framing.FrameReader.ReadAll | wire_rpc/transports/tcp/tcp.py:390-421 | repeated reading takes the frames of the stream independent of chunking, and an interruption only leaves out the last of them |
| FrameWriting.HandKeeps | wire_rpc/transports/stdio.py:39-53 | handing over a frame under the lock appends it whole |
| FrameWriting.PortionMoves | wire_rpc/transports/stdio.py:357-358 | writing any portion of the first chunk neither loses nor repeats bytes |
| FrameWriting.NextKeeps | wire_rpc/transports/stdio.py:39-53 | every step of senders and thread keeps output and queue the frames handed over |
| FrameWriting.ReachableInvariant | wire_rpc/transports/stdio.py:350-362 | in every reachable state output plus queue are the frames handed over, and the output is a prefix of them after a failure |
| FrameWriting.FramesArriveInOrder | wire_rpc/transports/stdio.py:307-362 | under every interleaving of senders, portions, failures and cancellations a reader takes the payloads in lock order, up to the first not out whole |
| FrameWriting.DrainedFramesArrive | wire_rpc/transports/stdio.py:331-337 | once drained without failure, all of them |
| FrameWriting.DrainMeansWritten | wire_rpc/transports/stdio.py:331-337 | a sender is let go only when everything is written, or when a write failed and the channel closes |
| FrameWriting.HandLaw | wire_rpc/transports/stdio.py:45-51 | a sender that gets the lock hands its payload over exactly if the size is right and the channel open, and otherwise changes nothing |
| FrameWriting.WriteLaw | wire_rpc/transports/stdio.py:350-362 | each write puts out just what it took, and nothing after a failure |
| FrameWriting.ReleaseLaw | wire_rpc/transports/stdio.py:47-53 | a drained sender frees the lock, and closes the channel if the write failed; a cancelled holder closes it, recalling nothing; a cancelled waiter leaves nothing behind |
| FrameWriting.ClosingLaw | wire_rpc/transports/stdio.py:342-345 | a closed channel stays closed and takes no more frames |
| FrameWriting.StdoutWriter.WriteChunk | wire_rpc/transports/stdio.py:355-358 | the partial-write loop writes all bytes, or a prefix on failure |
| FrameWriting.StdoutWriter.Run | wire_rpc/transports/stdio.py:350-361 | the thread writes the queue in order, and nothing after a failure |
| Routing.Flatten | wire_rpc/router.py:93-124 | the recursive method with its loops computes the flat table |
| Routing.FlattenLocal | wire_rpc/router.py:110-117 | the loop over local handlers enters each under its full name |
| Routing.FindsTheLast | wire_rpc/router.py:108-124 | the search, children last to first and then local handlers, finds a registration whenever there is one, and then the last in registration order |
| Routing.TableIsSearch | wire_rpc/router.py:93-124 | for every tree and name the table has the entry the search finds, with the middleware from the root down, and none otherwise |
| Routing.CallOrder | wire_rpc/app.py:212-223 | whatever middleware does, calling on not at all, once or many times: each is entered only from inside all before it, the handler runs only inside all of them, and each is left before those around it |
| Routing.HandlerRuns | wire_rpc/app.py:212-223 | if each middleware calls on a fixed number of times, the handler runs their product |
| Routing.SingleCallOrder | wire_rpc/app.py:212-223 | if each calls on at most once, they are entered in order up to the first that does not, the handler runs if and only if all do, and they are left in the opposite order |
| Routing.RoutedCallOrder | wire_rpc/app.py:137-147 | a routed call runs through app middleware, then router middleware from root to leaf, then the handler, whatever the middleware does |
| Routing.RoutedSingleCallOrder | wire_rpc/app.py:137-147 | exactly each once, if each calls on once |
| Routing.App.IncludeRouter | wire_rpc/app.py:137-147 | the three tables become the old ones overridden by the router's flat table, and stay consistent |
| Routing.App.Register | wire_rpc/app.py:124-129 | registering a name overrides its entry in all three tables |
| Routing.App.BuildChain | wire_rpc/app.py:179-223 | the loops build the nested chain, none for an unknown method |
| WorkerSlots.NextKeeps | wire_rpc/auth/credentials/validators.py:98-133 | every step of admission, lookup, worker, cancellation and callback keeps the counter equal to the slots owned |
| WorkerSlots.AdmitKeeps | wire_rpc/auth/credentials/validators.py:98-100 | a slot is granted if and only if fewer than the limit are owned |
| WorkerSlots.SlotsCoverWorkers | wire_rpc/auth/credentials/validators.py:98-133 | in every reachable state the counter is the number of slots owned, within the limit, and covers every running worker but the abandoned ones |
| WorkerSlots.AbandonedIffStruck | wire_rpc/auth/sessions/sqlite.py:71-85 | a worker ever runs without its slot if and only if the task of a running worker is itself cancelled |
| WorkerSlots.WorkersAreBounded | wire_rpc/auth/sessions/sqlite.py:67-85 | unless that happens, at most the limit of native workers run at once, however callers are cancelled |
| WorkerSlots.CancelledTaskFreesABusySlot | wire_rpc/auth/sessions/sqlite.py:71-85 | with that, two can run under a limit of one (concrete run) |
| WorkerSlots.ReleasedOnce | wire_rpc/auth/credentials/validators.py:115-133 | a slot is released at most once, and exactly when it is no longer owned |
| WorkerSlots.NoSlotIsStuck | wire_rpc/auth/credentials/validators.py:106-133 | an operation that owns a slot always has a step that brings it closer to giving it back |
| WorkerSlots.OwnersLaw | wire_rpc/auth/credentials/validators.py:98-133 | who owns a slot after each step: a failed lookup, a resumed caller and a finished callback give theirs back, a cancelled caller only if its worker is done |
| WorkerSlots.Validator.Enter | wire_rpc/auth/credentials/validators.py:98-100 | admitted if and only if fewer than the limit own a slot |
| WorkerSlots.Validator.OnCancelled | wire_rpc/auth/credentials/validators.py:115-133 | the slot stays taken exactly if the worker's task is not done |
| WorkerSlots.Validator.OnFinished | wire_rpc/auth/credentials/validators.py:117-120 | the callback gives the slot back |

## Left out

- JSON and MessagePack parsing, and Pydantic or msgspec conversion beyond the request struct: messages are data with an encoded length; conversion of an integral float to an integer id is not part of the model.
- Converting results to the caller's response type: entries carry the decoded value.
- Middleware that changes a response's id, and an encoder that fails on an error reply, are taken not to occur.
- Cancellation inside `process`: it propagates and no reply is made; access-log lines are not part of the model.
- ExpiryHeap.MoveDown: sinks an element by comparing it with its lesser child; the `heapq` library first sinks to a leaf and then moves up, with the same contract.
- Malformed stored records, unknown session operations and database errors other than a duplicate key.
- PayloadQueue.PayloadQueue.Put: one pass through the loop; that a woken task runs at all is up to the event loop.
- Deadlines as numbers: a timeout is a step that may happen at any suspension.
- HTTP: credential checks before the body is read are part of reading; `get_principal`, origins, login and logout are not modelled.
- Multicast: reaping of finished tasks and the drain at shutdown; a task cancelled before its first step would skip its cleanup and is not modelled.
- ClientChannel: what pushed notifications hold; transports that do not keep answers in order; whether a transport delivers a request whose sending failed is left open.
- Framing: idle and keepalive handling, connection acceptance, and the TCP stream's own buffering of writes.
- Routing.Flatten: a router tree is a value taken when it is included, so routers that include themselves or change afterwards are not modelled; handler signatures are opaque.
- WorkerSlots: what a password check or transaction computes.
- Thread transport, WebSockets, authentication tokens and digests (keys are opaque), connection limits, application startup and shutdown order.
