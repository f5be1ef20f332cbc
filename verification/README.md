# Models of the Clean node server

Proofs about the mechanisms of the server that hold state across calls: writes
into WASM memory, the request worker pool, the durable job queue, the cron
search, the shared-memory channels of the MCP and MySQL bridges, connection
ownership, refresh-token rotation, pagination, the template renderer and the
WebSocket rooms. `dafny verify dfyconfig.toml` checks everything.

Most mechanisms take two or three files: a pure state with one step function for
each callback or store (`Jobs`, `McpStdio`, ...), lemmas over all runs
(`JobsRuns`, `JobsTheorems`, ...) and what a caller observes of each operation
(`JobsOutcomes`, `WasmOutcomes`), and a class with the source's fields whose
methods update them in place and are proved to perform exactly those steps, to
keep the invariant as `Valid()`, and to give their caller what the row below says
(`JobsHost`, `McpStdioHost`, ...). Nondeterminism is in the events: what the
allocator answers, which driver call fails, which timer fires, how two threads
interleave.

What each part assumes of its surroundings is a predicate on events:

- WASM heap (`WasmHeap.Honest`, `WasmRuns.Possible`): malloc returns 0 or a
  pointer at or above `__heap_ptr`, never moves `__heap_ptr` back and never
  changes bytes below it; `ptr + size + 7` is below 2^31; `__heap_ptr` is
  exported; WASM code stores only into blocks it owns. An allocation by WASM code
  moves `__heap_ptr` past its block itself.
- Worker pool: `initialize` has finished, and a worker emits no `error` once its
  slot is restarting (`RequestPool.Enabled`).
- Jobs: ids are fresh, table writes succeed, and jobs are enqueued after the
  store was opened. A crash may come between any two steps, between the claim of a
  job and the start of its handler, and between the cleanup and the recovery of an
  opening; a process may register jobs before it opens the store, as `initialize`
  does.
- Cron: the wall clock is a fixed whole number of minutes ahead of UTC.
  `Number()` is a function parameter.
- MCP channels: text encoding and JSON are parameters. For HTTP,
  `Codec.Faithful` says that parsing undoes encoding and that no proper prefix
  of an encoded object is valid JSON.
- MySQL bridge: publishing, taking a message, checking the number, writing a
  response and the notify after it are one step each.
- MySQL ownership: requests are handled one at a time; each release or destroy
  counts as a disposal even if the call throws.
- JWT: a token verifies when its signature holds and `floor(now / 1000) < exp`;
  `exp` and lifetimes are whole seconds.

## Where the code does not meet the plain statement

Each of these has a lemma with the exact condition, a failing case, or both.

- Concatenation has no bounds check: a non-empty result reads back exactly when
  its block fits the memory (`WasmStrings.ConcatReadsBackExactly`,
  `WasmStrings.ConcatCanOverrun`).
- MCP stdio and HTTP: between the store of READY and its notify the reader can
  take the line, give its token back and wait again; the late notify then wakes
  it on an idle word, and it reads the old line once more. A step keeps the
  protocol if and only if it is no such wake-up (`McpStdio.StepKeeps`,
  `McpHttp.StepKeeps`). A line or request can so be given twice
  (`McpStdio.LineReadTwice`, `McpHttp.RequestGivenTwice`), and the request behind
  it can be lost (`McpHttp.RequestLost`).
- MCP stdio: a close of stdin that comes while no reader waits is never
  announced, and later reads only time out (`McpStdio.CloseAnnouncedIff`,
  `McpStdio.UnannouncedForever`, `McpStdio.DrainedReadsTimeOut`).
- MCP HTTP: the id of a request that does not fit the buffer is lost, and with it
  the token that lets the next request through (`McpHttp.OversizedWedges`,
  `McpHttp.WedgedForever`, `McpHttp.OversizedReached`).
- MySQL ownership: a one-shot execute that resolves to null releases its
  connection and then destroys it (`MysqlPool.OnceKept`).
- MySQL bridge: while numbers fit 32 bits, a step breaks the protocol if and only
  if it ends the wait of a call whose message is untaken or writes a response over
  a later request (`MysqlBridge.StepKeeps`); a later call can then return what was
  computed from something else than its request
  (`MysqlBridge.UntakenReturnsForeign`, `MysqlBridge.TornReturnsForeign`). A late
  notify can wake the next call, which fails though nothing timed out
  (`MysqlBridge.LateNotifyFails`). From request number 2^31 on every call that
  completes fails (`MysqlBridge.Words32Kept`).
- JWT: a token without expiry, or with one more than 30 days away, can be
  replayed. One within 30 days can be rotated a second time, and not a third,
  when the clock passes its expiry between the two readings of a call; the exact
  condition is `JwtRotation.ReplayExactly`, and `JwtRotation.SingleUseIff` for
  all replays whose readings are at most so far apart.
- Pagination: the cursor condition is joined with AND to clause text that may
  hold a top-level OR. Call a row early when it satisfies a part of that OR other
  than the last. Following the cursors ends with every row yielded once if and
  only if no row of the pages before the last is early
  (`Pagination.WalkEndsCompleteIff`); otherwise the walk, of which there is only
  one, yields something else (`Pagination.WalkCompleteIff`) or never ends
  (`Pagination.EndlessWalk`).
- Cron: a search fails from some start exactly unless one of any 366 days in a
  row matches, which a 400-year cycle decides (`Cron.AlwaysFiresIff`). Without
  restricted weekdays that is a date that exists in every year
  (`Cron.AlwaysFires`), without restricted dates any weekday
  (`Cron.AlwaysFiresByWeekday`); with both restricted it can fail although each
  alone would not (`Cron.WeekdayCanMiss`).
- WebSockets: after a stop ids start again from 1, so a late close event can
  evict a new client (`Rooms.ClosesOwnClientIff`, `Rooms.RestartHijacks`).
- Templates: the comment above the renderer says braces with newlines stay
  literal. They do if and only if the trimmed text is no key
  (`Template.BreakKeepsLiteralIff`); around a key the code trims the newlines away
  (`Template.NewlineStillSubstituted`).

## Model

| member | source | states |
|---|---|---|
| `WasmHeap.BumpCoversExactly` | src/wasm/memory.ts:25-35 | the bumped pointer covers the block exactly when it already did or `ptr + size + 7` fits a signed 32-bit integer; a bump is 8-aligned and leaves less than 8 bytes of slack |
| `WasmRuns.HandOutKeeps` | src/wasm/memory.ts:25-35 | whatever an honest allocator did with `__heap_ptr`, after the bump all blocks are disjoint, below the pointer, and unchanged |
| `WasmRuns.WriteKeeps` | src/wasm/memory.ts:254-280 | a bytes write, failed or not, keeps every earlier block and keeps blocks disjoint |
| `WasmRuns.ConcatKeeps` | src/bridge/string.ts:36-71 | so does a concatenation, on all its error paths too |
| `WasmRuns.StoreBlockKeeps` | src/bridge/helpers.ts:169-184 | so does storing a block of words (boxed value or list) without a bounds check of its own |
| `WasmRuns.WriteAllKeeps` | src/bridge/string.ts:218 | so do the consecutive element writes of a split, up to the one that throws |
| `WasmRuns.WasmAllocKeeps` | src/wasm/memory.ts:25-35 | an allocation by WASM code, which no host bump follows and which may leave `__heap_ptr` unaligned, keeps all blocks as well |
| `WasmRuns.RewindKeeps` | src/wasm/memory.ts:390-410 | a scope rewind restores the entry heap pointer and leaves every block from before the scope intact |
| `WasmRuns.ScopeRewinds` | src/wasm/memory.ts:390-410 | a scope that pops leaves the heap pointer and the blocks as they were before it and the memory as its body left it; one whose pop traps leaves all three as the body did |
| `WasmRuns.ScopesLeakNothing` | src/wasm/memory.ts:390-410 | any number of scopes in a row, however nested, ends with the heap pointer and the blocks it began with |
| `WasmRuns.StepKeeps` | src/wasm/memory.ts:198-280 | every host operation, WASM allocation, WASM store, memory growth and (nested) scope keeps all blocks disjoint and readable |
| `WasmRuns.RunKeeps` | src/wasm/memory.ts:198-410 | over every run of those events the blocks handed out stay pairwise disjoint and none is lost |
| `WasmStrings.EarlierStringsReadBack` | src/wasm/memory.ts:95-110 | a string handed out before any run reads back unchanged after it and overlaps no other block |
| `WasmStrings.WriteHolds` | src/wasm/memory.ts:254-280 | a write succeeds exactly when malloc gave a pointer whose block fits the memory, and then reads back what was written |
| `WasmStrings.ConcatOfEmpty` | src/bridge/string.ts:39-47 | two empty inputs give the null pointer and change nothing |
| `WasmStrings.ConcatReadsBackExactly` | src/bridge/string.ts:36-71 | a non-empty concatenation reads back as both inputs exactly when its block fits the memory; inputs are unchanged and the result aliases neither |
| `WasmStrings.ConcatCanOverrun` | src/bridge/string.ts:60-71 | a concatenation whose block is one byte too long for the memory returns a pointer that cannot be read |
| `WasmStrings.AccumulateRebuilds` | src/bridge/string.ts:26-35 | folding concatenation over one-byte fragments rebuilds any byte string |
| `WasmStrings.BoxReadsBack` | src/bridge/helpers.ts:140-185 | a string boxed as Any reads back through the boxed pointer |
| `WasmStrings.SplitReadsBack` | src/bridge/string.ts:212-245 | the list block a split returns decodes to the encoded parts |
| `WasmStrings.SplitJoinsBack` | src/bridge/string.ts:212-245 | the decoded parts are the split of the text, and joining them with the delimiter gives the text |
| `WasmOutcomes.ReadsExactly` | src/wasm/memory.ts:95-110 | a string that is not empty is read exactly when its little-endian length and its bytes stand at a positive pointer within the memory |
| `WasmOutcomes.ReadsOtherwise` | src/wasm/memory.ts:95-110 | empty exactly for null and a zero length, and which error when, for every pointer |
| `WasmOutcomes.ReadAnyMeaning` | src/bridge/helpers.ts:140-155 | null and a zero tag read as empty, any other tag as the string behind the second word |
| `WasmOutcomes.WriteAnswer` | src/wasm/memory.ts:254-280 | the pointer malloc gave, or which error when |
| `WasmOutcomes.ConcatAnswer` | src/bridge/string.ts:36-71 | which error a concatenation gives when, and 0 with nothing changed for two empty strings |
| `WasmOutcomes.BoxAnswer` | src/bridge/helpers.ts:167-185 | a boxed string is made exactly when both of its blocks fit, and is the second pointer malloc gave; otherwise which error when |
| `WasmOutcomes.BoxLayout` | src/bridge/helpers.ts:178-184 | it is laid out as tag 4, the string's pointer and zero |
| `WasmOutcomes.SplitOutcome` | src/bridge/string.ts:212-245 | a split answers exactly when both arguments can be read and every block fits; the list's header is length, capacity, type 3 and zero |
| `WasmOutcomes.SplitFailures` | src/bridge/string.ts:212-232 | an argument that cannot be read fails first with nothing changed, then the first element without a block, then the list |
| `WasmOutcomes.SplitOfTexts` | src/bridge/string.ts:214-218 | splitting a stored text by a stored separator gives a list of its encoded parts in order, which decode and join back to the text |
| `WasmOutcomes.AllocOutcome` | src/bridge/memory-runtime.ts:66-99 | the pointer malloc gave, covered by the heap pointer and apart from every block, or 0 exactly for a size that is not positive or a failed malloc |
| `WasmOutcomes.WrittenReadsBack` | src/wasm/memory.ts:254-280 | a string written by an event reads back after every run that follows |
| `WasmOutcomes.JoinedReadsBack` | src/bridge/string.ts:36-71 | so does the concatenation of two strings |
| `WasmOutcomes.AllocatedStays` | src/bridge/memory-runtime.ts:66-99 | and an allocated block is still handed out then, apart from all others |
| `WasmOutcomes.BoxedReadsBack` | src/bridge/helpers.ts:140-185 | a boxed string still reads back through the boxed pointer |
| `WasmOutcomes.ListReadsBack` | src/bridge/string.ts:212-245 | a list that a split returned still holds its parts |
| `WasmOutcomes.OwnAllocationStays` | src/wasm/memory.ts:25-35 | a block that WASM code allocated itself stays apart from all others |
| `Bytes.LowByteFirst` | src/wasm/memory.ts:275-275 | a length prefix is stored lowest byte first |
| `Text.JoinUndoesSplit` | src/bridge/string.ts:216 | joining the parts with the separator restores the text, for every text and separator |
| `Text.PartsAreSeparatorFree` | src/bridge/string.ts:216 | no part contains the separator |
| `WasmHost.Instance.Malloc` | src/bridge/string.ts:50-61 | after the call the views are over the buffer, pointer and bytes the allocator left |
| `WasmHost.Instance.BumpHeapPtr` | src/wasm/memory.ts:25-35 | the pointer moves to the aligned end of the block if it was below it, and the block is recorded as handed out |
| `WasmHost.Instance.ReadLengthPrefixedBytes` | src/wasm/memory.ts:95-110 | the bytes after the prefix, empty for null or zero length, an error for a prefix or length out of range |
| `WasmHost.Instance.WriteLengthPrefixedBytes` | src/wasm/memory.ts:254-280 | in place: the world `WriteBytes` describes, error paths included |
| `WasmHost.Instance.ConcatLengthPrefixed` | src/bridge/string.ts:36-71 | in place: the world `Concat` describes, prefixes read before the allocation and bytes copied after it |
| `WasmHost.Instance.StringSplit` | src/bridge/string.ts:212-245 | in place: element writes, list header and element pointers as `SplitString` describes |
| `WasmHost.Instance.BoxStringAsAny` | src/bridge/helpers.ts:167-185 | in place: string, then the three words of the boxed value |
| `WasmHost.Instance.ReadAnyAsString` | src/bridge/helpers.ts:140-155 | what `ReadAny` reads: null pointer and null tag are empty, any other tag is read as a string pointer |
| `WasmHost.Instance.AllocBlock` | src/bridge/memory-runtime.ts:66-99 | a block of the requested size past the bump, 0 for a size that is not positive or a failed malloc |
| `WasmHost.Instance.PerformAll` | src/wasm/memory.ts:390-410 | running the events on the object gives the world of the pure run |
| `WasmHost.Instance.Perform` | src/wasm/memory.ts:390-410 | one event in place; a scope that pops ends with the heap pointer and the blocks it began with |
| `RequestPoolRuns.StepKeeps` | src/workers/request-pool.ts:101-233 | every callback keeps the joint invariant: order, armed timers, placement of unsettled dispatches, free slot implies empty queue |
| `RequestPoolRuns.RunKeeps` | src/workers/request-pool.ts:101-233 | so does every run, and settlements, sent messages and closing are never undone |
| `RequestPoolRuns.NoOvertaking` | src/workers/request-pool.ts:177-222 | over every run ids reach workers in strictly increasing order and every queued id is newer than every sent one |
| `RequestPoolRuns.NoneLost` | src/workers/request-pool.ts:189-233 | each dispatch settles at most once and is never lost: unsettled exactly while its timer is armed, and then queued or in service |
| `RequestPoolRuns.OutcomeTellsIfSent` | src/workers/request-pool.ts:196-217 | a dispatch is refused, shut down or timed out in the queue exactly when no worker ever got it |
| `RequestPoolRuns.StepSettles` | src/workers/request-pool.ts:109-233 | which event settles which dispatch, and with which outcome; every other event leaves it as it is |
| `RequestPoolRuns.OutcomesAreDecided` | src/workers/request-pool.ts:109-233 | over every run a dispatch has an outcome exactly when some event gave it that one: an ok or error response of the worker it was sent to while its timer ran, a crash of that worker, its timer, a full queue, or close |
| `RequestPoolRuns.DispatchOutcome` | src/workers/request-pool.ts:208-220 | a dispatch goes to the lowest free slot, else to the end of the queue while that is shorter than its bound, else nowhere |
| `RequestPoolRuns.QueueBounded` | src/workers/request-pool.ts:212-218 | over every run the queue holds at most `maxQueueSize` dispatches |
| `RequestPoolRuns.TimerOutcome` | src/workers/request-pool.ts:196-206 | a timer takes its dispatch out of the queue, or retires the worker it was sent to |
| `RequestPoolRuns.ResponseMovesOn` | src/workers/request-pool.ts:129-133 | a worker that must restart leaves its slot, any other takes exactly the oldest queued dispatch |
| `RequestPoolRuns.RestartPath` | src/workers/request-pool.ts:145-174 | until close a terminated slot is created anew, and a failed creation is tried once more after a pause |
| `RequestPoolRuns.Closed` | src/workers/request-pool.ts:189-232 | after close nothing is accepted, and at its end no worker is left |
| `RequestPoolRuns.FreshPool` | src/workers/request-pool.ts:55-60 | a fresh pool has one idle worker for each slot |
| `RequestPoolRuns.MayHappen` | src/workers/request-pool.ts:101-233 | which events can come next in a run |
| `RequestPoolRuns.ResponseSettlesItsOwn` | src/workers/request-pool.ts:109-134 | a response settles a dispatch exactly when it carries its id, comes from the worker it was sent to, and the timer of the dispatch is still armed; an ok response resolves it and an error response rejects it |
| `RequestPoolRuns.LateResponse` | src/workers/request-pool.ts:109-134 | a response to a dispatch that timed out settles and sends nothing, in an open or a closed pool; its worker restarts, always so until close |
| `RequestPoolRuns.CrashOutcome` | src/workers/request-pool.ts:136-143 | a crash settles the dispatch the worker was serving and no other, and takes the worker out of its slot |
| `RequestPoolRuns.InstallOutcome` | src/workers/request-pool.ts:158-161 | a new worker takes its slot and exactly the oldest queued dispatch; nothing settles |
| `RequestPoolRuns.CreateFailedOutcome` | src/workers/request-pool.ts:163-174 | a failed replacement touches no dispatch and, until close, no installed worker; it is tried again exactly after a first failure of an open pool |
| `RequestPoolRuns.DrainKeeps` | src/workers/request-pool.ts:177-182 | draining into a worker that has just become idle restores the invariant: no dispatch is lost and no free slot faces a queue |
| `RequestPoolRuns.CountersAddUp` | src/workers/request-pool.ts:235-249 | available plus in use is the number of workers, and a free worker means an empty queue |
| `RequestPoolRuns.RejectAllEffect` | src/workers/request-pool.ts:224-232 | close settles exactly the queued dispatches as shutting down and disarms exactly their timers |
| `RequestPoolHost.RequestWorkerPool.constructor` | src/workers/request-pool.ts:55-60 | a pool whose slots all hold idle workers |
| `RequestPoolHost.RequestWorkerPool.Dispatch` | src/workers/request-pool.ts:189-222 | the next id goes to the first free slot, else to the queue, else is refused; nothing happens when closed |
| `RequestPoolHost.RequestWorkerPool.SpliceFromQueue` | src/workers/request-pool.ts:197-199 | the first queued dispatch with the id is removed, the order of the rest kept |
| `RequestPoolHost.RequestWorkerPool.OnTimer` | src/workers/request-pool.ts:196-206 | a queued dispatch leaves the queue; otherwise the slot serving it retires; either way the dispatch is rejected and the invariant kept |
| `RequestPoolHost.RequestWorkerPool.OnWorkerMessage` | src/workers/request-pool.ts:109-134 | a matching response settles, then restarts or drains; nothing settles but the dispatch that was sent to this very worker, resolved when the response is ok and rejected when it is an error |
| `RequestPoolHost.RequestWorkerPool.HandleWorkerCrash` | src/workers/request-pool.ts:136-143 | the invariant is kept; exactly the dispatch that worker was serving is rejected as crashed, the queue and what was sent stay, and the worker is in no slot any more |
| `RequestPoolHost.RequestWorkerPool.OnSlotCreated` | src/workers/request-pool.ts:158-161 | the invariant is kept; the new worker is in its slot and serves the oldest queued dispatch, or is free when there is none; nothing settles |
| `RequestPoolHost.RequestWorkerPool.OnCreateFailed` | src/workers/request-pool.ts:163-174 | the invariant is kept; the installed workers stay until close, and another attempt follows exactly a first failure of an open pool |
| `RequestPoolHost.RequestWorkerPool.CloseBegin` | src/workers/request-pool.ts:224-230 | queued dispatches are rejected oldest first, the queue is emptied, the pool is closed |
| `JobsRuns.ExponentialDelay` | src/bridge/jobs.ts:66-76 | the exponential delay is min(base * 2^(attempt-1), 24 h) for every natural base and attempt from 1, despite the exponent cap |
| `JobsRuns.LookupsAgree` | src/bridge/jobs.ts:642-676 | status and result read through cache and table equal those of one plain map |
| `JobsRuns.DueIsPoll` | src/bridge/jobs.ts:318-328 | a poll collects distinct due pending jobs, at most the limit, and all of them when below it |
| `JobsRuns.StepRefines` | src/bridge/jobs.ts:273-676 | every step of the cached queue is a step of the plain queue, crashes and openings of the store included, whatever was registered in between |
| `JobsRuns.StartRefines` | src/bridge/jobs.ts:262-312 | opening the store, into an empty or a filled registry, turns every unfinished job into a pending one and drops only finished jobs past the retention |
| `JobsRuns.CrashRefines` | src/bridge/jobs.ts:524-538 | losing the memory of a process loses no job |
| `JobsRuns.PersistRefines` | src/bridge/jobs.ts:213-230 | the write-through of a changed record, which evicts a finished one, is the update of one job in the plain map |
| `JobsRuns.StepShaped` | src/bridge/jobs.ts:342-349 | every step keeps cached jobs in the table and the insertion order free of repetitions |
| `JobsTheorems.RunRefines` | src/bridge/jobs.ts:273-676 | every run of the cached queue, with crashes, registrations and openings in any order, is a run of the plain queue |
| `JobsTheorems.LookupsAgreeOverRuns` | src/bridge/jobs.ts:642-676 | over every run all status and result lookups are those of one plain map of all jobs |
| `JobsTheorems.OverStays` | src/bridge/jobs.ts:330-340 | no step changes a finished job or invokes its handler; it is forgotten exactly by an opening of the store past its retention, complete or cut short by a crash |
| `JobsTheorems.OverForever` | src/bridge/jobs.ts:480-495 | the same over every continuation, for a job cancelled after it was polled as well; the record is there exactly when no such opening happened |
| `JobsTheorems.UnfinishedSurvives` | src/bridge/jobs.ts:273-312 | no step loses an unfinished job; a crash changes nothing about it, or leaves the one attempt whose claim was written; an opening leaves it pending with its arguments and attempts |
| `JobsTheorems.FinishedForever` | src/bridge/jobs.ts:351-381 | after any run that finished or cancelled a job its outcome stays, exactly until an opening past its retention, and its handler never runs again |
| `JobsTheorems.StatusAbsorbing` | src/bridge/jobs.ts:631-676 | a terminal status read through the lookups reads the same whenever the store is open, exactly until an opening past its retention, and not at all from then on |
| `JobsTheorems.HandlerRunsBounded` | src/bridge/jobs.ts:383-478 | over every run of the cached queue with fixed limits a handler runs at most `maxAttempts` times plus once for each crash that interrupted it, and never more often than the attempts in its row |
| `JobsTheorems.RecoveredRecord` | src/bridge/jobs.ts:273-312 | recovery gives a job no handler, limit 3 and a fixed delay of one second, whatever is registered by then, and keeps everything else of its row |
| `JobsTheorems.ClaimTakesRegistration` | src/bridge/jobs.ts:408-439 | claimed without a handler, a job takes the registered configuration and runs under it, or counts as failed when there is nothing to call |
| `JobsTheorems.RecoveryReached` | src/server.ts:218-228 | for every name, configuration and job some run recovers the job while the name is registered already |
| `JobsOutcomes.HandlerOutcome` | src/bridge/jobs.ts:383-478 | over every run, what the lookups answer when a handler ends: the result it gave, else the failure it gave, else for an exception the message or, with attempts left, pending and due after the override, the fixed delay or the doubled one up to 24 hours, else success; no other job changes |
| `JobsOutcomes.EnqueueOutcome` | src/bridge/jobs.ts:596-629 | an enqueued job is pending, due at the time asked for, under the registered configuration, in cache and table |
| `JobsOutcomes.CancelOutcome` | src/bridge/jobs.ts:631-640 | exactly a pending job is cancelled and counts as finished from then on; nothing else changes |
| `JobsOutcomes.RegisterOutcome` | src/bridge/jobs.ts:565-594 | a registration reaches every cached job of its name and none of another |
| `JobsOutcomes.ClaimOutcome` | src/bridge/jobs.ts:330-340 | a claimed job runs with one more attempt and its first start time kept, or counts as failed when its handler is not exported |
| `JobsOutcomes.ClaimWithoutHandler` | src/bridge/jobs.ts:426-429 | without any handler the attempt counts as failed, with the message and the delay of a failure |
| `JobsOutcomes.ClaimStepOutcome` | src/bridge/jobs.ts:480-495 | the tick moves on by one job, and leaves alone one that is no longer pending and every other |
| `JobsOutcomes.TickTakes` | src/bridge/jobs.ts:318-328 | a tick takes at most twenty jobs, all of them due, and every due one when there are fewer |
| `JobsOutcomes.DueInOrder` | src/bridge/jobs.ts:318-328 | it takes them in the order in which they were enqueued and passes over none |
| `JobsOutcomes.StartForgets` | src/bridge/jobs.ts:262-312 | opening the store forgets a job exactly when it finished more than seven days ago, and resets exactly the running rows |
| `JobsOutcomes.CrashOutcome` | src/bridge/jobs.ts:524-538 | a crash leaves the table alone and counts as one interruption of the job whose handler was executing |
| `JobsOutcomes.CrashClaimingOutcome` | src/bridge/jobs.ts:330-340 | a crash before the handler starts leaves the claim in the table and counts nothing else |
| `JobsOutcomes.CrashStartingOutcome` | src/bridge/jobs.ts:506-518 | a crash after the cleanup has forgotten the stale jobs and touched no other |
| `JobsHost.JobQueue.RegisterJob` | src/bridge/jobs.ts:565-594 | the corrected configuration is stored and given to every cached record of the name |
| `JobsHost.JobQueue.UpdateRecords` | src/bridge/jobs.ts:583-591 | exactly the cached records of the name take the new configuration |
| `JobsHost.JobQueue.EnqueueJobAt` | src/bridge/jobs.ts:596-629 | a pending record is cached and inserted, nothing for an unknown name |
| `JobsHost.JobQueue.CancelJob` | src/bridge/jobs.ts:631-640 | cancels exactly pending jobs |
| `JobsHost.JobQueue.PollDueJobs` | src/bridge/jobs.ts:318-328 | the first due jobs in insertion order, at most the limit |
| `JobsHost.JobQueue.ClaimJob` | src/bridge/jobs.ts:330-340 | exactly a job still pending becomes running with one more attempt, in the cache and in the table |
| `JobsHost.JobQueue.ClaimNextJob` | src/bridge/jobs.ts:330-340 | the next polled job is claimed if it is still pending, and its handler looked up and invoked |
| `JobsHost.JobQueue.OnHandlerDone` | src/bridge/jobs.ts:464-478 | what the lookups answer afterwards, in terms of what the handler left: explicit success wins over explicit failure over an exception over silence; other jobs read as before |
| `JobsHost.JobQueue.CleanupStale` | src/bridge/jobs.ts:262-271 | every unfinished row stays, no row changes, and a finished row is gone exactly when its retention is over |
| `JobsHost.JobQueue.RecoverFromDisk` | src/bridge/jobs.ts:273-312 | every unfinished row is loaded as a pending record and no row stays running |
| `JobsHost.JobQueue.StartJobWorker` | src/bridge/jobs.ts:506-522 | the jobs come back from the table alone, pending and without a handler; what was registered before stays |
| `JobsHost.JobQueue.StopJobWorker` | src/bridge/jobs.ts:524-538 | the memory is cleared, the table stays, and the queue is that of a process that is about to start |
| `JobsHost.JobQueue.StopWhileClaiming` | src/bridge/jobs.ts:330-340 | a process that ends between the claim and the handler counts neither an invocation nor an interruption |
| `JobsHost.JobQueue.StopWhileStarting` | src/bridge/jobs.ts:506-518 | a process that ends between cleanup and recovery leaves every unfinished row as it was |
| `JobsHost.JobQueue.GetStatus` | src/bridge/jobs.ts:642-654 | the cache first, then the table, then not found |
| `JobsHost.JobQueue.GetResult` | src/bridge/jobs.ts:656-676 | the result of a succeeded job, the error of a failed one, else empty |
| `Cron.ListFieldMeaning` | src/bridge/schedule.ts:49-66 | a list is rejected exactly when a part is malformed and matches exactly the union of its values and ranges |
| `Cron.StarFieldMeaning` | src/bridge/schedule.ts:43 | a star allows everything |
| `Cron.StepFieldMeaning` | src/bridge/schedule.ts:44-48 | a step is well formed exactly for a positive number and allows exactly its multiples |
| `Cron.SinglePart` | src/bridge/schedule.ts:60-63 | a list part without a dash stands for its number alone |
| `Cron.RangePart` | src/bridge/schedule.ts:53-59 | a part cut at its first dash stands for what lies between its two numbers, which must be in order |
| `Text.WordsUnfold` | src/bridge/schedule.ts:70 | the words of an expression come in order, whatever white space separates them |
| `Cron.ParseField` | src/bridge/schedule.ts:42-67 | star, positive step, or list, as `FieldOf` describes |
| `Cron.CollectParts` | src/bridge/schedule.ts:49-64 | the values of all parts in order, nothing at the first malformed one |
| `Cron.ParseCronFields` | src/bridge/schedule.ts:69-78 | five well-formed words or nothing; the words become minute, hour, day, month and weekday in that order |
| `Cron.NextCronTickMs` | src/bridge/schedule.ts:101-129 | the delay to the least minute after the current one whose minute, hour, day, month and weekday are allowed by the five words in that order; null exactly when the words are not five well-formed ones or no minute of the next 366 days is allowed |
| `Cron.Search` | src/bridge/schedule.ts:105-129 | the scan finds the least matching minute of the window, or proves there is none |
| `Cron.FindsCommonDate` | src/bridge/schedule.ts:109-127 | a minute of a date that exists in every year is met within the window from every start |
| `Cron.AlwaysFires` | src/bridge/schedule.ts:101-129 | with any day of the week, the search succeeds from every start if and only if the fields allow a minute of a date that exists in every year |
| `Cron.FailsAfterLeapDay` | src/bridge/schedule.ts:92-96 | otherwise it fails when started just before the end of a 29th of February |
| `Cron.AlwaysFiresByWeekday` | src/bridge/schedule.ts:101-129 | with any date, the search succeeds from every start if and only if the fields allow a minute of some weekday |
| `Cron.AlwaysFiresIff` | src/bridge/schedule.ts:101-129 | for all fields: the search succeeds from every start if and only if the fields allow a minute of the day and, throughout a 400-year cycle, one of any 366 days in a row |
| `Cron.WeekdayCanMiss` | src/bridge/schedule.ts:109 | with dates and weekdays both restricted it can fail although such dates and such weekdays exist |
| `Cron.WindowIsTight` | src/bridge/schedule.ts:109 | once a year, from the first minute of a leap year, only the last minute of the window matches |
| `Calendar.ComesWithinAYear` | src/bridge/schedule.ts:111-115 | a date that exists in every year comes within 366 days from any day on |
| `Calendar.NoLeapDay` | src/bridge/schedule.ts:111-115 | from the 1st of March of a leap year, 366 days pass without a 29th of February |
| `Calendar.CycleOfDates` | src/bridge/schedule.ts:111-116 | after 400 years dates and weekdays come round again |
| `Calendar.WeekdaysGoRound` | src/bridge/schedule.ts:115 | the 1st of January 1970 was weekday 4, and weekdays follow each other round |
| `Calendar.DatesFollow` | src/bridge/schedule.ts:113-114 | it was the first day, and each date is followed by its calendar successor |
| `McpStdio.StepKeeps` | src/bridge/mcp-stdio-worker.ts:21-58 | a load, store, notify or callback keeps the protocol exactly when it is not a stale wake-up |
| `McpStdio.ControlKept` | src/bridge/mcp-stdio-worker.ts:24-28 | the same for the control part alone: a worker that waits has an empty queue, a woken reader sees a word that is not idle |
| `McpStdio.RunKeeps` | src/bridge/mcp.ts:40-77 | so does every run without a stale wake-up, timed-out reads included |
| `McpStdio.ReadsAreInOrder` | src/bridge/mcp.ts:60-76 | over such runs the non-empty results are those of a prefix of the stdin lines, in order, none lost or repeated; at most one line is underway, the rest queued |
| `McpStdio.OneCreditAlways` | src/bridge/mcp-stdio-worker.ts:52-58 | exactly one credit is in flight, waiting, signalling, unread or about to be posted; waiting implies an empty queue; an unread line is not overwritten |
| `McpStdio.EndOnlyAfterAllLines` | src/bridge/mcp.ts:65-68 | a read reports the end only after stdin closed and every line was returned |
| `McpStdio.CloseAnnouncedIff` | src/bridge/mcp-stdio-worker.ts:41-46 | a close of stdin is announced exactly when the one credit waits in the worker by then |
| `McpStdio.UnannouncedForever` | src/bridge/mcp-stdio-worker.ts:41-46 | a close that was not announced never is: over every run from there, stale wake-ups included, no read reports the end |
| `McpStdio.DrainedReadsTimeOut` | src/bridge/mcp.ts:60-68 | and once the lines are used up every read that returns has timed out |
| `McpStdio.EveryInputCanBeRead` | src/bridge/mcp.ts:40-77 | for every input some run returns all of its lines in order and then reports the end |
| `McpStdio.TimedOutReadLosesNothing` | src/bridge/mcp.ts:61-63 | a line that comes after a read gave up is returned by the next one |
| `McpStdio.StaleWakeRepeats` | src/bridge/mcp.ts:60-76 | after a stale wake-up the read can return the last line once more and leave two credits |
| `McpStdio.LineReadTwice` | src/bridge/mcp-stdio-worker.ts:25-27 | for every line some run has a stale wake-up and returns the line twice |
| `McpStdioHost.SharedChannel.BeginRead` | src/bridge/mcp.ts:44-58 | the first read starts the worker; after any begin exactly one credit is about, and nothing counts as returned |
| `McpStdioHost.SharedChannel.CheckStatus` | src/bridge/mcp.ts:60 | a read that goes on at once finds a line, or an announced end with every line returned |
| `McpStdioHost.SharedChannel.WaitTimedOut` | src/bridge/mcp.ts:61-63 | an empty result that consumes no line and posts no credit |
| `McpStdioHost.SharedChannel.LoadControl` | src/bridge/mcp.ts:65-68 | an empty result only when stdin has ended and every line was returned; otherwise the buffer holds the next unreturned line |
| `McpStdioHost.SharedChannel.CopyNext` | src/bridge/mcp.ts:71 | what has been copied is a prefix of the next unreturned line |
| `McpStdioHost.SharedChannel.ReleaseBuffer` | src/bridge/mcp.ts:73 | the buffer is free again, and the bytes taken from it are the next unreturned line |
| `McpStdioHost.SharedChannel.PostCredit` | src/bridge/mcp.ts:74-76 | the text returned is the next unreturned line |
| `McpStdioHost.SharedChannel.WriteNext` | src/bridge/mcp-stdio-worker.ts:24 | what has been written is a prefix of the next unreturned line, and it fits |
| `McpStdioHost.SharedChannel.StoreReadyWord` | src/bridge/mcp-stdio-worker.ts:26 | the word announces what the buffer holds: the next unreturned line |
| `McpStdioHost.SharedChannel.NotifyReader` | src/bridge/mcp-stdio-worker.ts:27 | the invariant is kept exactly when the wake-up is not stale |
| `McpStdioHost.SharedChannel.OnMessage` | src/bridge/mcp-stdio-worker.ts:52-58 | a credit signals the oldest queued line, or waits when every line so far has been signalled |
| `McpStdioHost.SharedChannel.OnLine` | src/bridge/mcp-stdio-worker.ts:33-39 | the line comes after all earlier ones, signalled or queued, and is queued only when no credit waits |
| `McpStdioHost.SharedChannel.OnClose` | src/bridge/mcp-stdio-worker.ts:41-46 | the end is announced exactly when no credit is on its way or in use, and then every line has been returned |
| `McpHttp.StepKeeps` | src/bridge/mcp-http-worker.ts:36-50 | a step keeps the protocol exactly when it is no stale wake-up and does not parse a request that was cut short |
| `McpHttp.RunKeeps` | src/bridge/mcp-http-worker.ts:36-138 | so does every run whose requests fit and that has no stale wake-up |
| `McpHttp.ServedInOrder` | src/bridge/mcp.ts:131-177 | over such runs requests are given to the program in order of arrival, none lost, repeated or overwritten, and client i is sent the i-th reply and nothing else |
| `McpHttp.ReplyIsToTheLastGiven` | src/bridge/mcp.ts:166-177 | the i-th reply is said while the i-th request is the one given last and carries its id; without an open request nothing is replied |
| `McpHttp.EveryRequestCanBeServed` | src/bridge/mcp.ts:131-177 | for every list of requests that fit, and all replies, some run gives them to the program in order and sends each client its reply |
| `McpHttp.OversizedWedges` | src/bridge/mcp.ts:152-159 | parsing loses the request id exactly when the request did not fit the buffer |
| `McpHttp.WedgedForever` | src/bridge/mcp-http-worker.ts:36-38 | from then on no request is signalled and no client answered, over every run, stale wake-ups included |
| `McpHttp.OversizedReached` | src/bridge/mcp.ts:152-159 | every request that does not fit wedges a server that has just started |
| `McpHttp.RequestGivenTwice` | src/bridge/mcp-http-worker.ts:36-50 | for every request that fits, some run with a stale wake-up gives it to the program twice |
| `McpHttp.RequestLost` | src/bridge/mcp.ts:161-163 | and some run loses the request behind it: the second reading frees the buffer over its announcement, and no client is answered ever after |
| `McpHttp.SignalQueued` | src/bridge/mcp-http-worker.ts:36-50 | signalling takes requests in order of arrival, one at a time, and remembers the client of the one in process |
| `McpHttpHost.SharedChannel.ParseRequest` | src/bridge/mcp.ts:152-159 | body and id of the next request not yet given when it fits the buffer; otherwise its id is lost and the channel wedged |
| `McpHttpHost.SharedChannel.ReleaseBuffer` | src/bridge/mcp.ts:161-163 | the body returned is that of the next request not yet given |
| `McpHttpHost.SharedChannel.RespondHttp` | src/bridge/mcp.ts:166-177 | with an open request, one reply with the id of the request given last; without one, 0 and nothing changes |
| `McpHttpHost.SharedChannel.WriteMessage` | src/bridge/mcp.ts:79-91 | with an open request a write is the reply to the request given last, else it goes to standard output |
| `McpHttpHost.SharedChannel.OnPost` | src/bridge/mcp-http-worker.ts:64-71 | the request is queued behind the earlier ones when one is in process, and signalled at once otherwise; nobody is answered |
| `McpHttpHost.SharedChannel.OnRespond` | src/bridge/mcp-http-worker.ts:128-138 | the reply goes to the client whose request is the oldest unanswered one |
| `MysqlPool.OwnedKept` | src/database/mysql-worker-impl.ts:94-259 | after a request the checked-out connections are exactly the distinct values of `transactions`, if and only if Begin did not draw an id in use |
| `MysqlPool.FailuresKept` | src/database/mysql-worker-impl.ts:94-259 | a connection on which a driver call failed is destroyed and not released |
| `MysqlPool.OnceKept` | src/database/mysql-worker-impl.ts:167-176 | no connection is disposed of twice, if and only if no one-shot execute resolved without a header |
| `MysqlPool.KeyedKept` | src/database/mysql-worker-impl.ts:244-252 | the insertion order lists each open transaction once |
| `MysqlPool.ConnectionsAccounted` | src/database/mysql-worker-impl.ts:94-259 | the three together over every run of requests and driver failures |
| `MysqlPool.CloseLeavesNone` | src/database/mysql-worker-impl.ts:239-259 | close leaves no connection checked out and no transaction open |
| `MysqlPool.CloseFates` | src/database/mysql-worker-impl.ts:244-251 | on close a transaction's connection is released exactly when its rollback succeeded and destroyed exactly when it threw; all others keep their fate |
| `MysqlPool.EndAllDisposes` | src/database/mysql-worker-impl.ts:244-252 | close disposes of exactly the transactions' connections, oldest first |
| `MysqlPool.HeadlessDisposesTwice` | src/database/mysql-worker-impl.ts:144-176 | a one-shot execute without a header releases its connection and then destroys it |
| `MysqlPool.AnswerTells` | src/database/mysql-worker-impl.ts:94-237 | an unknown transaction changes nothing, success destroys nothing, a database error releases nothing unless headless |
| `MysqlPool.FailedTransactionIsGone` | src/database/mysql-worker-impl.ts:102-118 | a failed statement ends its transaction, and later requests for it are told so |
| `MysqlPool.RequestKeeps` | src/database/mysql-worker-impl.ts:69-92 | one request keeps the accounts if and only if Begin drew no id in use, and single disposal if and only if it was no one-shot execute without a header |
| `MysqlPool.FailedStatement` | src/database/mysql-worker-impl.ts:94-177 | a statement that fails ends its own transaction and touches no other |
| `MysqlPool.StatementAnswers` | src/database/mysql-worker-impl.ts:94-177 | a statement answers with the rows and their count, or with the numbers of the header, or with which error when |
| `MysqlPool.StatementEffect` | src/database/mysql-worker-impl.ts:94-177 | which connection a statement takes, releases or destroys, and which transaction it ends |
| `MysqlPool.StatementFailures` | src/database/mysql-worker-impl.ts:94-177 | a connection counts as failed exactly when the driver call of the statement threw on it |
| `MysqlPool.TransactionEffect` | src/database/mysql-worker-impl.ts:179-237 | begin holds a new connection under its id, last in order; commit and rollback release it, or destroy it when they throw |
| `MysqlPoolHost.MysqlWorker.Query` | src/database/mysql-worker-impl.ts:94-134 | the accounts are kept; rows mean nothing failed and no transaction changed, an error releases nothing, and any failure ends the transaction |
| `MysqlPoolHost.MysqlWorker.Execute` | src/database/mysql-worker-impl.ts:136-177 | the same, with single disposal kept exactly when the result has a header or the statement is in a transaction |
| `MysqlPoolHost.MysqlWorker.Begin` | src/database/mysql-worker-impl.ts:179-197 | the accounts are kept exactly when the new id was free; on success the connection is held under it, otherwise nothing is released and no transaction changes |
| `MysqlPoolHost.MysqlWorker.End` | src/database/mysql-worker-impl.ts:199-237 | the transaction is gone in any case; success releases its connection, a database error destroys it instead |
| `MysqlPoolHost.MysqlWorker.CloseAll` | src/database/mysql-worker-impl.ts:244-252 | no transaction is left; each one's connection is released exactly when its rollback succeeded and destroyed exactly when it threw, and every connection ever handed out has been disposed of |
| `MysqlPoolHost.MysqlWorker.HandleRequest` | src/database/mysql-worker-impl.ts:69-92 | each request goes to its handler, keeps the accounts exactly unless a new id was in use, and single disposal exactly unless headless |
| `MysqlBridge.StepKeeps` | src/database/mysql-worker.ts:51-78 | while numbers fit 32 bits a step keeps the protocol exactly when it neither writes a response checked for an earlier call nor ends the wait of a call whose message is untaken |
| `MysqlBridge.UntakenReturnsForeign` | src/database/mysql-worker.ts:84-92 | from the start, a call that times out before its message is taken can make the next call return what was computed from a response read as a request |
| `MysqlBridge.TornReturnsForeign` | src/database/mysql-worker.ts:56-77 | and so can a response that is written after its call timed out and the next request was published |
| `MysqlBridge.ResponsesBelongToTheirCalls` | src/database/mysql.ts:42-86 | over every orderly run, late notifies included, a response returned to a call was computed from the request of that call, however many calls timed out and however far the numbers have gone |
| `MysqlBridge.HandledAtMostOnce` | src/database/mysql-worker.ts:84-111 | no request is handled twice, and each handler saw exactly what was published under its number |
| `MysqlBridge.WakeAnswers` | src/database/mysql.ts:71-82 | a call that does not time out returns the response to its own request, or fails exactly when a late notify woke it |
| `MysqlBridge.LateNotifyFails` | src/database/mysql-worker.ts:75-77 | after a response that is taken before its notify, the next call can be woken by that notify and fail although nothing timed out; when the worker has not taken its message by then the protocol is broken |
| `MysqlBridge.LateNotifyReached` | src/database/mysql.ts:60-68 | for any two requests an orderly run leads there |
| `MysqlBridge.GivenUpIsDropped` | src/database/mysql.ts:63-68 | once a call has given up no handler at work passes its check |
| `MysqlBridge.CheckedForTheCaller` | src/database/mysql-worker.ts:56-58 | while a call waits, the handler that passes its check is the one of that call, and it worked on its request |
| `MysqlBridge.CallCanBeAnswered` | src/database/mysql.ts:42-86 | from any quiet state a call whose request fits can return the response to it and leave the buffers quiet |
| `MysqlBridge.EndsIdle` | src/database/mysql.ts:48-82 | however a call ends the word is idle and no caller is left; a request too large for the buffer touches nothing else |
| `MysqlBridge.FreshBuffers` | src/database/mysql.ts:25-40 | the buffers start out empty and quiet |
| `MysqlBridge.Words32Kept` | src/database/mysql.ts:71-78 | from number 2^31 on every call that completes fails, because the response word has wrapped |
| `MysqlBridge.FaithfulKept` | src/database/mysql.ts:42-86 | no step returns a foreign response |
| `MysqlBridgeHost.SharedBuffers.Send` | src/database/mysql.ts:48-60 | a request that fits is published under the next number; one that does not fails before the number moves; the protocol is kept |
| `MysqlBridgeHost.SharedBuffers.GiveUp` | src/database/mysql.ts:63-68 | no handler at work can be answered from here on; the protocol is kept exactly when the message of the call has been taken |
| `MysqlBridgeHost.SharedBuffers.Receive` | src/database/mysql.ts:71-82 | a response is the answer to the request of this very call, an error comes exactly with a late notify; the protocol is kept exactly when the message has been taken |
| `MysqlBridgeHost.SharedBuffers.OnMessage` | src/database/mysql-worker.ts:84-92 | the new handler works on the request of the waiting call, and no other handler has its number |
| `MysqlBridgeHost.SharedBuffers.CheckResponse` | src/database/mysql-worker.ts:56-58 | while a call waits, a response passes exactly when its handler has the number, and so the request, of that call |
| `MysqlBridgeHost.SharedBuffers.StoreResponse` | src/database/mysql-worker.ts:60-77 | response or overflow error, its length, its number and the done word; the protocol is kept exactly when no later call waits |
| `MysqlBridgeHost.SharedBuffers.NotifyCaller` | src/database/mysql-worker.ts:77 | whichever call waits is woken, and the protocol is kept |
| `JwtRotation.RotatesIff` | src/bridge/crypto.ts:243-294 | a call rotates exactly when the token verifies, has an id without an unlapsed entry, and signing works |
| `JwtRotation.RefusalConsumesNothing` | src/bridge/crypto.ts:290-293 | a call that does not rotate adds no entry, a failed signature included |
| `JwtRotation.NewTokenRotatesUntilExpiry` | src/bridge/crypto.ts:278-283 | the returned token can be rotated in turn exactly until its lifetime has passed |
| `JwtRotation.EntryOutlastsToken` | src/bridge/crypto.ts:272-276 | the entry outlasts the token exactly when the expiry is at most 30 days away |
| `JwtRotation.SpentStays` | src/bridge/crypto.ts:22-26 | a spent token stays spent whatever call comes, and is refused itself unless the clock passes its expiry within the call |
| `JwtRotation.RotatedAtMostOnce` | src/bridge/crypto.ts:243-294 | over every run with a monotone clock: once a token within 30 days of its expiry was rotated, every later call with it is refused, unless the clock passes its expiry within that call; calls with other tokens are unrestricted |
| `JwtRotation.RotatedAtMostTwice` | src/bridge/crypto.ts:243-294 | and such a call is the last: no token within 30 days is rotated three times |
| `JwtRotation.ReplayExactly` | src/bridge/crypto.ts:245-276 | a later call with a rotated token rotates it again if and only if it verifies, can be signed, and the entry has lapsed at the second clock reading |
| `JwtRotation.SingleUseIff` | src/bridge/crypto.ts:272-276 | for every bound on the distance of the two clock readings: all replays are refused if and only if the token has an expiry that has passed by the first rotation, or that the entry outlasts by the bound |
| `JwtRotation.SingleUseWithinMonth` | src/bridge/crypto.ts:272-276 | with one reading per call, if and only if it has an expiry at most 30 days away |
| `JwtRotation.StraddlingReplay` | src/bridge/crypto.ts:245-264 | with its expiry between the two readings, a token within 30 days is rotated again exactly when the second reading is later than the expiry by the millisecond part of the first rotation |
| `JwtRotation.StraddlingReplays` | src/bridge/crypto.ts:245-264 | both happen for every such token: it can be rotated twice, and the same replay can be refused |
| `JwtRotation.CryptoBridge.SweepConsumedJtis` | src/bridge/crypto.ts:22-26 | exactly the lapsed entries are gone |
| `JwtRotation.CryptoBridge.RefreshAndRotate` | src/bridge/crypto.ts:229-294 | the list and the outcome `Rotate` describes |
| `Pagination.PaginateClamps` | src/bridge/database.ts:319-321 | page and size are clamped, sizes below 1 to 1 and above 1000 to 1000, and clamped numbers give the same page |
| `Pagination.OffsetPagesTile` | src/bridge/database.ts:323-347 | pages 1 to `total_pages` concatenate to the whole selection, and later pages are empty |
| `Pagination.PageCount` | src/bridge/database.ts:337 | `total_pages` pages are enough and all are needed |
| `Pagination.TotalsAdd` | src/bridge/database.ts:319-347 | the total is the number of rows all pages together hold, there are pages exactly when there are rows, and the page is the one asked for |
| `Pagination.RestIff` | src/bridge/database.ts:395-403 | the rows asked for after a cursor are exactly the rest of the selection if and only if no row up to it satisfies an OR part of the clause the cursor condition is not joined to |
| `Pagination.CursorAt` | src/bridge/database.ts:394-413 | for any clause: behind rows none of which is early, the page at the cursor is the window behind it, has more exactly when rows are left, and names the last row |
| `Pagination.FollowedPage` | src/bridge/database.ts:394-413 | while the rows passed are not early, the k-th page of a walk starts behind the first k * size rows |
| `Pagination.CursorWalk` | src/bridge/database.ts:394-413 | while no row passed is early, a walk is at most as long as the offset pages and ends exactly there, its k-th page is the k-th offset page, and a finished one yields every row once in order |
| `Pagination.WalkCompleteIff` | src/bridge/database.ts:394-413 | for any clause, a finished walk yields exactly the selection if and only if no row up to its last cursor is early |
| `Pagination.WalkEndsCompleteIff` | src/bridge/database.ts:394-413 | for any table, clause and page size: following the cursors ends with every row yielded once, in order, if and only if no row that the offset pages have before the last one is early |
| `Pagination.OneWalk` | src/bridge/database.ts:394-413 | any two walks agree page by page, and none goes on behind a finished one |
| `Pagination.WalkCompleteWithoutOr` | src/bridge/database.ts:395-403 | so it does whenever the clause has no top-level OR |
| `Pagination.EndlessWalk` | src/bridge/database.ts:395-403 | with such an OR a walk over two rows in order can have any length and never finish |
| `Template.SubstituteTemplate` | src/bridge/ui.ts:27-69 | the output is the evaluation of a data-free parse of the template: inserted values are never rescanned |
| `Template.GetNestedValue` | src/bridge/ui.ts:6-15 | the value at a dotted path, undefined past anything that is no object |
| `Template.NestedPath` | src/bridge/ui.ts:6-15 | a path goes one property after the other, in order |
| `Template.NestedProperty` | src/bridge/ui.ts:6-15 | one step finds the property of an object, and undefined otherwise |
| `Template.NamesAre` | src/bridge/ui.ts:49 | names are letters, digits and underscores and do not begin with a digit |
| `Template.KeysAre` | src/bridge/ui.ts:49 | a key is a name, or a name, a dot and a key |
| `Template.RenderPrinted` | src/bridge/ui.ts:17-26 | rendering printed literals and keys gives the literals and the looked-up values in order |
| `Template.FirstOfKey` | src/bridge/ui.ts:38-57 | a key in braces with any white space around it is one placeholder |
| `Template.FirstOfEscaped` | src/bridge/ui.ts:33-63 | a doubled brace is one literal brace |
| `Template.BraceLiteralIff` | src/bridge/ui.ts:38-50 | an opening brace that is no escape stays literal if and only if the text up to the next closing brace is not a key with white space around it |
| `Template.GroupLiteralIff` | src/bridge/ui.ts:38-66 | a group of braces with no brace in it comes out as it is, whatever the data, if and only if its text is no such key |
| `Template.BreakKeepsLiteralIff` | src/bridge/ui.ts:24 | so a line break keeps such a group literal exactly when the trimmed text is no key, and always when the break is not at the ends |
| `Template.BlankStaysLiteral` | src/bridge/ui.ts:24 | empty content, or white space alone, stays literal |
| `Template.NestedStaysLiteral` | src/bridge/ui.ts:24 | a brace before another opening one stays literal |
| `Template.UnterminatedStaysLiteral` | src/bridge/ui.ts:38-41 | without any closing brace everything from the opening one on comes out as it is, doubled braces included |
| `Template.NewlineStillSubstituted` | src/bridge/ui.ts:24 | line breaks on either side of a key do not keep the braces literal, unlike the comment says: the value is inserted |
| `Rooms.AgreeKept` | src/bridge/websocket.ts:326-373 | a client is in a room's member set exactly when it is connected and its own room set names the room; kept by every event |
| `Rooms.StepRefines` | src/bridge/websocket.ts:326-373 | each event does to the one membership relation what it should |
| `Rooms.RunRefines` | src/bridge/websocket.ts:153-373 | so does every run |
| `Rooms.RoomsThatStay` | src/bridge/websocket.ts:326-373 | a room goes with its last member when that one leaves or is closed, and stays behind empty when its socket closes |
| `Rooms.BroadcastReachesTheRoom` | src/bridge/websocket.ts:377-389 | in every reachable state a broadcast goes to exactly the connected clients that joined the room |
| `Rooms.ClosesOwnClientIff` | src/bridge/websocket.ts:164-168 | a close event evicts no other socket's client, if and only if its id was not given to another socket since |
| `Rooms.NoHijackWithoutStop` | src/bridge/websocket.ts:153-169 | without a stop that never happens |
| `Rooms.RestartHijacks` | src/bridge/websocket.ts:191-194 | with a stop between two connections it can |
| `Rooms.WebsocketBridge.Upgrade` | src/bridge/websocket.ts:153-155 | one more client is connected, under an id nobody connected has; who is in which room stays |
| `Rooms.WebsocketBridge.RoomJoin` | src/bridge/websocket.ts:353-362 | who is in which room gains exactly this pair; nothing changes for an unknown client or an empty name |
| `Rooms.WebsocketBridge.RoomLeave` | src/bridge/websocket.ts:365-373 | who is in which room loses exactly this pair |
| `Rooms.WebsocketBridge.Close` | src/bridge/websocket.ts:326-339 | the client is neither connected nor in any room; everybody else stays |
| `Rooms.WebsocketBridge.OnSocketClosed` | src/bridge/websocket.ts:164-168 | the same for the client that holds the id the listener was given |
| `Rooms.WebsocketBridge.StopServer` | src/bridge/websocket.ts:191-194 | nobody is connected or in a room, and ids start over |
| `Rooms.WebsocketBridge.Broadcast` | src/bridge/websocket.ts:377-389 | each member of the room is sent to once, and nobody else |

## Left out

- Express, TLS, CORS, logging, metrics, mail, the file system, and the Redis and Postgres drivers: input and output only.
- UTF-8, JSON, hashing, signatures and regular expressions are given functions; the key pattern of the renderer is stated as identifiers joined by dots.
- `readLengthPrefixedString`, `writeLengthPrefixedString`: they differ from the bytes versions only by the text encoding.
- WASM heap: diagnostics of out-of-bounds reads, `preGrowMemory`, and the reference counts and scope stack of the memory runtime, which are advisory.
- WasmHost.Instance.ReadLengthPrefixedBytes: the copy it returns is a value, so later writes through a live view are not modelled.
- RequestPoolHost.RequestWorkerPool.OnWorkerMessage: session operations and the contents of responses are not modelled.
- RequestPoolHost.RequestWorkerPool.CloseBegin: it does not wait for workers to terminate; the end of the wait is a step of its own.
- JobsHost.JobQueue.OnHandlerDone: what a handler does to the queue while it runs is a sequence of separate steps between the claim and this one.
- Jobs without a database, and table writes that throw: excluded by assumption.
- Cron: re-registration of timers, daylight-saving shifts and the range limits of JavaScript dates.
- McpHttp.ServedInOrder: server-sent events, the start of the HTTP server and its shutdown message (which nothing posts) are not modelled.
- MysqlBridge.ResponsesBelongToTheirCalls: the single stores inside publishing and inside writing a response are one step each, so a caller that reads between two of them is not covered; runs are those in which no response is written over a later request and no wait ends before its message was taken, since either breaks the protocol (MysqlBridge.StepKeeps).
- MysqlPool.OwnedKept: overlapping handlers of one transaction are not modelled.
- JwtRotation.RotatesIff: `nbf`, other claims and fractional seconds are not modelled.
- Pagination: `buildWhereClause` is taken as the list of OR parts of the clause it builds; table and field name checks are string tests only.
- Template: `cl-iterate`, `cl-if` and `cl-show` expansion, which is unspecified substring search.
- Rooms.WebsocketBridge.Broadcast: whether a send succeeds; a failing one is only logged.
