# Verified models of the agent server

A Dafny model of the protocols, compilers and printers of the agent server (`backend/server`) and
of the agents' shared modules (`backend/agents`), with proofs about every input, every run and every
interleaving. `dafny verify dfyconfig.toml` checks the whole project.

| files | what they model |
|---|---|
| `SwrProtocol`, `SwrTheorems`, `SwrEndToEnd`, `SwrCoordinator` | stale-while-revalidate coordination: state objects in a heap, steps between awaits, epochs, the write lock and reference counts |
| `AsgiProtocol`, `AsgiTheorems`, `AsgiHistory`, `AsgiExchange` | one request across two event loops: posted callbacks, one-shot futures, the sentinel-terminated body queue |
| `UsageQuota`, `UsageAdmission` | run and spend limits over rolling windows; concurrent admission under a per-owner lock with transaction-start timestamps |
| `Jsonb`, `AuthFilters`, `AuthFilterTheorems`, `AuthFilterBuilder` | auth filters compiled to SQL, read back by a parser with SQL precedence and evaluated by JSONB containment (section 8.14.3 of the PostgreSQL documentation) |
| `Sse`, `JsonDump`, `JsonValues`, `JsonReading` | event-stream framing against sections 9.2.5 and 9.2.6 of the WHATWG HTML Living Standard; JSON with NUL and surrogate replacement, read back by sections 2 to 7 of RFC 8259 |
| `PublishQueue` | publishing through a bounded queue, and inline |
| `ObjectKeys`, `ObjectOwners`, `ObjectBackend` | virtual paths and object keys; directories over a flat key space |
| `Migrations`, `MigrationFiles`, `SqlPatterns`, `SqlSplit` | migrations with crashes and restarts; splitting a migration into statements |
| `Sweep` | the sweep that replicas coordinate through a marker and a lock |
| `HttpMetrics`, `HttpRequests` | request counters and latency histograms |
| `ChannelVersions` | zero-padded channel versions |
| `Wrappers`, `Decimal`, `LexOrder`, `PyStrings` | shared: options, decimal numerals, string order, string methods |

A protocol is a state machine whose actions are the code between two awaits (or one database
statement); an invariant is kept by every action, and the theorems speak of every run. Beside it a
class holds the variables the source updates in place, and each of its methods is proved to make
the step of the state machine. Code made of expressions is modelled by functions.

Where the code and its description differ, the model follows the code:

- `virtual_path_for_key` without a scope assumes the default owner, while the key builders use the
  identity of the run; the two are inverse exactly under the condition of `ObjectKeys.PathRoundTripsIff`.
- `delete` compares the path as given, while `write` stores at its normal form. So `delete` misses
  what `write` stored at `a`, `//a`, `/a//b`, `/a/./b` or `/a ` (with a trailing space);
  `ObjectBackend.DeleteFindsWrittenIff` says exactly when it finds it.
- The two key builders differ on paths starting with `~`, exactly as `ObjectKeys.BuildersAgreeIff` says,
  and owners with slashes can share keys, exactly as `ObjectOwners.OwnersShareKeyIff` says.
- The reset time of a run limit is the first free instant exactly under the condition of
  `UsageQuota.ResetExactIff`; after a limit is lowered it can be too early.
- The description of `_split_sql_statements` says that each index statement stands alone; the code only
  begins a new statement there, and what follows, up to the next index statement, stays with it.
- Migrations are listed in the order of file names; versions whose names do not sort as their
  numbers can be lost after a crash.

## Model

| member | source | states |
|---|---|---|
| `SwrTheorems.CoordinationIsExact` | backend/server/api/cache.py:296-317 | In every reachable interleaving: at most one live state object and one unfinished load per key, `users` is the number of outstanding acquirers, a held lock implies users, a state object is registered exactly while it is in use or has a task, and at quiescence `_SWR_STATES` is empty. |
| `SwrTheorems.QuiescentIsEmpty` | backend/server/api/cache.py:310-317 | When every coroutine is done and every done-callback has run, no state is registered, also when tasks were replaced before their callback ran. |
| `SwrTheorems.InitialInv` | backend/server/api/cache.py:296-302 | The empty registry satisfies the invariant, so the reachable states are those of real runs. |
| `SwrTheorems.StaleLoadNeverWrites` | backend/server/api/cache.py:329-354 | A load that captured its epoch before an explicit write bumped it never writes the cache, whatever happens afterwards. |
| `SwrTheorems.StaleLoadReturnsCached` | backend/server/api/cache.py:364-371 | If such a load returns a value, it is the cached entry at its second read, or its own value when no entry is there. |
| `SwrTheorems.LoadOutcome` | backend/server/api/cache.py:357-371 | Any load that returns gives back what its loader produced or what it read again. |
| `SwrTheorems.BumpMakesStale` | backend/server/api/cache.py:329-336 | An explicit write that takes the lock makes every unfinished load of its key stale, because both hold the same state object. |
| `SwrTheorems.StaleNeverApplies` | backend/server/api/cache.py:346-352 | Staleness is permanent and excludes the cache write. |
| `SwrTheorems.OnlyWriterWins` | backend/server/api/cache.py:329-336 | Over any run in which no other writer of the key is active, what the writer stored stays stored. |
| `SwrTheorems.ExplicitWriteSurvives` | backend/server/api/cache.py:329-371 | A returned explicit write has its value in the cache until something new touches the key: no load in flight at its epoch bump undoes it. |
| `SwrProtocol.StepKeepsInv` | backend/server/api/cache.py:296-415 | Every atomic step of loads, writes, callbacks, failures, evictions and outside writes keeps the coordination invariant. |
| `SwrProtocol.LoadIsRegistered` | backend/server/api/cache.py:374-415 | The object whose epoch an unfinished load captured is still the registered one, so a load cannot meet a recreated state with epoch 0. |
| `SwrProtocol.EnabledIsSafe` | backend/server/api/cache.py:305-307 | In a state with the invariant, a coroutine that is about to release an object finds it with a positive user count. |
| `SwrEndToEnd.CacheFrame` | backend/server/api/cache.py:320-371 | The cached entry of a key changes only when a coroutine of that key stores exactly its value, or by eviction or an outside write. |
| `SwrEndToEnd.StartLoadLeavesLoad` | backend/server/api/cache.py:374-415 | Asking for a load starts none while one of the key is unfinished, and otherwise one that captures the current epoch. |
| `SwrEndToEnd.CanStore` | backend/server/api/cache.py:329-354 | Whenever a writer, or a load whose captured epoch is still the current one, can take the lock, it can go on to store its value and return it. |
| `SwrEndToEnd.CanReread` | backend/server/api/cache.py:349-371 | Whenever an overtaken load can take the lock, it can go on to return the cached entry, or its own value when there is none, and leaves the cache as it is. |
| `SwrEndToEnd.LoadStoresItsValue` | backend/server/api/cache.py:357-371 | From the call on, in every interleaving: a load that no writer of its key overtakes before it takes the lock, and that returns, has stored what its loader gave it, and returns that. |
| `SwrEndToEnd.WriteStoresItsValue` | backend/server/api/cache.py:329-336 | From the call on, in every interleaving: an explicit write that returns has stored exactly the value it was called with. |
| `SwrEndToEnd.StartedLoadOutcome` | backend/server/api/cache.py:357-371 | Any load that returns, overtaken or not, gives what its loader gave it or what it read again from the cache. |
| `SwrEndToEnd.StartedWriteSurvives` | backend/server/api/cache.py:329-371 | From its call on, a write that returns leaves exactly the value it was called with, whatever loads were in flight when it took the lock, until something new touches the key. |
| `SwrEndToEnd.CanReturn` | backend/server/api/cache.py:329-371 | No coroutine is ever stuck: from every state with the invariant it can return within seven steps, those of the lock holder included. |
| `SwrCoordinator.SwrCoordinator.AcquireSwrState` | backend/server/api/cache.py:296-302 | The mutable registry moves as the protocol step says, with the state object found or freshly created. |
| `SwrCoordinator.SwrCoordinator.MaybeCleanupSwrState` | backend/server/api/cache.py:310-317 | Removes exactly the idle object that is the registered one. |
| `SwrCoordinator.SwrCoordinator.ReleaseSwrState` | backend/server/api/cache.py:305-307 | One user less, then the cleanup, as the protocol step says. |
| `SwrCoordinator.SwrCoordinator.EnsureSwrLoadTask` | backend/server/api/cache.py:374-415 | Returns an unfinished load of the key: the running one, or a new one whose captured epoch is the state's. |
| `SwrCoordinator.SwrCoordinator.TaskDone` | backend/server/api/cache.py:397-401 | The done-callback clears the task only if it is still its own. |
| `SwrCoordinator.SwrCoordinator.LockForWrite` | backend/server/api/cache.py:332-334 | Entering the lock bumps the epoch before anything can be awaited. |
| `SwrCoordinator.SwrCoordinator.LockForStore` | backend/server/api/cache.py:346-354 | Goes on to store if and only if the epoch of the object is the captured one; otherwise leaves lock and object. |
| `SwrCoordinator.SwrCoordinator.LeaveStore` | backend/server/api/cache.py:352-354 | Unwinding with or without the lock releases exactly what was acquired. |
| `AsgiTheorems.ConsumerReadsPrefix` | backend/server/api/asgi_transport.py:186-208 | In every interleaving of both loops what has been read, queued and posted is together exactly what was sent; so the consumer has read a prefix, and nothing for HEAD. |
| `AsgiTheorems.SentinelComesLast` | backend/server/api/asgi_transport.py:142-150 | While the consumer can reach it the sentinel is queued at most once, is the last item, and no body is on its way behind it. |
| `AsgiHistory.StateIsHistory` | backend/server/api/asgi_transport.py:186-210 | After any run the bodies sent are the non-empty ones of the app's body messages up to and including the first without `more_body`, none for HEAD; the status is that of the first start message; the response is complete once such a last message was sent. |
| `AsgiHistory.ReadsAPrefix` | backend/server/api/asgi_transport.py:62-69 | At every moment the consumer has read a prefix of the bodies of the app's messages. |
| `AsgiHistory.DrainedReadsAll` | backend/server/api/asgi_transport.py:62-69 | A consumer that met the sentinel has read exactly the bodies of the app's messages, then and ever after. |
| `AsgiHistory.RequestOutcome` | backend/server/api/asgi_transport.py:285-306 | Exactly what the request call gives when nobody cancels it, in every interleaving: the first status sent; without one, the app's error or the protocol error if errors are raised and 500 if not; the cancellation of an app that was cancelled. |
| `AsgiHistory.StatusIsTheFirst` | backend/server/api/asgi_transport.py:285-306 | The status returned is that of the first start message in the run, or 500 when there is none, the app has ended and errors are not raised. |
| `AsgiHistory.ErrorIsTheEnding` | backend/server/api/asgi_transport.py:246-261 | An error that escapes from the request call is the one the app ended with before any start message. |
| `AsgiHistory.OutcomeIsTheEnding` | backend/server/api/asgi_transport.py:212-281 | What a drained stream ends with, by the messages sent and how the app ended. |
| `AsgiHistory.StoppingSettlesApp` | backend/server/api/asgi_transport.py:73-79 | Whoever stops reading, at the end or early, closes the stream and leaves the future of the app settled. |
| `AsgiTheorems.DispatchReducesWork` | backend/server/api/asgi_transport.py:149-158 | Running callbacks ends: each one leaves less work on the caller's loop. |
| `AsgiTheorems.SettleKeepsInv` | backend/server/api/asgi_transport.py:212-283 | Running all waiting callbacks keeps the invariant and leaves none. |
| `AsgiTheorems.NothingHangs` | backend/server/api/asgi_transport.py:212-302 | Once the app has ended in any way and its callbacks have run, no await is blocked: the request future is done, a reading consumer has the sentinel ahead, the final future is done. |
| `AsgiTheorems.StartReleasesRequest` | backend/server/api/asgi_transport.py:152-158 | Once the start message is sent and the callbacks have run the request call can go on, although the app may still be running. |
| `AsgiTheorems.CompletionReleasesReader` | backend/server/api/asgi_transport.py:206-208 | Once the response is complete and the callbacks have run a reading consumer has the sentinel ahead, although the app may still be running. |
| `AsgiTheorems.SealedQueueDrains` | backend/server/api/asgi_transport.py:62-69 | A queue ending in the sentinel can be read to its end without blocking, and yields all its bodies. |
| `AsgiTheorems.RequestError` | backend/server/api/asgi_transport.py:246-261 | What the request call raises is the error of an app that ended before starting the response, only if errors are raised. |
| `AsgiTheorems.RequestStatus` | backend/server/api/asgi_transport.py:285-306 | The status returned is the one sent, or 500 for an app that ended without one while errors are not raised. |
| `AsgiTheorems.StatusIsSet` | backend/server/api/asgi_transport.py:299-302 | The two closing guards of the request call never fire. |
| `AsgiTheorems.StreamOutcome` | backend/server/api/asgi_transport.py:212-281 | What a drained stream ends with: an app error after the headers only if errors are raised, an incomplete response in any case, cancellation as cancellation. |
| `AsgiTheorems.ErrorSurfacesOnce` | backend/server/api/asgi_transport.py:212-297 | No error surfaces both from the request call and from the stream. |
| `AsgiProtocol.StepKeepsInv` | backend/server/api/asgi_transport.py:132-306 | Every step of app, callbacks, request call and consumer keeps the invariant. |
| `AsgiProtocol.StepKeepsFlow` | backend/server/api/asgi_transport.py:186-208 | Every step conserves the bodies in order. |
| `AsgiProtocol.SentinelIsLast` | backend/server/api/asgi_transport.py:62-69 | When the sentinel is at the head, everything sent has been read. |
| `AsgiExchange.AsgiExchange.SendResponseStart` | backend/server/api/asgi_transport.py:189-195 | `send` of the start message: refused the second time, otherwise posts the callback. |
| `AsgiExchange.AsgiExchange.SendResponseBody` | backend/server/api/asgi_transport.py:197-208 | `send` of a body message: refused after the end, empty and HEAD bodies are not posted. |
| `AsgiExchange.AsgiExchange.CloseTheStream` | backend/server/api/asgi_transport.py:142-147 | The sentinel is put once. |
| `AsgiExchange.AsgiExchange.FinishTheApp` | backend/server/api/asgi_transport.py:212-281 | All cases of `finish_app`; each future is settled only while it is pending. |
| `AsgiExchange.AsgiExchange.RunNextCall` | backend/server/api/asgi_transport.py:152-158 | In any valid state the next callback of the caller's loop can run, settles no future twice, and keeps the state valid. |
| `AsgiExchange.AsgiExchange.ResumeRequest` | backend/server/api/asgi_transport.py:285-306 | The rest of the request call after its await. |
| `AsgiExchange.AsgiExchange.CloseTheReader` | backend/server/api/asgi_transport.py:73-79 | `aclose` of a stream that was not closed. |
| `AsgiExchange.AsgiExchange.NextItem` | backend/server/api/asgi_transport.py:64-68 | One round of the iterator: a chunk is appended to what was read, the sentinel ends the loop. |
| `AsgiExchange.AsgiExchange.EndOfStream` | backend/server/api/asgi_transport.py:69-71 | The iterator ends with the outcome of `app_complete` and closes. |
| `AsgiExchange.AsgiExchange.CloseEarly` | backend/server/api/asgi_transport.py:70-79 | A consumer that stops early; if it was waiting for the app, its cancellation cancels `app_complete`, once. |
| `AsgiExchange.AsgiExchange.OpenTheStream` | backend/server/api/asgi_transport.py:62-65 | The consumer begins to read. |
| `AsgiExchange.AsgiExchange.CancelTheRequest` | backend/server/api/asgi_transport.py:285-286 | Cancelling the request call cancels the future it awaits, unless that is done already. |
| `AsgiExchange.AsgiExchange.AppIsOver` | backend/server/api/asgi_transport.py:210 | The end of the app is posted behind everything it sent. |
| `AsgiProtocol.FinishFindsFuture` | backend/server/api/asgi_transport.py:283 | `finish_app` only ever runs on a finished app future. |
| `UsageAdmission.WindowsStayWithinLimits` | backend/agents/usage.py:374-392 | With fixed limits and any interleaving of transactions, no 24-hour window ever holds more than `runs_per_day` runs of one owner and no 7-day window more than `runs_per_week`. |
| `UsageAdmission.InsertKeepsBounded` | backend/agents/usage.py:294-306 | Counting every run newer than the transaction's window start, later ones included, is what keeps all windows bounded although timestamps are not in commit order. |
| `UsageAdmission.StepKeepsInv` | backend/agents/usage.py:383-392 | Begin, lock, load, commit, abort, metering and time keep the windows bounded and admitted transactions within their headroom. |
| `UsageAdmission.LoadThenCommit` | backend/agents/usage.py:383-392 | A transaction that loads and commits gives the verdict that is right on the ledger for its start time, and adds a row of that time exactly if the run is allowed. |
| `UsageAdmission.ResetIsFirstFree` | backend/agents/usage.py:220-225 | On every ledger so reached with no row later than now, a refusal by a run limit reports the first instant at which that limit lets go. |
| `UsageAdmission.UsageLedger.CheckAndRecordRun` | backend/agents/usage.py:374-392 | On the ledger before: the run is allowed if and only if no limit that is set is reached by the runs or the costs of the rows of its window; a refusal names the first one reached and resets one window after its oldest row. A row is added exactly when allowed and some limit is on; windows within limits stay so. |
| `UsageAdmission.UsageLedger.RecordModelUsage` | backend/agents/usage.py:414-439 | Metering adds one row and cannot break a run limit. |
| `UsageQuota.EvaluateExact` | backend/agents/usage.py:228-258 | A run is allowed exactly when no limit that is set is reached; a refusal naming a run limit names a reached one with its own reset time. |
| `UsageQuota.FirstBlockIsFirst` | backend/agents/usage.py:249-251 | The verdict is the first check in order that is hit. |
| `UsageQuota.ResetExactIff` | backend/agents/usage.py:220-225 | For a blocking run limit the reported reset is the first free instant if and only if the runs in the window, less those that share its oldest timestamp, are fewer than the limit. |
| `UsageQuota.ResetExactUnderLimit` | backend/agents/usage.py:220-225 | On a ledger within the limit and without later rows the reset is exact. |
| `UsageQuota.ResetTooEarlyAfterLoweringLimit` | backend/agents/usage.py:220-225 | A ledger on which the reported time comes too early: the limit was lowered after the rows were written. |
| `UsageQuota.OldestFacts` | backend/agents/usage.py:300-301 | The minimum over the window drives the count: it stays until that row ages out and then drops. |
| `UsageQuota.VerdictIsRight` | backend/agents/usage.py:228-258 | The policy on the aggregates of any ledger gives the verdict that is right on its rows, reset time included, for all six limits. |
| `UsageQuota.RunsAppend` | backend/agents/usage.py:296-297 | A row counts as a run of its owner exactly in the windows that begin before it. |
| `UsageQuota.SpendAppend` | backend/agents/usage.py:298-299 | A row adds its cost to its owner's spend exactly in the windows that begin before it. |
| `UsageQuota.GlobalSpendAppend` | backend/agents/usage.py:308-312 | A metered row of any owner adds its cost to the shared spend exactly in the windows that begin before it. |
| `UsageQuota.OldestRunIsOldest` | backend/agents/usage.py:300-301 | The minimum over runs is the creation time of the oldest run of the owner in the window, if there is one. |
| `UsageQuota.OldestLlmIsOldest` | backend/agents/usage.py:302-303 | The same over metered rows, of one owner or of all. |
| `UsageQuota.RunsLeftExact` | backend/agents/usage.py:261-271 | With only run limits set, n runs left means that n creates at this instant are admitted one after the other and the next is refused. |
| `AuthFilterTheorems.ClauseFaithful` | backend/server/core_server/_filters.py:57-63 | A non-empty clause parses, with AND binding tighter than OR, as one operand, all its placeholders are bound, and it holds of a metadata object exactly when every filter accepts it. |
| `AuthFilterTheorems.ClauseShape` | backend/server/core_server/_filters.py:57-63 | The clause raises exactly when some match is not JSON, is empty exactly when no filter demands anything, and changes no binding of the query. |
| `AuthFilterTheorems.ClauseAfterAnd` | backend/server/core_server/_filters.py:87-90 | Put behind another condition with AND the clause keeps its meaning. |
| `AuthFilterTheorems.CompileFaithful` | backend/server/core_server/_filters.py:109-130 | The same for every filter tree and every starting dictionary. |
| `AuthFilterTheorems.CompileShape` | backend/server/core_server/_filters.py:109-130 | A filter compiles unless a match is not JSON; vacuous filters give no text and bind nothing. |
| `AuthFilterTheorems.CompileKeeps` | backend/server/core_server/_filters.py:101-106 | Compilation keeps every earlier binding. |
| `AuthFilterTheorems.EqContainment` | backend/server/core_server/_filters.py:111-116 | Containment of a single pair is equality at the key for scalars, containment for structures. |
| `AuthFilterTheorems.MemberContainment` | backend/server/core_server/_filters.py:117-122 | Containment of a one-element array is membership in the array at the key. |
| `AuthFilters.AheadShrinks` | backend/server/core_server/_filters.py:101-104 | Why the search for a fresh name ends: distinct indices print distinct names. |
| `AuthFilterBuilder.BindState.BindValue` | backend/server/core_server/_filters.py:101-106 | The loop ends with a name that was not bound and binds only that. |
| `AuthFilterBuilder.BindState.BuildPredicate` | backend/server/core_server/_filters.py:109-130 | The recursion over mutable bindings computes the compiler function. |
| `AuthFilterBuilder.BindState.BuildMembers` | backend/server/core_server/_filters.py:117-123 | The loop over the matches, stopping at one that is not JSON. |
| `AuthFilterBuilder.BindState.BuildAll` | backend/server/core_server/_filters.py:124-129 | The comprehension over sub-filters, dropping empty texts. |
| `AuthFilterBuilder.BuildFiltersClause` | backend/server/core_server/_filters.py:35-63 | The clause and the extended parameters. |
| `Sse.StreamRoundTrips` | backend/server/api/sse.py:98-132 | Any sequence of frames with heartbeats between them is read back as exactly the sanitised events, for data without line breaks. |
| `Sse.TruncationYieldsPrefix` | backend/server/api/sse.py:98-132 | Any truncation of the stream yields a prefix of those events. |
| `Sse.FrameExactIff` | backend/server/api/sse.py:116-132 | A frame is read back as its event if and only if its data has no CR or LF. |
| `Sse.SanitizeClean` | backend/server/api/sse.py:112-113 | A sanitised field has no line break and loses nothing else. |
| `Sse.SanitizeByByte` | backend/server/api/sse.py:112-113 | Sanitising drops each CR and LF and keeps every other byte where it was, whatever stands before and after it. |
| `Sse.MessageIsRead` | backend/server/api/sse.py:116-132 | One more message with fields free of line breaks is read as one more event with exactly the event name, data and id sent; without an id it has that of the messages before. |
| `Sse.FailureIsRead` | backend/server/api/sse.py:83-91 | When the source of the items fails, the client reads the items and then the error. |
| `Sse.FeedFrame` | backend/server/api/sse.py:116-132 | From any boundary state one frame adds its event, updates the last event id and ends at a boundary. |
| `Sse.FeedHeartbeat` | backend/server/api/sse.py:98-102 | A heartbeat changes nothing the reader has. |
| `Sse.StreamResponse` | backend/server/api/sse.py:57-95 | The chunks of all items are sent, then the error frame of a failed source; after a timeout nothing more; and what was sent is read back as the events of its framed items. |
| `JsonDump.DumpDecodes` | backend/server/api/serde.py:162-174 | Decoding the output of a document of strings and structure gives it back with NUL replaced by U+FFFD, spelled-out `\u0000` by spelled-out `\ufffd`, surrogates by question marks, and nothing else changed. |
| `JsonValues.ValueDecodes` | backend/server/api/serde.py:143-174 | The same for values: lists and mappings are sanitised member by member when orjson rejects a surrogate, keys that become equal become one key with the last value, and the output decodes to exactly that value's layout. |
| `JsonReading.TokensRead` | backend/server/api/serde.py:162-168 | The layout of any value is read back, by the grammar of RFC 8259, as that value. |
| `JsonReading.DumpLoads` | backend/server/api/serde.py:162-174 | Loading the output gives the value itself, sanitised if it has surrogates, with every string in normal form: the whole structure comes back. |
| `JsonReading.DumpIsExactIff` | backend/server/api/serde.py:162-174 | Loading gives back exactly what was dumped if and only if no string or key has a surrogate, a NUL or the spelled-out escape of one. |
| `JsonReading.DumpLoadsSanitised` | backend/server/api/serde.py:162-174 | With every key once, loading gives the sanitised value in normal form, whichever branch was taken. |
| `JsonValues.DumpedIsSanitised` | backend/server/api/serde.py:162-168 | What is dumped is the sanitised value whether or not orjson rejected the original. |
| `JsonValues.AcceptedIsClean` | backend/server/api/serde.py:163-166 | orjson accepts exactly the values in which no string or key has a surrogate. |
| `JsonValues.LastValueWins` | backend/server/api/serde.py:143-147 | After sanitising, a key holds the last value that was at a key that becomes it. |
| `JsonValues.PlacesStay` | backend/server/api/serde.py:143-147 | One more field leaves the keys before it in their places and comes last if its key is new. |
| `JsonValues.SurrogatesReplaced` | backend/server/api/serde.py:136-140 | Surrogates, and nothing else, become question marks. |
| `JsonValues.FieldsKeptIff` | backend/server/api/serde.py:146-147 | Sanitising a mapping loses a field if and only if two keys become equal. |
| `JsonValues.SanitisedIsGood` | backend/server/api/serde.py:143-159 | `_sanitise` leaves no surrogate anywhere in the value. |
| `JsonDump.TwoPassesAreOne` | backend/server/api/serde.py:174 | The two replacements together equal the second one alone, for backslash runs of any parity. |
| `JsonDump.DumpIsOnePass` | backend/server/api/serde.py:162-174 | The fast path and the two passes both replace every `\u0000` of the dumped text. |
| `JsonDump.DumpHasNoNul` | backend/server/api/serde.py:169-174 | The output has the length of the dumped text and contains no `\u0000`. |
| `JsonDump.BodyDecodes` | backend/server/api/serde.py:174 | For one string in any context: the replaced escaped body decodes to the normal form and its end is found. |
| `JsonDump.PrintDecodes` | backend/server/api/serde.py:174 | For whole documents of strings and structure. |
| `JsonDump.DumpHasNoLineBreaks` | backend/server/api/serde.py:162-174 | The output has no control character, so it fits on one data line of a server-sent event. |
| `PublishQueue.AttemptsFollowPlan` | backend/server/api/stream.py:723-778 | At every moment the attempts are the first planned events in order, each once; successes plus losses are the finished attempts; the queue is within its bound. |
| `PublishQueue.ReturnMeansAllAttempted` | backend/server/api/stream.py:771-791 | When the consumer returns, every event and then the error event have been attempted; without losses all are published in order. |
| `PublishQueue.PublishedAreTheSuccesses` | backend/server/api/stream.py:723-768 | In every interleaving what has been published is exactly the attempts that succeeded, in the order of the stream, and each failed attempt is one loss. |
| `PublishQueue.ConsumerReturns` | backend/server/api/stream.py:771-791 | No deadlock, even with room for one: until it returns some step is possible, and runs are bounded. |
| `PublishQueue.InlinePublishesAll` | backend/server/api/stream.py:659-690 | Inline publishing without failures publishes the plan. |
| `PublishQueue.InlineStopsAtFailure` | backend/server/api/stream.py:660-702 | The first failing publish ends the stream: what came before it is published, and then the error if its own publish succeeds. |
| `PublishQueue.InlineLosesError` | backend/server/api/stream.py:681-689 | When only the publish of the stream's own error fails, that alone is missing. |
| `PublishQueue.QueueMatchesInline` | backend/server/api/stream.py:704-791 | Without publish failures both ways publish the same sequence. |
| `PublishQueue.StepKeepsInv` | backend/server/api/stream.py:718-791 | Every step conserves the planned events between producer, queue and worker. |
| `PublishQueue.ConsumeInline` | backend/server/api/stream.py:645-701 | The inline loop: a failed publish ends the stream and the error event is tried; the exception is raised again, or counted as one loss if it is a `StreamPublishException`. |
| `PublishQueue.QueuedPublisher.PutNext` | backend/server/api/stream.py:764-769 | One put of the producer. |
| `PublishQueue.QueuedPublisher.WorkerRound` | backend/server/api/stream.py:723-762 | One round of the worker: take, attempt, count. |
| `ObjectKeys.PathRoundTripsIff` | backend/agents/career_agent/object_storage.py:161-191 | Reading back the key of a path gives its normal form if and only if a scope is given or the run's own identity is the default one. |
| `ObjectKeys.KeyRoundTrips` | backend/agents/career_agent/object_storage.py:161-191 | A key that reads back is the key of the path it reads back as, when that is normal without trailing whitespace. |
| `ObjectKeys.ReadBackIff` | backend/agents/career_agent/object_storage.py:177-191 | A key reads back as a path exactly when it is the key of that path under the scope looked for. |
| `ObjectKeys.KeyComesBackIff` | backend/agents/career_agent/object_storage.py:122-134 | The normal form gives the same key again if and only if it does not end in whitespace. |
| `ObjectKeys.KeysDoNotCollide` | backend/agents/career_agent/object_storage.py:161-174 | Equal keys of slash-free owners have the same owner and the same normal form. |
| `ObjectOwners.OwnersShareKeyIff` | backend/agents/career_agent/object_storage.py:161-174 | Two different owners can share a key if and only if one is the other followed by the root of an area and a normal path that is the area or lies in it. |
| `ObjectOwners.EqualKeys` | backend/agents/career_agent/object_storage.py:161-174 | Paths with equal keys have equal owners and normal forms, or owners of which one is so nested in the other; for all owners, with slashes or not. |
| `ObjectOwners.SlashOwnersCollide` | backend/agents/career_agent/object_storage.py:161-174 | The collisions themselves: for every pair of nested owners and every file name the two paths and their common key. |
| `ObjectOwners.SlashFreeOwnersDoNotShare` | backend/agents/career_agent/object_storage.py:161-174 | Owners without slashes never share a key. |
| `ObjectKeys.BuildersAgree` | backend/agents/career_agent/object_storage.py:147-174 | Whenever `key_for_area` accepts a rooted path, `key_for_virtual_path` gives the full path the same key. |
| `ObjectKeys.BuildersAgreeIff` | backend/agents/career_agent/object_storage.py:122-174 | For every registered area and every rooted path both builders give the same answer, key or refusal, if and only if the area-relative path does not both start with `~` and pass the tests for backslashes and `..`. |
| `ObjectKeys.BuildersDisagreeOnTilde` | backend/agents/career_agent/object_storage.py:128-130 | On every path of the failing family the full path has a key and the area-relative one has none. |
| `ObjectKeys.SafeIsNormal` | backend/agents/career_agent/object_storage.py:122-134 | Accepted paths are in normal form: non-empty, no empty, `.` or `..` component, no backslash. |
| `ObjectKeys.SafeIff` | backend/agents/career_agent/object_storage.py:122-134 | Exactly which paths are accepted and as what: the normal form with the same components as the stripped path, unless that has a backslash or begins with a tilde behind its slashes. |
| `ObjectKeys.VirtualKey` | backend/agents/career_agent/object_storage.py:162-175 | A path has a key exactly if it is accepted and leads into a routed area; the key is made of owner, the root of the area, and the normal form. |
| `ObjectKeys.KeyIsOwners` | backend/agents/career_agent/object_storage.py:162-175 | The key begins with the scope's own prefix, without a scope with that of the run's identity, and else with the default one, and ends in the normal form. |
| `ObjectKeys.ScopesAreSeparate` | backend/agents/career_agent/object_storage.py:162-175 | Two different scopes without slashes never share a key. |
| `PyStrings.StripIsExact` | backend/agents/career_agent/object_storage.py:128 | Stripping takes whitespace off both ends, leaves none there, and nothing else. |
| `ObjectBackend.ObjectStoreBackend.AreaFiles` | backend/agents/career_agent/object_backend.py:111-121 | Each file of the area once, and nothing of other areas or owners. |
| `ObjectBackend.ObjectStoreBackend.Ls` | backend/agents/career_agent/object_backend.py:123-151 | Sorted and without duplicates, exactly the files directly in the directory and the immediate subdirectories that lead to files. |
| `ObjectBackend.ObjectStoreBackend.Walk` | backend/agents/career_agent/object_backend.py:123-151 | Following `ls` recursively terminates and finds every file beneath the directory exactly once. |
| `ObjectBackend.ObjectStoreBackend.Write` | backend/agents/career_agent/object_backend.py:181-190 | Accepted exactly for valid paths; afterwards the object of the key holds the content written, over whatever was there, and every other object of the store is as before; refused, nothing changes. |
| `ObjectBackend.ObjectStoreBackend.Delete` | backend/agents/career_agent/object_backend.py:192-214 | Removes exactly the object and its subtree, fails exactly when nothing matches, leaves every other key of the store unchanged. |
| `ObjectBackend.ObjectStoreBackend.UploadFiles` | backend/agents/career_agent/object_backend.py:322-337 | Each file is stored or refused on its own; afterwards each key holds the content of the last file of the list with that key, and every other object of the store is as before. |
| `ObjectBackend.SortEntries` | backend/agents/career_agent/object_backend.py:150 | The sort is sorted by path and a permutation. |
| `ObjectBackend.OneSubdir` | backend/agents/career_agent/object_backend.py:138-140 | A file is under exactly one immediate subdirectory. |
| `ObjectBackend.SameDirectory` | backend/agents/career_agent/object_backend.py:125 | A listing is of the directory whether or not the path has its last slash. |
| `ObjectBackend.DoomedIsSubtree` | backend/agents/career_agent/object_backend.py:199-206 | For a rooted normal path the matching rule of `delete` is the path itself and what is beneath it. |
| `ObjectBackend.DeleteFindsWrittenIff` | backend/agents/career_agent/object_backend.py:181-206 | For every path that `write` accepts: `delete` of the same path matches the file written if and only if the path, slashes at its end aside, already is the normal form that the key builder makes of it. |
| `ObjectBackend.DoubledSlashIsNotFound` | backend/agents/career_agent/object_backend.py:181-206 | The input `//a`: `write` stores it at `/a`, and what `delete` looks for does not match `/a`. |
| `ObjectBackend.WrittenIsShort` | backend/agents/career_agent/object_storage.py:128-134 | The normal form of a rooted path is never longer than the path, slashes at its end aside. |
| `ObjectBackend.UnrootedDeleteFindsNothing` | backend/agents/career_agent/object_backend.py:199-206 | One half of the condition: a path without a leading slash matches nothing in the area. |
| `ObjectBackend.ObjectStoreBackend.WriteThenDelete` | backend/agents/career_agent/object_backend.py:181-214 | A write and a delete of one path leave the file there exactly when the path does not name itself; in an area that was empty, the delete then fails. |
| `Migrations.CrashesKeepPrefix` | backend/server/runtime_postgres/database.py:166-222 | After any crashes at any statement the recorded versions are a prefix of the available ones, each once. |
| `Migrations.MigrateKeepsPrefix` | backend/server/runtime_postgres/database.py:200-220 | One start keeps the prefix; a finished one has executed exactly the missing statements and recorded all versions. |
| `Migrations.FinishedMeansDone` | backend/server/runtime_postgres/database.py:200-220 | A finished start after any crashes has recorded every version, and the next start changes nothing. |
| `Migrations.CompletesIffAscending` | backend/server/runtime_postgres/database.py:184-206 | Finished starts have recorded every version, whatever crashed before, if and only if the listing is in numeric order. |
| `Migrations.OutOfOrderIsLost` | backend/server/runtime_postgres/database.py:205-206 | The failing family: dying after a version listed before a lower one skips the lower one for good. |
| `Migrations.CollectAscending` | backend/server/runtime_postgres/database.py:184-197 | When file names sort as their numbers do, the collected versions ascend strictly. |
| `Migrations.CollectCovers` | backend/server/runtime_postgres/database.py:183-197 | The collected versions are exactly those of the files. |
| `Migrations.ListedFilesAreRecorded` | backend/server/runtime_postgres/database.py:183-220 | From the directory listing to the table: a finished start has recorded every file's version, in order and once. |
| `MigrationFiles.CollectIff` | backend/server/runtime_postgres/database.py:183-197 | The listing is rejected exactly when a name has no variant or two files have the same version and variant; otherwise each variant of a version is the content of its file. |
| `MigrationFiles.CollectDistinct` | backend/server/runtime_postgres/database.py:183-197 | Each version has one entry, in whatever order the files come. |
| `MigrationFiles.StepsRunTheirFiles` | backend/server/runtime_postgres/database.py:199-209 | Each step executes the statements of its version's file of the configured variant, or of the standard one if there is no such file. |
| `MigrationFiles.AllChosenIff` | backend/server/runtime_postgres/database.py:200-204 | There is something to run for every version exactly when each has a standard or a configured file. |
| `MigrationFiles.StartComesTo` | backend/server/runtime_postgres/database.py:200-220 | Exactly what a start that dies after any number of writes has executed and recorded: one missing step after another, and the first statements of the next. |
| `Migrations.SchemaDatabase.RunMigrations` | backend/server/runtime_postgres/database.py:200-220 | The loop over versions and statements computes the run function and keeps the prefix. |
| `SqlSplit.SplitSqlStatements` | backend/server/runtime_postgres/database.py:28-44 | The text is cut exactly where an index statement begins; each stretch between cuts that is not blank, trimmed and otherwise unchanged, is one statement, with a terminator added only where there is none. |
| `SqlSplit.PiecesAreCut` | backend/server/runtime_postgres/database.py:37 | Splitting at the regular expression cuts at the leftmost matches of its language, each as long as it can be, and nowhere else. |
| `SqlSplit.CutsAreUnique` | backend/server/runtime_postgres/database.py:37 | There is one such way to cut a text. |
| `SqlSplit.CoreIsStretch` | backend/server/runtime_postgres/database.py:38-41 | A piece with the match before it, stripped in two steps as the loop does, is the stretch of the text between two cuts without the whitespace around it. |
| `SqlSplit.StretchesAreText` | backend/server/runtime_postgres/database.py:37-44 | The stretches are the text. |
| `SqlPatterns.IndexStatementIsGreedy` | backend/server/runtime_postgres/database.py:28-30 | At every position of every text, matching the expression without backtracking finds the longest text of its language there, if there is one. |
| `SqlSplit.SplitLosesNothing` | backend/server/runtime_postgres/database.py:35-43 | The stripped pieces of the split, empty ones skipped, spell the whole text up to whitespace, whatever the pattern. |
| `SqlSplit.PiecesAreText` | backend/server/runtime_postgres/database.py:37 | `re.split` with one group cuts the text and loses nothing, whatever the pattern. |
| `SqlSplit.StatementsAreTerminated` | backend/server/runtime_postgres/database.py:40-43 | Each statement is a core that is not empty, with a terminator added only where there is none. |
| `SqlSplit.StatementsOf` | backend/server/runtime_postgres/database.py:38-44 | The index loop in steps of two. |
| `Sweep.SweepsAreCoordinated` | backend/server/runtime_postgres/store.py:95-129 | For any number of replicas, any interleaving, failures and crashes, if holders finish before their lock expires: sweeps never overlap, and none begins within a marker lifetime of an earlier sweep's marker. |
| `Sweep.StepKeepsInv` | backend/server/runtime_postgres/store.py:95-129 | Every timely step keeps the lock with the only active replica and the markers in force. |
| `Sweep.OnlyHolderIsActive` | backend/server/runtime_postgres/store.py:105-109 | At most one replica is between taking and giving back the lock. |
| `Sweep.SpacingNeedsRecheck` | backend/server/runtime_postgres/store.py:110-116 | Without the check under the lock a timely run of two replicas violates the spacing. |
| `Sweep.LateHolderOverlaps` | backend/server/runtime_postgres/store.py:105-109 | Without the proviso on lock expiry two replicas can sweep at once. |
| `Sweep.UndisturbedCallSweeps` | backend/server/runtime_postgres/long_query_monitor.py:39-72 | A replica that finds no marker and a free lock does sweep, leaves a marker for exactly its lifetime, and gives the lock back. |
| `Sweep.NextCallWaitsForMarker` | backend/server/runtime_postgres/store.py:96-124 | After such a call the next one, by any replica, is skipped while the marker lives and sweeps from the moment it has expired. |
| `Sweep.SweepReplicas.FirstCheck` | backend/server/runtime_postgres/store.py:96-102 | Skips exactly while the marker lives. |
| `Sweep.SweepReplicas.TakeLock` | backend/server/runtime_postgres/store.py:104-109 | The lock is taken with its expiry. |
| `Sweep.SweepReplicas.SecondCheck` | backend/server/runtime_postgres/store.py:110-116 | When it lets the sweep go on, every earlier marker has expired and no other replica is active. |
| `Sweep.SweepReplicas.StartSweep` | backend/server/runtime_postgres/store.py:118 | The sweep that starts is the only one. |
| `Sweep.SweepReplicas.FinishSweep` | backend/server/runtime_postgres/store.py:118 | The sweep ends; its marker is still to be set. |
| `Sweep.SweepReplicas.Advance` | backend/server/runtime_postgres/store.py:105-109 | Time passes; the invariant survives if it does not pass the expiry of a lock whose owner is at work. |
| `Sweep.SweepReplicas.LeaveMarker` | backend/server/runtime_postgres/store.py:120-124 | The marker lives for its lifetime from now. |
| `Sweep.SweepReplicas.GiveLockBack` | backend/server/runtime_postgres/store.py:105-129 | Leaving the block frees the lock if it is still this replica's; an expired one is left alone and reported, which the call swallows. |
| `HttpMetrics.ExportIsTrue` | backend/server/api/http_metrics.py:113-150 | After any history, whatever the caps dropped, every exported line is true: a counter is the number of accepted requests of its key, each `le` value the number with latency within the bound, sum and count those of the series. |
| `HttpMetrics.ExportIsComplete` | backend/server/api/http_metrics.py:113-150 | For every accepted request its counter, each bucket, the sum and the count of its series are exported with their exact values. |
| `HttpRequests.ExportTellsTheRequests` | backend/server/api/http_metrics.py:62-73 | Every exported line is true of the accepted requests themselves: each `le` value is the number whose milliseconds are at most a thousand times the bound, the sum in milliseconds is the total of theirs, a counter the number with its verb, path and status. |
| `HttpRequests.ExportHasTheRequest` | backend/server/api/http_metrics.py:113-150 | For every accepted request its counter, each bucket, the sum and the count of its series are in the export. |
| `HttpRequests.ExportHasNoMore` | backend/server/api/http_metrics.py:113-150 | The export has one line for each counter key and sixteen for each series, so no line comes twice. |
| `HttpRequests.AcceptedIff` | backend/server/api/http_metrics.py:40-60 | Exactly which requests are accepted: those with a path that no filtered route ends, unless their counter key is new with 5000 known or their series is new with 1000 known. |
| `HttpRequests.TablesHaveKnown` | backend/server/api/http_metrics.py:47-73 | The tables have one entry for each counter key and each series of the accepted requests. |
| `HttpMetrics.BucketsClimbToCount` | backend/server/api/http_metrics.py:136-143 | The bucket values of a series never decrease and end at its count. |
| `HttpMetrics.StatusesSumToCount` | backend/server/api/http_metrics.py:62-73 | Counters of a series summed over statuses equal its histogram count. |
| `HttpMetrics.HistoryKeepsInv` | backend/server/api/http_metrics.py:33-73 | Both tables hold exactly the accepted requests and stay within their caps. |
| `HttpMetrics.KnownIsAccepted` | backend/server/api/http_metrics.py:50-60 | A series and status counted once is never dropped again. |
| `HttpMetrics.CumulativeIsUpTo` | backend/server/api/http_metrics.py:136-143 | The running total up to a bucket is the number of requests within its bound. |
| `HttpMetrics.HTTPMetricsCollector.RecordRequest` | backend/server/api/http_metrics.py:33-73 | Requests without a path or on a filtered route change nothing; after every call the tables are those of the whole history of requests, of which `HttpRequests` says what is exported. |
| `HttpMetrics.HTTPMetricsCollector.StoreIfRoom` | backend/server/api/http_metrics.py:50-73 | Adds the request to both tables exactly when both know its keys or have room. |
| `HttpMetrics.HTTPMetricsCollector.GetMetrics` | backend/server/api/http_metrics.py:111-152 | The export loops produce the lines, each true of the accepted requests. |
| `HttpMetrics.CountLatency` | backend/server/api/http_metrics.py:67-70 | The loop with its break adds one to the first bucket whose bound the latency is within. |
| `HttpMetrics.LinesOf` | backend/server/api/http_metrics.py:136-150 | The accumulating loop exports running totals, then sum and count. |
| `ChannelVersions.ChainIncreases` | backend/server/grpc_common/checkpointer.py:291-300 | Below 10^32 versions a chain of calls is strictly increasing as text, whatever the random tails. |
| `ChannelVersions.ChainCounts` | backend/server/grpc_common/checkpointer.py:291-300 | A chain never fails and its k-th version reads back as the integer k. |
| `ChannelVersions.VersionReads` | backend/server/grpc_common/checkpointer.py:297-300 | Every version reads back as its counter, negative ones included. |
| `ChannelVersions.NextCountsOn` | backend/server/grpc_common/checkpointer.py:291-300 | The next version reads as the counter of the current one plus one, for nothing, a number or a text, and has the tail behind its dot; only a text without a number before its first dot is an error. |
| `ChannelVersions.NextSortsAfterIff` | backend/server/grpc_common/checkpointer.py:298-300 | The next version sorts after this one if and only if it fits 32 digits or does not gain a digit. |
| `ChannelVersions.SameLengthOrder` | backend/server/grpc_common/checkpointer.py:300 | Counters padded to one length sort as numbers, whatever follows them. |

## Left out

- Freshness windows and time-to-live values of the cache, and the parsing of stored entries: plain arithmetic. One event loop; a cache write takes effect before its await ends; the lock may go to any waiter; writes by other processes are an action of their own.
- SwrCoordinator.SwrCoordinator.EnsureSwrLoadTask: which tasks are done and the identity of the new task come in as parameters, because the event loop is not part of the class.
- ASGI `receive`, the scope and the trio event; the order of callbacks is that of `call_soon_threadsafe`, and `aclose` may or may not manage to end the app. Code that sits inside `send` between two statements is one step of the app's loop.
- Quota messages, token prices, `TokenUsage`, `UsageMeter` and the report for the user interface. Costs are reals. Windows are half-open, as the queries' `>` makes them. The number of runs in flight is a parameter.
- SQL text other than the compiler's: a test of the column against a parameter is one token, and the EXISTS wrapper of `thread_owner_clause` is represented by the conjunction inside it.
- AuthFilterTheorems.EqContainment: for a structured match, equality is replaced by containment, which is what the operator computes.
- Sse.FeedHeartbeat: the heartbeat payload is taken to be the comment line `: heartbeat` with its separators, as `sse_starlette` prints it; that library is not part of this model. The byte-order mark and the `retry` field are left out.
- Sse.StreamResponse: says nothing of what is read once a chunk that is already bytes has been sent, and takes a chunk whose sending timed out as not sent.
- Sse.StreamRoundTrips: says nothing of data with line breaks, which the writer does not escape; `Sse.FrameExactIff` says when a single frame is exact.
- JsonDump.DumpDecodes: text is a sequence of code points instead of UTF-8 bytes, escapes of surrogate pairs are left out, and keys that become equal are not merged; `JsonValues.ValueDecodes` merges them.
- JsonValues.ValueDecodes: objects serialised by `default`, named tuples and sets are left out.
- Cancellation of the stream consumers, and failures of logging and gauges. Whether a publish fails, and whether an exception is a `StreamPublishException`, are parameters.
- `read`, `edit`, `glob`, `grep`, sizes and times of files, errors of the object store, and the key-value namespaces.
- ObjectBackend.ObjectStoreBackend.Walk: assumes a bound on the length of the paths, which every finite store has; the bound is ghost.
- The lock around migrations, the store's vector index, a version without any usable variant (the loop raises for it before skipping), and the reading of file names.
- Sweep: the rows swept and the exceptions other than those of the lock; a failed or crashed replica may stop at any point. A marker lifetime of zero is refused by Redis and sets no marker.
- The JSON format and the comment lines of the metrics, label text, and the forwarding to the self-hosted metrics. Latencies are reals; the printed sum's rounding to six digits is left out.
- ChannelVersions.VersionReads: of `int` on a string, only an optional sign and ASCII digits are modelled; surrounding whitespace, underscores and other digits never occur in a version. The random tail is any string.
- Workers, the cron scheduler, agents, middleware, analytics and the frontend: state that lives elsewhere, configuration, or thin glue.
