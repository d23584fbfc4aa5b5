# Verification model of DeinsComplete

A Dafny model of the parts of DeinsComplete, an inline code completion extension and its server, whose
correctness depends on order, state or arithmetic, with proofs about every input, every interleaving or every run:

- **Request manager** (TypeScript). `RequestManager` keeps one live run per document, with debounce, supersession,
  reuse of a run by the same or a continued request, a 60 ms grace timer, an LRU cache, a quick cache and a negative
  cache. `RequestManager.dfy` is the class; each method is the code between two awaits and is proved equal to a step
  function of `ManagerState`. The invariants are proved over all sequences of steps (`ManagerInvariants`,
  `ManagerProtocol`, `ManagerCounters`, `ManagerProvenance`, `ManagerCache`, `ManagerCalls`, on top of `LruCache` and
  `Requests`); `ManagerAnswers` says which requests share a run, what a run returns and for how long it is reused.
- **Streaming chain** (Go to TypeScript). Provider deltas, router fallback, first-line cut, event printer, event parser
  (`StreamingChain`, `RouterLaws`, `CompletionStream`, `CompletionService`, `EventStream`; `JsonText` holds a codec that
  meets the assumption made on JSON).
- **Admission arithmetic** (Go, Redis). Token buckets with eviction or expiry, the daily tracker, the monthly tracker
  (`RateLimit`, `DailyUsage`, `MonthlyUsage`).
- **Account protocol** (Go, SQL). Login, refresh-token rotation and logout; link, mark and merge of an installation.
  Each statement or transaction is one atomic step, requests are threads that interleave and may crash between steps
  (`AccountSessions`, `SessionLaws`, `AccountLinks`, `LinkLosses`; `MonthlyQuota` bounds the monthly counters over the
  same runs).
- **Sanitizer and context windows** (Go, TypeScript). `GoStrings`, `TextLaws`, `Sanitizer`, `SanitizerLaws`,
  `ContextWindows`, `RepositoryFiles`, `RequestLimits`.

Five properties one might expect do not hold of the code; each has a witness and the exact condition:

- A cancelled run can still reach the engine: `ManagerProtocol.CancelledRunReachesEngine`. Over all steps it gets there
  exactly by its context settling while the cache misses (`AbortedRunReachesEngineExactlyWhen`); otherwise it returns a
  late cache hit (`AbortedRunStillProceeds`). A run cancelled while debouncing returns null
  (`AbortedWhileDebouncingEnds`), and no cancelled run stores (`AbortedRunStoresNothing`).
- A charge to an installation can be missing from its owner's counter: when a completion overlaps a link
  (`LinkLosses.OverlapLosesTheCharge`), when the month ends between merge and charge (`MonthEndLosesTheCharge`), and when
  a link call crashes between mark and merge (`CrashLosesTheCharge`); charges of months before the link stay with the
  installation. What is missing in any reachable state is exactly
  what no merge of the same month follows (`LossIsExactlyStranded`); a charge can still be taken over exactly while the
  row is unmarked and active or about to be marked, or a merge is about to run (`ChargeCanBeTakenOverExactlyWhen`).
- The limiter's 24-hour eviction is observable for some rates: exactly those whose burst a day does not refill
  (`RateLimit.EvictionUnobservableExactlyWhen`). No rate within the configured ranges is one of them.
- The Redis limiter's five-minute expiry is observable exactly for rates whose burst five minutes do not refill
  (`RateLimit.ExpiryUnobservableExactlyWhen`). The configured ranges allow such rates, for example one request a minute
  with a burst of 1000.
- Waiting for the in-memory retry hint does not always suffice (`RateLimit.HintFallsShort`): it does exactly when what is
  missing refills in a whole number of nanoseconds (`HintIsSharp`).

Times are integers that never go backwards, token counts are real numbers, digests are injective. `dafny verify
dfyconfig.toml` checks the whole project.

## Model

| member | source | states |
|---|---|---|
| Requests.ContinuationMeans | src/completion/requestManager.ts:121-125 | A continuation is the base request after 1 to 64 more characters on one line, in both directions. |
| Requests.SameKeyExactlyWhen | src/completion/requestManager.ts:106-107 | Two requests share a key exactly when language, style and context agree, and the last 2000 units before and first 1000 after the cursor. |
| Requests.RefineActiveAddsUp | src/completion/requestManager.ts:127-131 | Refining gives a result exactly when the answer starts with what was typed, and typed plus delivered is the answer. |
| Requests.RefineActiveTwice | src/completion/requestManager.ts:127-131 | Refining for two keystrokes in turn is refining once for both. |
| LruCache.DeleteThenSetIsPut | src/completion/requestManager.ts:108-110 | Delete followed by set on an insertion-ordered map moves the key behind all others, whatever its place was. |
| LruCache.OrderedByRecency | src/completion/requestManager.ts:108-110 | After any history of stores, reads and clears the slots stand in order of last store or hit, each key once. |
| LruCache.StoreIsBounded | src/completion/requestManager.ts:110 | After a store the cache is within its bound and holds the new slot. |
| LruCache.StoreEvictsLeastRecent | src/completion/requestManager.ts:110 | Every key a store loses was last touched before every other key that stays. |
| LruCache.StoreEvictsAtMostOne | src/completion/requestManager.ts:110 | Within the bound, one store loses at most one key. |
| LruCache.AlwaysBounded | src/completion/requestManager.ts:110 | After any history the cache is within the largest bound that its stores used. |
| LruCache.OneBoundEvictsAtMostOne | src/completion/requestManager.ts:110 | Under one bound, every store of any history loses at most one key. |
| LruCache.HoldsLastStored | src/completion/requestManager.ts:108-110 | Every slot held is the one last stored under its key since the last clear. |
| LruCache.HitIsLastStored | src/completion/requestManager.ts:108 | A hit is the last stored, unexpired value; a store that never evicts returns the same. |
| LruCache.WithinUnbounded | src/completion/requestManager.ts:108-110 | The cache never holds a slot that a store without eviction would not. |
| LruCache.FittingCacheIsUnbounded | src/completion/requestManager.ts:108-110 | While the bound is not exceeded the cache equals the store without eviction. |
| LruCache.MissIsAnEviction | src/completion/requestManager.ts:108-110 | A miss the store without eviction would have answered is due to an eviction of that very key. |
| ManagerInvariants.CompleteAndCancelAlwaysEnabled | src/completion/requestManager.ts:21-43 | In a reachable state `active` never dangles, so no request or cancel is stuck. |
| ManagerInvariants.NextInv | src/completion/requestManager.ts:21-104 | Every step keeps: live runs are current, a pending timer means the latest consumer has gone after the backend started. |
| ManagerInvariants.RunsKeepInv | src/completion/requestManager.ts:21-104 | ... over every sequence of steps. |
| ManagerProtocol.OneLiveRunPerDocument | src/completion/requestManager.ts:29-45 | In every reachable state a document has at most one unfinished, un-aborted run; `active` holds it and it is the newest. |
| ManagerProtocol.OnlyNewestRunInserts | src/completion/requestManager.ts:91-93 | A step that adds to any of the three caches is an engine return of the live, newest run of its document. |
| ManagerProtocol.ActiveRunLeavesOnlyBy | src/completion/requestManager.ts:32-38 | A run leaves `active` only by finishing itself, by being replaced and aborted by a newer one, or by dispose. |
| ManagerProtocol.NoRunRevives | src/completion/requestManager.ts:97-101 | No step but a request makes runs, and no finished or aborted run comes to life. |
| ManagerProtocol.DisposeIsQuiet | src/completion/requestManager.ts:42-45 | After dispose nothing is cached and no run is live. |
| ManagerProtocol.DisposedStaysEmpty | src/completion/requestManager.ts:42-45 | ... and that stays so whatever the runs in flight do, until a request is made. |
| ManagerProtocol.NothingAfterDispose | src/completion/requestManager.ts:42-45 | ... in every run of the manager. |
| ManagerProtocol.AbortedExactlyBy | src/completion/requestManager.ts:57-69 | A run is aborted exactly by supersession, an explicit cancel, or the signal of the consumer that is latest then, in both directions. |
| ManagerProtocol.TimerStartsExactlyBy | src/completion/requestManager.ts:57-64 | A grace timer starts exactly when the latest consumer goes after the backend has started, for 60 ms. |
| ManagerProtocol.PendingTimerMeansLatestGone | src/completion/requestManager.ts:57-64 | In every reachable state a pending timer means the backend started and the latest consumer has gone. |
| ManagerProtocol.JoiningClearsTimer | src/completion/requestManager.ts:48-55 | Joining before the timer fires stops it and neither aborts nor replaces the run. |
| ManagerProtocol.AbortedRunStillProceeds | src/completion/requestManager.ts:78-89 | A run aborted while waiting for context goes to the engine exactly when the cache misses, else returns the late hit. |
| ManagerProtocol.AbortedRunReachesEngineExactlyWhen | src/completion/requestManager.ts:71-104 | Over all steps, an aborted run comes to the engine exactly by its context settling while the cache misses. |
| ManagerProtocol.AbortedRunStoresNothing | src/completion/requestManager.ts:91 | Whatever the engine returns to an aborted run, no cache changes and null is returned. |
| ManagerProtocol.CancelledRunReachesEngine | src/completion/requestManager.ts:78-89 | For every document and every request that waits for its repository context there is a run of the manager in which a cancelled run is at the engine. |
| ManagerAnswers.RequestJoinsExactlyWhen | src/completion/requestManager.ts:29-55 | A request that no cache answers joins the document's run exactly when that has its key, or is at the backend and the request continues it; any other starts a run and aborts the one before. What joining and starting change. |
| ManagerAnswers.DisposedStartsAnew | src/completion/requestManager.ts:45 | After `dispose` every request starts a run of its own. |
| ManagerAnswers.AnsweredAtOnceExactlyWhen | src/completion/requestManager.ts:23-27 | Which requests are answered without a run, and from where: exactly by a fresh quick entry, a fresh entry of the key, an entry that offers a continuation, or a remembered failure. |
| ManagerAnswers.RefineIsNewestOffer | src/completion/requestManager.ts:111 | A continuation is answered with what the most recent fitting entry has left after the characters typed; with nothing only when no entry fits. |
| ManagerAnswers.ContextIsTakenUp | src/completion/requestManager.ts:78-89 | A live run asks the engine with the context that came in time, unless the cache then has the answer, which it returns. |
| ManagerAnswers.UndisturbedRunAsksTheEngine | src/completion/requestManager.ts:71-89 | Left alone, a live run reaches the engine with its request and context, whatever state the manager is in. |
| ManagerAnswers.LiveRunReturnsTheAnswer | src/completion/requestManager.ts:89-103 | What the engine returns is what a live run returns, and the document is free again; nothing is stored when caching is off or the engine throws. |
| ManagerAnswers.QuickAnswersExactlyFor | src/completion/requestManager.ts:109-110 | An answer serves requests whose context is still gathered for two seconds, and no longer than the time to live; exactly. |
| ManagerAnswers.CacheAnswersExactlyFor | src/completion/requestManager.ts:108-110 | An answer serves the same request exactly as long as the time to live. |
| ManagerAnswers.TypingOnIsAnswered | src/completion/requestManager.ts:110-111 | A request that typed on into an answer gets what is left of it. |
| ManagerAnswers.NothingIsRememberedExactlyFor | src/completion/requestManager.ts:26-27 | An empty answer is remembered for two seconds, unless a cache answers; exactly. |
| ManagerCalls.SettledCallsGotTheRunsAnswer | src/completion/requestManager.ts:40-55 | In every run: a settled call got what its run returned, a continuation what is left of it after the characters typed since. |
| ManagerCalls.EachWayIsCounted | src/completion/requestManager.ts:21-55 | In every run: cache hits, remembered failures, joined and settled calls are as many as their counters say, and no call is answered twice. |
| ManagerCounters.CountersBalance | src/completion/requestManager.ts:17-104 | Requests plus late hits are hits, negative hits, reuses and runs; succeeded, cancelled and backend counts bound each other. |
| ManagerProvenance.EveryDeliveryIsJustified | src/completion/requestManager.ts:21-40 | In every run each non-null text delivered comes from an engine answer for a request with equal key parts or extended prefix. |
| ManagerProvenance.JustifiedTextAddsUp | src/completion/requestManager.ts:111-131 | ... and what was typed since, followed by the delivered text, is that answer. |
| ManagerCache.CacheIsItsHistory | src/completion/requestManager.ts:24-110 | In every run the manager's cache is the LRU cache of the stores and reads made, so the LRU laws apply to it. |
| ManagerCache.CacheStaysBounded | src/completion/requestManager.ts:92-110 | In every run of the manager the cache stays within the largest bound configured. |
| RequestManager.RequestManager.constructor | src/completion/requestManager.ts:11-19 | A new manager is the initial state of the step system. |
| RequestManager.RequestManager.Get | src/completion/requestManager.ts:108 | The in-place lookup is the LRU read. |
| RequestManager.RequestManager.GetQuick | src/completion/requestManager.ts:109 | The quick lookup drops an expired entry, returns a valid one. |
| RequestManager.RequestManager.StoreSlot | src/completion/requestManager.ts:110 | Delete, set and the eviction loop are the LRU store. |
| RequestManager.RequestManager.EvictOverflow | src/completion/requestManager.ts:110 | The loop drops oldest keys until the bound is met, and no more. |
| RequestManager.RequestManager.Set | src/completion/requestManager.ts:110 | Both caches get the entry, the quick one for at most 2 s. |
| RequestManager.RequestManager.RefineFromCache | src/completion/requestManager.ts:111 | The backward loop returns what the most recent fitting slot gives. |
| RequestManager.RequestManager.ClearCache | src/completion/requestManager.ts:42 | All three caches are emptied, nothing else changes. |
| RequestManager.RequestManager.AbortNow | src/completion/requestManager.ts:68-69 | The run is aborted and its timer cleared, no other run changes. |
| RequestManager.RequestManager.OnAbortSignal | src/completion/requestManager.ts:58-63 | A stale consumer's signal does nothing; the latest one's aborts or starts the timer. |
| RequestManager.RequestManager.BindCancellation | src/completion/requestManager.ts:57-66 | An already fired signal acts at once, else a listener is registered. |
| RequestManager.RequestManager.SourceAborted | src/completion/requestManager.ts:58-64 | The registered listener runs once. |
| RequestManager.RequestManager.GraceTimerFired | src/completion/requestManager.ts:62 | The timer aborts its run. |
| RequestManager.RequestManager.Cancel | src/completion/requestManager.ts:43 | Only the document's active run is aborted. |
| RequestManager.RequestManager.CancelAll | src/completion/requestManager.ts:44 | The loop aborts exactly the active runs, in any order. |
| RequestManager.RequestManager.Dispose | src/completion/requestManager.ts:45 | Abort all, then forget runs and caches. |
| RequestManager.RequestManager.Reuse | src/completion/requestManager.ts:48-55 | A joining call becomes the latest consumer. |
| RequestManager.RequestManager.StartRun | src/completion/requestManager.ts:34-39 | A new run with the next id becomes the active one. |
| RequestManager.RequestManager.JoinOrStart | src/completion/requestManager.ts:29-39 | Same key or continuation joins; otherwise the old run is aborted first. |
| RequestManager.RequestManager.FromCaches | src/completion/requestManager.ts:24 | Which cache answers, and which is consulted. |
| RequestManager.RequestManager.Complete | src/completion/requestManager.ts:21-40 | One request is one step of the system, with the answer the state determines. |
| RequestManager.RequestManager.Settle | src/completion/requestManager.ts:53-54 | The attached call gets the run's value, refined for a continuation. |
| RequestManager.RequestManager.FinishRun | src/completion/requestManager.ts:97-103 | The cleanup counts a cancelled run and removes it from `active` only where it is current. |
| RequestManager.RequestManager.CallEngine | src/completion/requestManager.ts:85-89 | The backend is marked as started and counted. |
| RequestManager.RequestManager.DebounceElapsed | src/completion/requestManager.ts:75-78 | The code after the first await. |
| RequestManager.RequestManager.Recompute | src/completion/requestManager.ts:80-81 | An aborted run keeps its context; the local key changes, the key of the active record does not. |
| RequestManager.RequestManager.ContextSettled | src/completion/requestManager.ts:79-89 | The code after the second await, for aborted runs as well. |
| RequestManager.RequestManager.EngineReturned | src/completion/requestManager.ts:91-96 | The code after the third await. |
| RequestManager.RequestManager.RecordResult | src/completion/requestManager.ts:92-94 | A result is cached and counted, a null result goes to the negative cache. |
| EventStream.FindBlankIsFirst | src/api/deinsCompleteClient.ts:84 | The separator found is the first blank line. |
| EventStream.SplitAppend | src/api/deinsCompleteClient.ts:83-84 | Splitting what has arrived and later the carried-over rest with more is splitting the whole, cuts inside a separator included. |
| EventStream.RestHasNoBlank | src/api/deinsCompleteClient.ts:84 | What is carried over never holds a complete event. |
| EventStream.HandleEvents | src/api/deinsCompleteClient.ts:85-92 | The inner loop folds the events in order and stops at the first reply. |
| EventStream.StreamComplete | src/api/deinsCompleteClient.ts:77-96 | However the stream is cut, the client's reply is a function of the whole stream. |
| EventStream.ReplyIsFinal | src/api/deinsCompleteClient.ts:85-93 | Replying early, before the stream has ended, is safe: later data cannot change the reply. |
| EventStream.TypeField | src/api/deinsCompleteClient.ts:86 | The parser reads the printed event type. |
| EventStream.DataField | src/api/deinsCompleteClient.ts:86 | The parser reads the printed JSON text. |
| EventStream.BodyHasNoBlank | api/internal/http/handlers/stream.go:66-75 | A printed event ends at its own separator and nowhere before. |
| EventStream.PrintedEventsAreSeen | api/internal/http/handlers/stream.go:66-75 | The client's pieces are exactly the printed events, in order. |
| EventStream.ParsingUndoesPrinting | src/api/deinsCompleteClient.ts:81-95 | For every cut of a printed stream the client does what the printed events mean, and fails without a `done`. |
| EventStream.AnyEventIsHandled | src/api/deinsCompleteClient.ts:85-92 | What the client does about an event of any kind and data: invalid JSON, JSON that is no object, unknown kinds, missing fields. |
| EventStream.EventWithoutDataIsSkipped | src/api/deinsCompleteClient.ts:86 | An event without data is passed over. |
| EventStream.FieldEndsExactlyAt | src/api/deinsCompleteClient.ts:86 | Which characters end a field's value. |
| EventStream.FieldStartsExactlyAfter | src/api/deinsCompleteClient.ts:86 | Which characters are skipped before a field's value. |
| StreamingChain.ChunkDelivers | api/internal/completion/service.go:51-74 | After one delta what is delivered is what is kept; a stop means the kept text is the first line. |
| StreamingChain.FeedDelivers | api/internal/completion/service.go:51-78 | However the output is cut, on success the chunks add up to the sanitizer's input: all of it, or its first line. |
| StreamingChain.SilentTurn | api/internal/completion/router/router.go:58-69 | A target that emitted nothing leaves no trace in what is delivered or kept. |
| StreamingChain.TurnDelivers | api/internal/completion/router/router.go:58-76 | A target that succeeds delivers its whole output or its first line. |
| StreamingChain.RouterStreamsFromOne | api/internal/completion/router/router.go:50-87 | For any targets: at most one emits, at most `max` are called, each later one only after eligible silent failures. |
| StreamingChain.RouterDelivers | api/internal/completion/router/router.go:50-87 | On success what is delivered is the output of the one target that emitted, or its first line. |
| RouterLaws.RouterFallsBack | api/internal/completion/router/router.go:53-90 | After targets that failed without text by one of the five errors the router goes on exactly while there is a target, the maximum allows it and the context lasts; otherwise it returns the context's error or the last target's. |
| RouterLaws.OtherErrorsEndTheStream | api/internal/completion/router/router.go:64-85 | Any other error, and the cancellation of a streaming target, ends the stream with it. |
| RouterLaws.FirstGoodTargetIsDelivered | api/internal/completion/router/router.go:53-90 | The first target that does not fail is delivered, whole or its first line, after any number of failed ones. |
| RouterLaws.NoFallbackAfterText | api/internal/completion/router/router.go:64-69 | A target that has sent text is the last one, whatever its error. |
| RouterLaws.FailedWriteEndsTheStream | api/internal/completion/service.go:63-66 | For all targets: what was delivered are the successful writes, and a write that fails ends the stream with its error. |
| RouterLaws.ProviderStopsExactlyBy | api/internal/completion/service.go:51-74 | A provider is stopped exactly by a failed write, a complete line, or the end of the context, at the first such delta. |
| RouterLaws.ProviderReadsUpToTheEnd | api/internal/completion/providers/openai/provider.go:201-236 | The deltas are all the text up to the line that ends or breaks the input; how each ends the stream. |
| CompletionStream.Session.Write | api/internal/http/handlers/stream.go:49-51 | Writing a chunk records it unless the connection fails. |
| CompletionStream.Session.OnChunk | api/internal/completion/service.go:51-74 | The callback, updating the captured text in place, is the step function of the chain. |
| CompletionStream.PassDeltas | api/internal/completion/providers/openai/provider.go:222-228 | Non-empty deltas go to the callback until it fails. |
| CompletionStream.OpenAiStream | api/internal/completion/providers/openai/provider.go:203-236 | The scan loop feeds exactly the deltas before `[DONE]`, malformed data or a read error. |
| CompletionStream.StreamDeltas | api/internal/completion/router/router.go:59-62 | The emitted flag is true exactly when some passed delta had text. |
| CompletionStream.RouteStream | api/internal/completion/router/router.go:50-87 | The streaming loop, with its early returns, is the router of the chain. |
| CompletionStream.RouteComplete | api/internal/completion/router/router.go:24-49 | At most `max` targets in order, a further one only after an eligible error; which error or answer is returned, and the only reasons to call none. |
| CompletionStream.ServeStream | api/internal/http/handlers/stream.go:49-59 | The response is the chunks, then `done` with the sanitized text, or `error`, or nothing for a gone request. |
| CompletionStream.ClientGetsSanitizedOutput | api/internal/completion/service.go:44-79 | End to end, for any sanitizer and single-line decision: for every cut of the provider's output and of the response, the client's text is the sanitizer of the kept output. |
| CompletionStream.ClientSeesTheFailure | api/internal/http/handlers/stream.go:49-59 | End to end: when the stream fails, the client learns of the failure, or that the stream ended early, and never takes a partial text for a completion. |
| CompletionService.ClientGetsPresentableText | api/internal/completion/service.go:44-101 | The same with the sanitizer in place and the request's single-line decision: the client's text is presentable, one line for a single-line intent. |
| CompletionService.SingleLineExactlyWhen | api/internal/completion/service.go:88-101 | Which intents and focuses ask for one line, in terms of the lines that they allow as intents. |
| AccountSessions.Repository.ConsumeMagicCode | api/internal/account/repository.go:174-181 | A live code is consumed and gives its email; any other changes nothing. |
| AccountSessions.Repository.CreateSession | api/internal/account/repository.go:183-189 | Inserts one session; the unique token hash refuses a second. |
| AccountSessions.Repository.FindActiveSessionByTokenHash | api/internal/account/repository.go:190-197 | Found exactly when unrevoked and unexpired. |
| AccountSessions.Repository.RotateSession | api/internal/account/repository.go:198-224 | Revocation and replacement commit together or not at all. |
| AccountSessions.Repository.RevokeSessionByTokenHash | api/internal/account/repository.go:225-228 | Revokes the session of that hash only. |
| AccountSessions.VerifyMagicCode | api/internal/account/service.go:87-114 | The call is its steps run one after another. |
| AccountSessions.Refresh | api/internal/account/service.go:115-136 | The find step, then the rotate step. |
| AccountSessions.Logout | api/internal/account/service.go:137-142 | One revocation. |
| AccountSessions.RunsKeepInv | api/internal/account/service.go:87-142 | Chains, exchanges and codes stay consistent over every interleaving and crash. |
| AccountSessions.TokenExchangedAtMostOnce | api/internal/account/service.go:115-136 | Over every interleaving a refresh token is exchanged at most once and its session is then inactive. |
| AccountSessions.CodeYieldsAtMostOneLogin | api/internal/account/service.go:87-100 | One magic code yields at most one session. |
| AccountSessions.LoginIsTheCodesAccount | api/internal/account/service.go:87-100 | Over every interleaving a login, and every session rotated from it, is for the account that its code was mailed to. |
| AccountSessions.ChainHasOneActiveSession | api/internal/account/repository.go:198-224 | A rotation chain keeps its user and has at most one active session. |
| AccountSessions.RevokedStaysRevoked | api/internal/account/repository.go:174-228 | No step deletes a session, changes its user or expiry, or undoes a revocation. |
| AccountSessions.RevokedForever | api/internal/account/repository.go:174-228 | A revoked session is never active again. |
| AccountSessions.RotationMovesTheSession | api/internal/account/repository.go:198-224 | A successful rotation hands user and chain to the new token and touches no other session. |
| AccountSessions.ActiveSessionsNeverOutnumberLogins | api/internal/account/service.go:87-142 | In every reachable state there are at most as many active sessions as logins. |
| SessionLaws.LoginExactlyWhen | api/internal/account/service.go:87-101 | A login succeeds exactly with a usable code mailed to the address given, of an active account; the code is used up even when the rest fails. |
| SessionLaws.MailedCodeLogsIn | api/internal/account/repository.go:164-184 | A mailed code logs its account in exactly until it expires. |
| SessionLaws.RefreshExactlyWhen | api/internal/account/service.go:115-136 | A refresh succeeds exactly with a session neither revoked nor expired; otherwise nothing changes. |
| SessionLaws.ExpiredTokenIsRefused | api/internal/account/repository.go:190-210 | Under any interleaving both statements refuse an expired session. |
| SessionLaws.LiveTokenIsExchanged | api/internal/account/repository.go:198-224 | Under any interleaving a live session is exchanged for a fresh token. |
| SessionLaws.LogoutRevokes | api/internal/account/service.go:137-142 | A logout revokes the session and no other. |
| SessionLaws.DeadIsNeverExchanged | api/internal/account/repository.go:198-228 | Over all runs: a session once revoked or expired is never exchanged again. |
| SessionLaws.NothingIsUsedAfterItsExpiry | api/internal/account/repository.go:174-224 | Over all runs: every exchange came before its session's expiry, and every login used its code before that expired. |
| MonthlyUsage.MonthlyInMemory.CheckAndConsume | api/internal/usage/monthly.go:26-37 | Allowed exactly when the amount fits, and then charged to the month's key. |
| MonthlyUsage.MonthlyInMemory.MergeInstallationIntoUser | api/internal/usage/monthly.go:43-53 | The first merge of a pair adds the counter, later ones change nothing. |
| MonthlyQuota.CountersStayWithinQuota | api/internal/usage/monthly.go:26-53 | Over all interleavings: charged under limits of at most L, an installation's counter never exceeds L, a user's exceeds it at most by what merges added. |
| MonthlyQuota.ChargedExactlyWhenItFits | api/internal/usage/monthly.go:26-37 | In every reachable state a charge goes through exactly when the month's charges and merges of the subject leave room. |
| MonthlyQuota.CompletionIsCharged | api/internal/http/middleware/monthly.go:18-31 | A completion is charged to the owner, or to an installation without one, unless revoked or out of quota. |
| AccountLinks.Repository.LinkInstallation | api/internal/account/repository.go:262-286 | Sets the owner of an active, unowned or own row, and otherwise says which error. |
| AccountLinks.Repository.MarkInstallationUsageLinked | api/internal/account/repository.go:287-290 | True for exactly one call per row. |
| AccountLinks.Repository.RevokeInstallation | api/internal/account/repository.go:291-300 | Only the owner's active row is revoked. |
| AccountLinks.Repository.AdminRevokeInstallation | api/internal/account/repository.go:427-436 | Revokes the active row whoever owns it, or nobody does; any other row stays. |
| AccountLinks.LinkInstallation | api/internal/account/service.go:155-172 | The call is link, mark and merge in turn. |
| AccountLinks.RunsKeepInv | api/internal/account/service.go:155-172 | Owner, mark, pending merge and counters stay consistent over every interleaving, crash and month change. |
| AccountLinks.OwnerStaysPut | api/internal/account/repository.go:262-300 | No step changes a set owner, clears the mark or reactivates a row. |
| AccountLinks.OwnerForever | api/internal/account/repository.go:262-286 | Once set, the owner is the same in every later state. |
| AccountLinks.RevokedForGood | api/internal/account/repository.go:262-300 | Whatever follows a revocation: the owner stays, no link is accepted and no completion charged. |
| AccountLinks.MergedAtMostOnceIntoOwner | api/internal/account/service.go:161-167 | An installation is merged at most once, into its owner, with exactly what it had been charged that month. |
| AccountLinks.CounterIsChargesPlusMerges | api/internal/usage/monthly.go:26-53 | A user's monthly counter is the user's charges plus what each merge took over. |
| LinkLosses.MergedPlusStranded | api/internal/usage/monthly.go:43-53 | What merges into a user took over, plus what no merge of the month follows, is all that the owned installations were charged. |
| LinkLosses.LossIsExactlyStranded | api/internal/http/middleware/monthly.go:18-22 | In every reachable state a counter falls short of all charges to its user and owned installations by exactly the stranded ones; nothing is missing iff a merge of the month follows each. |
| LinkLosses.NothingIsLost | api/internal/account/service.go:155-172 | Without crash and overlap: every owned installation is merged, no charge follows its merge, and a month is complete iff its installations were merged in it. |
| LinkLosses.ChargeCanBeTakenOverExactlyWhen | api/internal/account/repository.go:262-290 | A charge to an installation can still reach its owner exactly while its row is unmarked and linkable, or a merge is about to run. |
| LinkLosses.OverlapLosesTheCharge | api/internal/http/middleware/installation.go:24-33 | For every installation, user and limit there is a run without failure in which a charge is lost for good. |
| LinkLosses.MonthEndLosesTheCharge | api/internal/usage/monthly.go:43-56 | The same when the month ends between the merge and the charge. |
| LinkLosses.CrashLosesTheCharge | api/internal/account/repository.go:287-290 | A link call that crashes between mark and merge loses the charges for good. |
| RateLimit.InMemory.DeleteStale | api/internal/ratelimit/limiter.go:36-40 | The loop removes exactly the buckets unused for more than a day. |
| RateLimit.InMemory.Refilled | api/internal/ratelimit/limiter.go:41-46 | The bucket's level at this moment, full when there is none. |
| RateLimit.InMemory.Take | api/internal/ratelimit/limiter.go:32-55 | Eviction, refill, answer and write-back, from the buckets as they are. |
| RateLimit.InMemory.Allow | api/internal/ratelimit/limiter.go:32-55 | The answer is what the object's calls so far determine, and under a rate that a day refills, that of a bucket never evicted. |
| RateLimit.EvictionIsUnobservable | api/internal/ratelimit/limiter.go:36-46 | Every answer is that of buckets that are never evicted, when a day refills the burst. |
| RateLimit.EvictionUnobservableExactlyWhen | api/internal/config/config.go:374-387 | ... and only then: otherwise some history tells the difference. |
| RateLimit.WindowBound | api/internal/ratelimit/limiter.go:32-55 | In any window an id is admitted at most burst plus perMinute times the minutes of the window, for every history. |
| RateLimit.RemainingIsHonest | api/internal/ratelimit/limiter.go:52-54 | Exactly as many more requests are admitted at the same instant as the answer says remain; a new id has the whole burst. |
| RateLimit.ScriptAgrees | api/internal/ratelimit/redis.go:19 | The script answers like the in-memory limiter, with hints at most one nanosecond longer. |
| RateLimit.AdmittedFrom | api/internal/ratelimit/limiter.go:48-51 | After a denial a request is admitted from the exact instant one token is there. |
| RateLimit.HintIsSharp | api/internal/ratelimit/limiter.go:50 | Denied before the hint, admitted one nanosecond after it, at the hint iff what is missing refills in whole nanoseconds. |
| RateLimit.HintFallsShort | api/internal/ratelimit/limiter.go:50 | A history at seven requests a minute with burst 1: the second of two calls at once is denied, and so is the call at the instant its hint names. |
| RateLimit.Redis.RunScript | api/internal/ratelimit/redis.go:19 | The script, read as one step, stores the touched bucket and sets the deadline. |
| RateLimit.Redis.Allow | api/internal/ratelimit/redis.go:19-32 | The answer is what the calls so far determine, and under a rate that five minutes refill, that of a key never dropped. |
| RateLimit.ScriptHintSuffices | api/internal/ratelimit/redis.go:19-32 | Waiting exactly the rounded-up hint suffices, and nothing less does. |
| RateLimit.ExpiryIsUnobservable | api/internal/ratelimit/redis.go:19-32 | The five-minute expiry changes no answer whenever burst is at most 5 times perMinute. |
| RateLimit.ExpiryUnobservableExactlyWhen | api/internal/ratelimit/redis.go:19-32 | ... and only then: otherwise some history tells the difference. |
| DailyUsage.InMemory.DeleteStale | api/internal/usage/tracker.go:37-41 | The loop removes exactly the entries unused for more than 24 hours. |
| DailyUsage.InMemory.Consume | api/internal/usage/tracker.go:36-53 | Eviction, check and write-back, from the entries as they are. |
| DailyUsage.InMemory.CheckAndConsume | api/internal/usage/tracker.go:33-54 | Allowed exactly when the amount fits what the object's calls so far were allowed to the id today. |
| DailyUsage.EvictionSparesToday | api/internal/usage/tracker.go:37-46 | Eviction never drops a count of the current UTC day. |
| DailyUsage.TrackerIsTable | api/internal/usage/tracker.go:33-54 | The tracker answers exactly like a table of allowed sums per day and id. |
| DailyUsage.NeverOverLimit | api/internal/usage/tracker.go:33-54 | On an ordered clock the tracker's answers never allow an id more than the limit from one UTC midnight to the next. |
| DailyUsage.AllowedExactlyWhenItFits | api/internal/usage/tracker.go:42-53 | A request is allowed exactly when its amount fits what the answers have allowed since midnight; the count reported is that sum. |
| DailyUsage.DayIsFromMidnight | api/internal/usage/tracker.go:42 | A day is the 24 hours from midnight to midnight. |
| GoStrings.JoinSplit | api/internal/completion/sanitizer/sanitizer.go:72-97 | Joining the lines of a text gives the text back. |
| GoStrings.SplitJoin | api/internal/completion/sanitizer/sanitizer.go:72-97 | Splitting joined lines gives the lines back. |
| GoStrings.BlankIsAllSpace | api/internal/completion/sanitizer/sanitizer.go:74-79 | A line trims to nothing if and only if it is white space only. |
| GoStrings.PrefixLines | api/internal/completion/sanitizer/sanitizer.go:135-144 | A cut changes only the last line it leaves. |
| TextLaws.SpaceIsUnicodeSpace | api/internal/completion/sanitizer/sanitizer.go:72-81 | White space is the UTF-8 encodings of the white-space code points. |
| TextLaws.TrimTakesSpaces | api/internal/completion/sanitizer/sanitizer.go:35 | Trimming takes white-space characters off both ends, one by one. |
| TextLaws.TrimTakesNothingElse | api/internal/completion/sanitizer/sanitizer.go:35 | A text without white space at its ends is not trimmed. |
| TextLaws.LineEndIsNormalized | api/internal/completion/sanitizer/sanitizer.go:18-20 | Each of the three line ends becomes one line feed. |
| TextLaws.RefusedExactlyWhenForeign | api/internal/completion/sanitizer/sanitizer.go:34-46 | A text is refused exactly when it opens with a word foreign to its language's group. |
| TextLaws.AnnouncementComesOff | api/internal/completion/sanitizer/sanitizer.go:62-71 | An announcing first line comes off, in any case and spacing; no other does. |
| TextLaws.OnlyBlankLinesGo | api/internal/completion/sanitizer/sanitizer.go:72-97 | Trimming and collapsing lose no line that is not blank. |
| TextLaws.CutsKeepTheStart | api/internal/completion/sanitizer/sanitizer.go:125-144 | The limits keep the first lines whole, and of those what comes before the last line break within the byte limit. |
| TextLaws.LimitIsConfiguredAndIntents | api/internal/completion/policy.go:78-91 | A number of lines is within the limit exactly when the configuration and the intent allow it. |
| Sanitizer.SingleLineMeansOneLine | api/internal/completion/policy.go:78-93 | A single-line intent is one that every configuration limits to one line. |
| Sanitizer.TrimBlankLinesLoop | api/internal/completion/sanitizer/sanitizer.go:72-81 | The two loops drop the blank lines at both ends. |
| Sanitizer.CollapseBlankLinesLoop | api/internal/completion/sanitizer/sanitizer.go:82-97 | The counting loop keeps the first of each run of blank lines. |
| Sanitizer.OverlapLoop | api/internal/completion/sanitizer/sanitizer.go:116-124 | The loop finds the longest overlap of at most 1000 bytes. |
| Sanitizer.RemoveSuffixOverlapLoop | api/internal/completion/sanitizer/sanitizer.go:105-115 | The loop removes the longest overlap of at least 2 bytes. |
| Sanitizer.SanitizeText | api/internal/completion/sanitizer/sanitizer.go:17-33 | The pipeline with its loops is the sanitizer the laws are about. |
| Sanitizer.PrefixOverlapMerges | api/internal/completion/sanitizer/sanitizer.go:98-104 | The overlap is the longest, and dropping it merges prefix and text on it, up to one dropped space. |
| Sanitizer.SuffixOverlapMerges | api/internal/completion/sanitizer/sanitizer.go:105-115 | The same on the other side, with nothing else dropped. |
| Sanitizer.TidyTidies | api/internal/completion/sanitizer/sanitizer.go:26-32 | The tail's result is in normal form, within both limits, and a subsequence of its input. |
| Sanitizer.TidyKeepsTidied | api/internal/completion/sanitizer/sanitizer.go:26-32 | Normal forms are fixed points of the tail. |
| Sanitizer.TidyIsIdempotent | api/internal/completion/sanitizer/sanitizer.go:26-32 | The tail is idempotent. |
| Sanitizer.CoreIsSubsequence | api/internal/completion/sanitizer/sanitizer.go:21-25 | The stages before the tail only leave characters out. |
| Sanitizer.SanitizedText | api/internal/completion/sanitizer/sanitizer.go:17-33 | For every request and raw text: no CR, normal form, policy lines, byte limit, a subsequence of the normalised input. |
| SanitizerLaws.FenceChangesNothing | api/internal/completion/sanitizer/sanitizer.go:47-61 | An answer between fences with any tag is sanitized to what the bare answer is. |
| SanitizerLaws.CleanTextPasses | api/internal/completion/sanitizer/sanitizer.go:17-33 | A neat text without fence or announcement that repeats nothing and keeps the limits passes unchanged if and only if it does not open with a foreign word; else nothing is left. |
| SanitizerLaws.RepetitionsComeOff | api/internal/completion/sanitizer/sanitizer.go:17-33 | What a bare text repeats of the prefix and suffix comes off, with one space; the rest is cut to the limits, or refused if foreign. |
| SanitizerLaws.OpenFenceComesOff | api/internal/completion/sanitizer/sanitizer.go:47-61 | A fence that is never closed comes off. |
| SanitizerLaws.ClosingFenceComesOff | api/internal/completion/sanitizer/sanitizer.go:47-51 | A closing fence without an opening one comes off. |
| SanitizerLaws.FenceLineIsNothing | api/internal/completion/sanitizer/sanitizer.go:52-55 | A lone fence line leaves nothing. |
| SanitizerLaws.AnnouncementChangesNothing | api/internal/completion/sanitizer/sanitizer.go:62-71 | An announced answer is sanitized like the bare one. |
| ContextWindows.PrefixWindowIsEnd | src/context/textWindow.ts:6-14 | The window is the end of the text, within the limit, and starts exactly after the first line break of what fits. |
| ContextWindows.SuffixWindowIsStart | src/context/textWindow.ts:16-24 | The window is the start of the text and ends exactly with the last line break of what fits. |
| ContextWindows.SentTextIsContiguous | src/context/contextBuilder.ts:15-28 | Sent prefix and sent suffix are one piece of the document split at the cursor, each the whole window or as long as its limit. |
| ContextWindows.ShortTextIsSentWhole | src/completion/backendCompletionEngine.ts:99-143 | Text around the cursor that the windows hold is sent whole exactly when it fits what the focus allows. |
| RepositoryFiles.SelectFiles | src/context/repository/repositoryContextBuilder.ts:86-97 | The loop, with its breaks and skips, makes the selection. |
| RepositoryFiles.SelectionIsChosen | src/context/repository/repositoryContextBuilder.ts:86-97 | In the candidates' order, each file with its share of what is left, within both limits; it stops only at the end, deadline or a limit, and passes over only what offers nothing. |
| RepositoryFiles.SmallFilesAreSentWhole | src/context/repository/repositoryContextBuilder.ts:86-100 | Files within the per-file share, the total and the number are all selected, whole and in order. |
| ContextWindows.LimitsAreBounded | src/completion/backendCompletionEngine.ts:132-143 | The focus budgets for all focuses, modes and timeouts. |
| RepositoryFiles.CutFilesLoop | src/completion/backendCompletionEngine.ts:114-119 | The decrementing map makes the cut. |
| RepositoryFiles.CutFilesArePrefixes | src/completion/backendCompletionEngine.ts:114-119 | The sent contents are in-order prefixes and together exactly the first budget units of all contents. |
| RequestLimits.ValidateContext | api/internal/completion/validation.go:21-44 | The early returns accept exactly the sizes and labels allowed. |
| RequestLimits.AsciiIsAcceptedExactlyWhen | api/internal/completion/validation.go:19-44 | On one-byte characters the limits are numbers of characters, in both directions. |
| RequestLimits.FewestBytes | api/internal/completion/validation.go:21-22 | Each character counts the fewest bytes of UTF-8 that hold it (RFC 3629, section 3). |
| RequestLimits.SentFilesFit | api/internal/completion/validation.go:31-44 | What is cut satisfies the server's file limits at up to three bytes a unit. |
| RequestLimits.SentRequestFits | api/internal/completion/validation.go:19-44 | Whatever document, cursor, settings, candidates and deadline, the sizes sent satisfy every server limit. |

## Left out

- Request manager: `Active` records and their closures are values in a table keyed by the run's id, so aliasing of these objects is not captured.
- Request manager: the moments at which a run resumes are left open, so no timing of the debounce or of the 10 ms wait for context is proved; `completionDebounceMs` and its regular expressions only choose that moment.
- Request manager: latency totals, the activity callback and `getStats` are not modelled, nor are settings or an engine that throw before their promise exists.
- Request manager: one request object passed to two calls, which line 80 would change for both, is not modelled; each call has its own.
- Digests are injective on their components; a component that holds the separator character is not modelled.
- CompletionService.ClientGetsPresentableText: a character of a text stands for one byte on the server and one unit on the client; the conversion between them is left to JSON and UTF-8.
- JSON and UTF-8 are libraries: JSON is any codec whose texts have no line terminator and read back what was written, and chunks of the stream are characters, so a cut inside a character's bytes is left to the decoder.
- Response headers, first-chunk timing, and the client's unavailability back-off are not part of this model.
- Provider HTTP, fill-in-the-middle prompts and the choice among alternatives are not part of this model; a provider is any list of deltas and an ending.
- Clocks, randomness, contexts and response writers are parameters; tokens and codes drawn at random are inputs that may collide, and the database then refuses them.
- Failing to issue an access token after a session was written is a crash of the thread.
- PostgreSQL and Redis: a statement, transaction or script is one atomic step; the Redis scripts of the monthly and daily trackers are not modelled.
- Monthly tracker: a month change between the several key computations of one merge is not modelled; months change between steps.
- The other admin queries, invites, entitlements, listing and touching of rows would only add easy members.
- `Retry-After` in whole seconds is not modelled; the hints are the limiter's own durations.
- Floating-point rounding of token counts is not modelled; they are real numbers.
- Sanitizer: lower-casing is ASCII only, and a byte limit that cuts inside a character leaves what later encoding makes of it open.
- RequestLimits.ValidateContext: leaves out symbols, diagnostics, dependencies, intent, style and client fields, whose client cuts do not imply the server's byte limits.
- RepositoryFiles.SelectFiles: takes for each candidate the text and the lines that `selectSnippet` would join as inputs; the regular expressions that find them, the test for sensitive content and the ranking are not modelled.
- Repository context: the caches of the builder, symbols and dependency signals are not part of this model.
- User interface, transport, configuration parsing and logging are not part of this model.
