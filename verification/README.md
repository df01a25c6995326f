# RegHub, modelled and proved

RegHub registers repository templates: it imports them from source providers, keeps them in
step with their source, publishes them, runs long administrator operations through durable
workers, audits what administrators do, and serves a cached, rate-limited public catalogue.
This project models its five stateful cores and proves what they keep over whole runs:

* **Operations** (`OperationStore`, `OperationQueue`, `OperationProtocol`, `OperationSafety`,
  `OperationCustody`, `OperationOutcome`, `OperationStream`, `OperationTraces`): the operation
  table, the Redis list with its markers and locks, and an interleaved transition system of any
  number of processes that enqueue, dequeue, lock, execute, cancel, reconcile, are told to stop
  and crash at any point. `OperationService` and `RedisOperationQueue` are classes over the same
  row and command functions that the transition system uses. An enqueue and a dequeue are two
  Redis commands in the code, and two steps here.
* **Audit** (`AuditSanitizer`, `JsonText`, `AuditChain`, `AuditRequests`): the detail sanitiser, the hash
  chain, the verification loop and what a call of `append` can sign, with the digest as an
  arbitrary function of key and payload.
* **Catalogue cache** (`CatalogCache`, `CacheTasks`): generations, lazy expiry, the sweep and
  the fail-over from Redis to memory, first as whole calls, then as interleaved tasks of which
  every Redis command is a step.
* **Templates** (`RepositoryUrls`, `UrlText`, `TemplatePublishing`, `TemplateMedia`, `TemplateLifecycle`,
  `TemplateRuns`, `UniqueSlug`): URL parsing down to `urlsplit`, manifests, publication, import,
  status changes and source sync.
* **Bounded algorithms** (`RateLimit`, `TreeScan`, `ZipImport`): the fixed-window limiter and
  its middleware, the budgeted repository scan, and the names in an uploaded ZIP.

`Basics` and `Strings` hold shared types and the Python string operations. Tables are maps, a
transaction is one assignment of the tables, and a failure before the commit changes nothing.
Answers of providers, of the analyser and of the screenshot service, clocks, and the outcome of
every Redis command are arbitrary inputs. Case folding is an arbitrary character map; slug
building and hashing of rate-limit identifiers are arbitrary functions.

## What the code does not promise

Some properties one would expect fail. Each is stated with the input that breaks it and with
the condition under which it holds.

* **Terminal statuses can be rewritten**, by three kinds of step. An exception inside the
  execution of an operation that has already ended: while its success is being closed, or
  while the runtime is reloaded for a stale copy. The worker's stop signal at the same places,
  and during the audit of a success: `worker_task.cancel()` lands in the handler that cancels
  the operation whatever its status. And a recovery that fails the row of an execution in hand,
  because recovery reads only the start time, while the lock is refreshed.
  `OrderlyExactly` says that excluding these is necessary and sufficient, in every phase;
  `TerminalIsFinal` derives the last exclusion from timing. `StopInClosing`, `StopInAudit`,
  `StopOnStaleCopy`, `RecoveryOfLongRunning` and `RecoveryInWindow` are runs that reach each case.
  (The stop signal is also swallowed there: the execution returns and the worker goes on.)
* **A crash can strand an operation until its marker expires.** A process that dies between
  the marker and LPUSH leaves a marker without a list entry, and a whole reconcile pass then
  changes nothing (`ReconcileStrands`). A pass skips an operation exactly when its marker is
  live and it is not in the list at the scan (`StrandedExactly`), which ends with the life of
  the marker (`MarkersBacked`, `OldDeathsDoNotStrand`); every other pass reaches it
  (`ReconcileReaches`). A crash, an uncaught exception and such a marker are the only ways to
  lose a queued operation (`LostExactly`, `NoneLost`).
* **A cancellation can come too late** by exactly one checkpoint (`RequestHonouredExactly`).
* **A write from before an invalidation can be observed after it** in two cases. On the first
  use of a Redis, an invalidation that finds no generation key sets it to 1, the number that a
  task just told of the absence goes on with (`FirstUseIsDisturbed`); the guard against it is
  exact (`UndisturbedExactly`), and with a key present there is no such case
  (`PresentKeyHits`). And a task that read its generation from Redis before a fail-over goes on
  with a number that memory counts up to later (`StraddlingSetIsObserved`). A fail-over, by
  whichever command, allows this exactly when it leaves a task behind, reading or writing, the
  set that failed among them, whose number memory has not yet passed, unless memory is at
  that number in the epoch of the task (`FailOverExactly`). Without either case every hit is of
  the epoch of its get (`SafeRunHits`).
* **A reader can miss closing entries.** The stream ends at the first visit that reads a
  terminal status, which is committed before the closing entry. It then has the whole log for
  good exactly when no process was between that commit and the end of its audit
  (`EndedReaderHasAllExactly`); `ReaderMissesClosing` is a run in which it does not.
* **Neither URL normaliser is idempotent** (`NotIdempotent`); on a parsed URL each is the
  identity exactly when the URL does not end in ".git" (`ParsedUrl`), and the manifest's second
  pass on any value exactly when the first leaves neither ".git" nor a slash at the end
  (`NormalizedTwice`). Consequently a repository whose normalised URL still ends in ".git" can be
  imported (`SuffixedIsImported`, `SuffixedUrls`) but never published (`ImportedNeverPublished`).
* **A slug can exceed its column** only if the counter needs 180 digits (`ChosenFits`).

## Assumptions

* `Leased`: time does not run past the expiry of a lock that a live process works under. Mutual
  exclusion, and what rests on it, needs it; markers, enqueue loops, cancellation and the log do not.
* `Prompt`: `Leased`; at every recovery each live execution is within the lock time of taking
  its lock, and no stale row has been read but not yet marked by a live process; and no
  exception or stop signal reaches an operation that has ended otherwise. The statuses need it.
* `Calm`: besides, no exception or stop signal reaches an ended operation at all. Only the end
  of a stream needs it.
* In `TailFixesHistory` and `TailFixesExactly` only: payloads with one digest have one
  serialisation, in which the keys of dictionaries are sorted.
* Limiter bounds need time that does not go backwards, and one window length per key.
* The Redis generation key is not evicted; entries may be, at any time.

## Model

| member | source | states |
|---|---|---|
| OperationStore.OperationService.Create | app/operations/service.py:78-115 | one commit of a row that is QUEUED at 0, without flag, times or error, with one entry numbered 1; the table stays valid and no other row changes |
| OperationStore.OperationService.AppendLog | app/operations/service.py:206-239 | one more entry, with the next number, its level and its message each cut to its column; progress is clamped and never lowered, nothing else changes, the table stays valid; a missing row is a no-op |
| OperationStore.OperationService.MarkRunning | app/operations/service.py:241-249 | the row is RUNNING whatever it was, started now and at 1 or more, everything else of it kept, in one commit; a missing row is reported and nothing changes |
| OperationStore.OperationService.Complete | app/operations/service.py:251-262 | two commits: the row SUCCEEDED at 100 without an error, and then also with the closing entry; valid and growing throughout, nothing else of it changes |
| OperationStore.OperationService.Skip | app/operations/service.py:264-282 | two commits: SKIPPED at 100, then the stripped and cut notice or its default |
| OperationStore.OperationService.Fail | app/operations/service.py:284-294 | two commits: FAILED with the stripped and cut message or its default, then the same text as an entry |
| OperationStore.OperationService.Cancel | app/operations/service.py:296-306 | two commits: CANCELLED, flagged, with the cut message, then the warning entry |
| OperationStore.OperationService.RequestCancel | app/operations/service.py:308-316 | an unfinished row gets the flag and nothing else, in one commit; for a finished or a missing row nothing is committed |
| OperationStore.OperationService.Recover | app/operations/service.py:338-366 | exactly the RUNNING rows without a start time, or started that long ago, are FAILED now with the interruption as their error, and no other row changes, in one commit; returns exactly the QUEUED ids, each once |
| OperationStore.OperationService.LogsSince | app/operations/service.py:191-204 | exactly the entries numbered above the given one, in order: of a valid log, the rest of it |
| OperationStore.LoggedKeeps | app/operations/service.py:206-239 | an entry appended to a valid row leaves it valid, numbered 1..n and in 0..100, with what was there and that entry |
| OperationStore.OthersKeep | app/operations/service.py:241-366 | marking, settling and recovering keep the same; SUCCEEDED and SKIPPED stand at 100 |
| OperationStore.PollExtends | app/admin/views.py:873-890 | one more visit to a log that has grown extends what a reader has received to the new end, without gap or repetition |
| OperationQueue.RedisOperationQueue.Enqueue | app/operations/queue.py:37-43 | an id without a live marker is marked for a day and put at the head of the list, a marked one changes nothing; markers stay truthful |
| OperationQueue.RedisOperationQueue.Dequeue | app/operations/queue.py:45-59 | takes the oldest id off the list and deletes its marker; locks stay |
| OperationQueue.RedisOperationQueue.AcquireLock | app/operations/queue.py:61-71 | succeeds exactly when no unexpired lock exists, and then the caller owns it for the lock time |
| OperationQueue.RedisOperationQueue.RefreshLock | app/operations/queue.py:73-79 | extends the lock by the lock time only for its live owner |
| OperationQueue.RedisOperationQueue.ReleaseLock | app/operations/queue.py:81-91 | deletes the lock only for its live owner, and the marker in any case |
| OperationSafety.LeasesStep | app/operations/queue.py:61-91 | a live process working under a lock still owns it after any step of any process |
| OperationSafety.LeasesExclude | app/operations/service.py:666-685 | so at most one live process works on an operation |
| OperationSafety.AccountedStep | app/operations/service.py:712-828 | dispatches = settled + abandoned + at most one in hand, kept by every step; settled at most once |
| OperationSafety.ExecutedOnce | app/operations/service.py:666-685 | over every run: one live executor per operation, and at most one dispatch more than executors that died with a dispatch in hand |
| OperationSafety.BackedStep | app/operations/queue.py:37-59 | every step keeps: a live marker means the id is in the list or a process entered a gap of it no earlier than the marker can have been set |
| OperationSafety.MarkersBacked | app/operations/queue.py:37-59 | over every run with no timing assumption: behind a live marker without a list entry is a process that entered its gap less than a marker's life ago |
| OperationSafety.EnqueueReaches | app/operations/queue.py:37-43 | from every state, an enqueue loop with an id before it and no live marker missing from the list leaves the id in the list, delivered since, or in a gap of a process not dead at the start |
| OperationSafety.ReconcileReaches | app/operations/service.py:651-656 | the same of every operation QUEUED at a reconcile pass, from its scan, whatever crashed before or meanwhile |
| OperationSafety.OldDeathsDoNotStrand | app/operations/queue.py:41-59 | in every run the condition holds again once no process entered a gap of the id within a marker's life |
| OperationSafety.StrandedExactly | app/operations/service.py:651-656 | an uninterrupted pass leaves a queued operation out of the list if and only if its marker was live and it was not in the list at the scan |
| OperationCustody.NoneLost | app/operations/service.py:651-685 | over every run in which no process dies or is left by an exception, every QUEUED operation is in the list or in the hands of a live process that goes on to put it there, execute it or end it |
| OperationCustody.LostExactly | app/operations/queue.py:37-43 | from every state: a step leaves a queued operation to nobody if and only if its only carrier dies, is left by an exception, or skips it because of a live marker |
| OperationCustody.TakenLockReturns | app/operations/service.py:683-685 | a popped copy whose lock is taken is put back: when its worker is through, the id has been reached again, whatever others do meanwhile, unless its marker was live without a list entry |
| OperationOutcome.MovesForward | app/operations/service.py:241-366 | an orderly step moves a status only queued, running, one terminal status, or from queued to FAILED or CANCELLED when the bootstrap fails or is stopped |
| OperationOutcome.PromptIsOrderly | app/operations/service.py:354-364 | timing makes recovery orderly: an execution within the lock time of its lock marked its row within the lock time |
| OperationOutcome.RunStaysInStep | app/operations/service.py:712-828 | over every prompt run each executor's phase agrees with the status its row has, and lease holders own their locks |
| OperationOutcome.RunMovesForward | app/operations/service.py:712-828 | in every prompt run each step moves each status forward, if at all |
| OperationOutcome.RecoverySparesLive | app/operations/service.py:338-366 | in every prompt run no recovery changes the row of an operation that a live process has in hand or has marked |
| OperationOutcome.TerminalIsFinal | app/operations/service.py:723-726 | over every prompt run, a terminal status is the status ever after, whatever stale copies are delivered |
| OperationOutcome.LateFaultRewrites | app/operations/service.py:807-828 | an exception inside the execution of an operation that ended otherwise can always end in FAILED |
| OperationOutcome.LateInterruptRewrites | scripts/worker.py:20-24 | the stop signal inside such an execution can always end in CANCELLED |
| OperationOutcome.RecoveryRewrites | app/operations/service.py:354-364 | a recovery of an execution in hand, in whichever phase, can always be followed by its mark or its commit of another status |
| OperationOutcome.OrderlyExactly | app/operations/service.py:712-828 | from states in step, a step lets disciplined continuations rewrite a terminal status if and only if it is not orderly |
| OperationOutcome.RunsOn | app/operations/service.py:712-799 | an execution in hand that is left to itself commits exactly success, the skip, or the cancellation that was asked for before its next checkpoint |
| OperationOutcome.CancellationIsHonoured | app/operations/service.py:687-796 | in every run: cancellation committed before the checkpoint of `complete` or `skip` excludes SUCCEEDED and SKIPPED; committed before the last bootstrap checkpoint it excludes a dispatch |
| OperationOutcome.RequestHonouredExactly | app/operations/service.py:308-316 | from every state: cancelling an unfinished operation excludes success and a skip in every run that follows if and only if no live process is past the checkpoint before that commit, and another dispatch if and only if none is past the last bootstrap checkpoint |
| OperationStream.RunGrows | app/operations/service.py:206-366 | over every run, logs only grow, progress never decreases, numbering and ranges stay valid |
| OperationStream.CheckpointWritten | app/operations/service.py:687-699 | a checkpoint adds exactly its entry: with the level and the progress of its stage, or those the handler chose |
| OperationStream.EntriesWritten | app/operations/service.py:251-306 | the exception handler adds an entry under "error", the end one under the level of its outcome, at 100 for success and a skip, and a failing audit one under "warning" |
| OperationStream.RunValid | app/operations/service.py:191-282 | in every run from the empty table each log is numbered 1..n, progress is a percentage and success and skip stand at 100 |
| OperationStream.StreamIsExact | app/admin/views.py:873-914 | a reader visiting between any steps of any run, status first and log after, has received exactly the entries up to its last visit, numbered without gap or duplicate |
| OperationStream.EndedReaderHasAllExactly | app/admin/views.py:904-914 | a reader that has ended has the whole log in every calm continuation if and only if no process was between the commit of the end and the end of its audit |
| OperationStream.Concludes | app/operations/queue.py:81-91 | left to itself, a process that has committed an end adds the closing entry, deletes lock and marker, and is free for the next operation |
| OperationStream.Executes | app/operations/service.py:681-772 | left to itself, a process with a popped copy whose lock is free brings an unfinished operation to success, or to the cancellation that was asked for |
| OperationStream.SkipsEnded | app/operations/service.py:724-726 | with a copy of an ended operation it gives the lock back and changes no row |
| OperationTraces.ReconcileStrands | app/operations/queue.py:37-43 | a reachable state in which a whole reconcile pass leaves a QUEUED operation out of the list |
| OperationTraces.StopInClosing | app/operations/service.py:757-758 | a reachable success in whose closing a stop signal, or an exception, rewrites it |
| OperationTraces.StopInAudit | app/operations/service.py:757-758 | a reachable success in whose audit a stop signal rewrites it |
| OperationTraces.StopOnStaleCopy | app/operations/service.py:719-726 | a reachable success of which a stale copy is locked, where a stop signal, or an exception, rewrites it |
| OperationTraces.RecoveryOfLongRunning | app/operations/service.py:354-364 | a reachable execution with a refreshed lock that a recovery fails and that goes on to another status |
| OperationTraces.RecoveryInWindow | app/operations/service.py:724-727 | a reachable recovery between the read and the mark of a row, which leaves FAILED and then lets it run again |
| OperationTraces.ReaderMissesClosing | app/admin/views.py:873-914 | a reachable run in which a reader ends without the closing entry |
| AuditSanitizer.SanitizeCleans | app/governance/audit.py:43-67 | for every value of any depth: at most 7 levels, 100 items, 4000 characters, distinct keys, and the marker under every key with a forbidden word |
| AuditSanitizer.SanitizeShows | app/governance/audit.py:43-67 | for every value: every key and every item among the first 100 is kept, in order; a sensitive value is the marker, what is too deep the other one, a text is cut, a repeated key has its last value, and nothing else changes |
| AuditSanitizer.CleanIsFixed | app/governance/audit.py:43-67 | a clean value is left as it is |
| AuditSanitizer.FixedIffClean | app/governance/audit.py:43-67 | sanitising is idempotent, and its fixed points are exactly the clean values |
| AuditChain.AuditService.Append | app/governance/audit.py:88-176 | one more event, numbered and chained to the tail, signed with the primary key, which moves the tail to it; every field is the argument, stripped and cut to its column, and the details are the sanitised ones |
| AuditChain.AuditService.Verify | app/governance/audit.py:178-277 | of n rows scanned under the limit: valid if and only if all are good and, when n is the total, the tail matches; complete, checked and total in each case; the first invalid sequence is that of the least bad row, with its position as checked, or one past the last row if only the tail is bad, and absent exactly when valid |
| AuditChain.ReportAccepts | app/governance/audit.py:178-277 | valid and complete exactly when all rows are good, the tail matches and the limit covers them |
| AuditChain.AppendAccepted | app/governance/audit.py:88-176 | an append with any key of the ring keeps a store acceptable |
| AuditChain.AcceptedIffProduced | app/governance/audit.py:178-277 | accepted stores are exactly those that signing some sequence of contents, each with any key of the ring, produces from GENESIS, up to the representations the digest identifies |
| AuditRequests.ProducedExactly | app/governance/audit.py:101-127 | the contents that calls of `append` sign are exactly those within their lengths, stripped, with an outcome and details the sanitiser leaves alone |
| AuditRequests.AcceptedIffAppended | app/governance/audit.py:88-277 | a store is accepted and has only such contents if and only if some sequence of `append` calls to the migrated store leaves it |
| AuditChain.TailFixesHistory | app/governance/audit.py:190-266 | if one digest means one serialisation, accepted stores with one tail say the same, row by row, under any two rings |
| AuditChain.TailFixesExactly | app/governance/audit.py:69-81 | of the stores with the tail of an accepted one, exactly those that say the same up to key order are accepted |
| AuditChain.KeyOrderIsFree | app/governance/audit.py:69-75 | reordering the keys of stored details is such a change |
| AuditChain.MoreKeysAccept | app/governance/audit.py:27-41 | a ring with more keys, in any order, accepts whatever the smaller one did |
| CatalogCache.CatalogCacheService.GenerationValue | app/infrastructure/cache.py:68-83 | GET, and SET if it found no number, each with its own outcome; any failure degrades to memory for good |
| CatalogCache.CatalogCacheService.GetJson | app/infrastructure/cache.py:85-111 | the state and answer of a lookup under every outcome of its Redis commands |
| CatalogCache.CatalogCacheService.SetJson | app/infrastructure/cache.py:113-135 | the write with its fail-over and the sweep of expired entries |
| CatalogCache.SetInMemory | app/infrastructure/cache.py:128-135 | above 5000 entries in memory a set drops exactly the expired ones |
| CatalogCache.CatalogCacheService.InvalidateAll | app/infrastructure/cache.py:137-146 | a new generation, on Redis or in memory |
| CatalogCache.CallRefines | app/infrastructure/cache.py:68-146 | every call under every outcome refines the same call on a map that may forget |
| CatalogCache.HitIsLastSet | app/infrastructure/cache.py:85-146 | over every sequence of calls and failures, a hit is the unexpired value of the last set of that key since the last invalidation |
| CatalogCache.HitExactly | app/infrastructure/cache.py:85-146 | over every sequence of calls, as long as Redis answers and keeps its entries, or in memory: a get answers exactly the value of the last set of that key since the last invalidation if that has not expired, whatever is swept on the way |
| CatalogCache.SetIsFound | app/infrastructure/cache.py:85-146 | from every consistent state, also after failures and evictions: what is set while Redis answers, or in memory, is found by every get until it expires, is set again or everything is invalidated |
| CatalogCache.FailsOverExactly | app/infrastructure/cache.py:57-66 | a call leaves Redis for good if and only if one of the commands it issues fails |
| CacheTasks.GetAlone | app/infrastructure/cache.py:68-111 | a get that nothing interrupts is the whole call of it |
| CacheTasks.SetAlone | app/infrastructure/cache.py:68-135 | so is a set, with its second write to memory when the first fails |
| CacheTasks.HitIsOfThisEpoch | app/infrastructure/cache.py:68-146 | in every interleaving of commands in which no invalidation meets an absent key that a task is about to set, a hit comes from a set that read its generation in the epoch of the get, if both read it from the same backend |
| CacheTasks.PresentKeyHits | app/infrastructure/cache.py:68-146 | the same in every interleaving whatever, if the generation key is present or memory is used |
| CacheTasks.UndisturbedExactly | app/infrastructure/cache.py:68-83 | after a step, continuations can end in a hit of another epoch if and only if the step is such an invalidation |
| CacheTasks.FirstUseIsDisturbed | app/infrastructure/cache.py:73-75 | a reachable state on first use where an invalidation makes that possible |
| CacheTasks.FailOverExactly | app/infrastructure/cache.py:57-146 | after a fail-over by any command, some continuation ends in a hit of another epoch if and only if a get or set is left behind with a Redis generation that memory has neither passed nor uses in its epoch |
| CacheTasks.SafeRunHits | app/infrastructure/cache.py:57-146 | over every interleaving without a disturbing invalidation or such a fail-over, every hit is of the get's epoch |
| CacheTasks.StraddlingSetIsObserved | app/infrastructure/cache.py:113-146 | a reachable state in which a get returns a value of an earlier epoch |
| RateLimit.RateLimitService.MemoryCheck | app/infrastructure/rate_limit.py:68-89 | counts one more check of the key in its window, allows it up to the limit and reports what remains; above 20,000 counters exactly those of windows begun more than two windows ago are dropped |
| RateLimit.RateLimitService.Check | app/infrastructure/rate_limit.py:91-119 | on the memory backend, the same for the aligned window of the current time |
| RateLimit.RetryReachesNextWindow | app/infrastructure/rate_limit.py:91-119 | now + retry_after is the start of the next window, and every second before it is in this one |
| RateLimit.CountersExact | app/infrastructure/rate_limit.py:68-89 | purging is invisible: a counter that can still be asked about is the number of checks made |
| RateLimit.AdmittedExactly | app/infrastructure/rate_limit.py:68-119 | per key and window exactly min(checks, limit) are admitted |
| RateLimit.BurstBound | app/infrastructure/rate_limit.py:68-119 | at most twice the limit in any `window` consecutive seconds |
| RateLimit.Effective | app/infrastructure/middleware.py:75-80 | the verdict in the headers is the first refusal, or the first with the least remaining |
| RateLimit.PlanExactly | app/infrastructure/middleware.py:37-73 | which checks a request makes, by its path, cookie, address and credential: what follows "bearer " in any case, or else the token header |
| RateLimit.RateLimitMiddleware.Dispatch | app/infrastructure/middleware.py:37-99 | not limited exactly when the limiter is off, the path is one of the two probes, or it has none of the three prefixes; else the request passes exactly when the counters of its cookie or address, or of its credential and address, are below their limits, and every check is counted |
| RateLimit.AddressBound | app/infrastructure/middleware.py:55-94 | however the checks of concurrent requests interleave, one address gets at most the public plus the token-ip limit through per window, whatever credentials it sends |
| RateLimit.AdminBound | app/infrastructure/middleware.py:46-54 | however checks interleave, one cookie, or one address without a cookie, gets at most the administrators' limit of requests under /admin and /auth through per window |
| RateLimit.CredentialBound | app/infrastructure/middleware.py:55-69 | however checks interleave, one credential gets at most the token limit of API requests past its check per window, from however many addresses |
| TreeScan.ScanDirectory | app/integrations/bitbucket/client.py:111-139 | the page loop adds only what the listing says, and all of it unless a budget ran out |
| TreeScan.RecursivePaths | app/integrations/bitbucket/client.py:103-140 | terminates on any graph with at most 120 requests, no directory listed twice, at most 2500 + 9 paths; sound always, and complete to depth 6 when no budget ran out |
| UniqueSlug.CandidatesDiffer | app/registry/template.py:487-495 | all candidates of a base differ, however they are cut |
| UniqueSlug.Pigeonhole | app/registry/template.py:487-495 | so as many taken candidates need as many taken slugs |
| UniqueSlug.Choose | app/registry/template.py:487-495 | the first unused one of: the slugified title cut to 160 or else "template", and that, cut to leave 180, with "-2", "-3", ...; within one probe more than there are slugs |
| UniqueSlug.ChosenFits | app/registry/template.py:487-495 | it fits 180 characters unless the counter needs as many digits |
| ZipImport.SafeMemberIsProper | app/registry/local.py:19-25 | an accepted member has components, none of them empty, ".", ".." or with a slash |
| ZipImport.SafeMemberExactly | app/registry/local.py:19-25 | a name is accepted exactly when it has no control character, does not begin with a slash of either kind, and has a component but no ".."; the components are what is between the slashes |
| ZipImport.StoredNameParses | app/registry/local.py:19-25 | the stored name of a member parses back to its components |
| ZipImport.ReadEntries | app/registry/local.py:215-236 | accepts exactly the archives of 1 to the maximum of entries that are all safe, plain and within the size, with file names distinct after case folding; it returns the joined components of the files in order |
| ZipImport.KeysDistinct | app/registry/local.py:238-248 | stripping the common prefix and folding keeps names distinct |
| ZipImport.Logical | app/registry/local.py:238-250 | never refuses, and maps one to one: the keys are the folded names without the top directory, if all names are under one, and else the folded names, each with its name |
| ZipImport.ImportNames | app/registry/local.py:211-250 | the entry loop alone decides whether the names of an archive are accepted, and the map is that of its file names |
| ZipImport.CandidateFound | app/registry/local.py:252-256 | a wanted name finds a stored one exactly when some stored name folds like it, under the common top directory if there is one, and it finds that one |
| RepositoryUrls.NamesShape | app/registry/adapters/gitlab.py:11-24 | every parsed path has only allowed characters, the right number of names and no "-" segment but the last |
| RepositoryUrls.NamesAgain | app/registry/adapters/github.py:15-40 | parsing a canonical URL succeeds unless its last name is ".git", and drops one suffix |
| RepositoryUrls.ParsedUrl | app/registry/adapters/bitbucket.py:11-26 | a parsed URL is a fixed point of its parser, and of the manifest, exactly when it does not end in ".git"; otherwise both drop the suffix |
| RepositoryUrls.NormalizedShortens | app/schemas/manifest.py:51-70 | the manifest's normaliser returns a prefix, so a URL that two passes restore is fixed by one |
| RepositoryUrls.NormalizedTwice | app/schemas/manifest.py:51-70 | of every accepted value that is not local, the result is accepted again, and unchanged exactly when it ends neither in ".git" nor in a slash |
| RepositoryUrls.NotIdempotent | app/schemas/manifest.py:70 | for every owner and name a URL on which one pass of either normaliser is not enough |
| UrlText.SplitExactly | app/registry/adapters/github.py:16-17 | `urlsplit` of a clean text: scheme, location, path, query and fragment put together again are the text, each as far as it goes |
| UrlText.HostExactly | app/registry/adapters/github.py:18-23 | the host, user, password and port tests accept exactly an empty or no user name, a supported host in any case, and no port or zeros |
| UrlText.ParseExactly | app/registry/adapters/github.py:15-40 | which texts each parser accepts, in terms of the split text: the site, its "www" host, two allowed segments, for GitLab two or more and no "/-/"; and the address that it makes of them |
| UrlText.NormalizedExactly | app/schemas/manifest.py:51-70 | which values the manifest accepts, and that it cuts slashes and one suffix |
| TemplatePublishing.StoredManifestRead | app/schemas/manifest.py:38-76 | reading a stored manifest back changes its repository at most, and nothing exactly when that is a non-empty fixed point |
| TemplatePublishing.BuiltExactly | app/registry/manifest.py:6-40 | when a manifest of version 2 can be built, and every field of it |
| TemplatePublishing.PublishableMeans | app/registry/publishing.py:6-19 | of any template: framework, branch and repository agree with the manifest as read back, and the URL is not local |
| TemplatePublishing.PublishableExactly | app/registry/publishing.py:6-19 | for a template whose manifest was built from its own fields, the whole validation passes exactly when the URL is not local and is fixed by the manifest |
| TemplatePublishing.ProviderPublishableExactly | app/registry/publishing.py:6-19 | for a provider's template: exactly when the URL does not end in ".git", that is, when it is fixed by its parser |
| TemplateMedia.CuratedAssetsSurvive | app/registry/template.py:850-868 | a sync keeps curated assets and replaces all others by the listed URLs in order |
| TemplateMedia.AssetsReplaced | app/registry/template.py:850-868 | asset by asset: each curated one is there as often as before, and the others are exactly the listed URLs in order |
| TemplateMedia.MergedList | app/registry/template.py:749-768 | no duplicates, at most 20, preserved URLs first, then the discovered ones in order, and none left out unless full |
| TemplateMedia.OrderedIsSorted | app/registry/template.py:749-760 | preserved assets are read by sort order, none lost or repeated |
| TemplateMedia.OrderedIsStable | app/registry/template.py:749-760 | preserved assets of one sort order are read in order of creation |
| TemplateMedia.MediaSettles | app/registry/template.py:749-868 | a second sync with the same listing changes neither assets nor the merged list |
| TemplateLifecycle.ChangeAll | app/registry/template.py:1153-1159 | refuses exactly when one row that would be published is not publishable; else exactly the selected rows have the status, and the publication time it means |
| TemplateLifecycle.TemplateServices.ImportImported | app/registry/template.py:141-411 | succeeds exactly when URL and external id are new, the chosen rows and a framework exist, the manifest can be built and no screenshot is listed twice; then there is one new draft under the first unused slug, whose fields, links, media and manifest are those of the source and its analysis, and nothing else changed; a failure changes nothing |
| TemplateLifecycle.TemplateServices.ImportRepository | app/registry/template.py:65-139 | the same of what the adapter fetches, under the parsed URL; exactly when the stripped URL has 1 to 500 characters, the adapter exists and parses it, and the fetch answers |
| TemplateLifecycle.TemplateServices.SetStatus | app/registry/template.py:1145-1161 | succeeds exactly when some template is selected and, to publish, all are publishable; then every selected row has the status, its publication time is the old one or else now when publishing, none when leaving PUBLISHED and the old one otherwise, and nothing else changed; a failure changes nothing |
| TemplateLifecycle.TemplateServices.SyncOne | app/registry/template.py:562-911 | succeeds exactly when the template exists, its adapter parses its URL, the fetch answers, a framework exists, the manifest can be built and no screenshot is listed twice; then the fields the source gives are its own, curated ones stay, and the change set has exactly the tracked fields that changed; a failure changes nothing |
| TemplateLifecycle.AnyUnusedSlug | app/registry/template.py:487-495 | an import's success does not depend on which unused slug it gets |
| TemplateLifecycle.ProviderResolved | app/registry/provider.py:47-103 | which provider an owner gets, and that its row is active then |
| TemplateRuns.SyncInOrder | app/registry/template.py:725-872 | a sync keeps every template sound and every published one publishable |
| TemplateRuns.PublishedIsPublishable | app/registry/template.py:1145-1161 | after any run of imports, status changes and syncs, a PUBLISHED template passes the whole validation, and `published_at` is set exactly while PUBLISHED |
| TemplateRuns.PublishableForGood | app/registry/publishing.py:6-19 | after any run, whether a template can be published depends on its unchanging URL alone |
| TemplateRuns.NeverPublished | app/registry/publishing.py:6-19 | a provider's template whose URL ends in ".git" is published in no later state |
| TemplateRuns.SuffixedUrls | app/registry/adapters/github.py:27-40 | for every owner and every name with the suffix there is a URL from which the parser drops one suffix and leaves another |
| TemplateRuns.SuffixedIsImported | app/registry/template.py:65-139 | the import of such a URL succeeds |
| TemplateRuns.ImportedNeverPublished | app/registry/template.py:1145-1161 | and its template is never published, whatever is done afterwards |
| TemplateRuns.PublishSucceedsExactly | app/registry/template.py:1145-1161 | after any run, publishing a selection succeeds exactly when it is not empty and every URL in it is ready |
| TemplateRuns.StatusTakesEffect | app/registry/template.py:1145-1161 | after any run, publishing a selection of ready templates leaves each PUBLISHED, disabling leaves each DISABLED, and no other row changes |
| TemplateRuns.IdentityForGood | app/registry/template.py:725-872 | between any two states of a run a template keeps its identity, source and curated media, and `published_at` while it stays published |
| TemplateRuns.UniqueForGood | app/registry/template.py:227-252 | after any run URLs, external ids and slugs are unique |
| TemplateRuns.RecordedIsDifference | app/registry/template.py:541-560 | the recorded change set is exactly the difference of the tracked fields before and after |
| TemplateRuns.ProviderSettles | app/registry/provider.py:47-103 | a provider that was just resolved is resolved to itself |
| TemplateRuns.SyncTwice | app/registry/template.py:725-872 | a second sync of an unchanged source records no change and alters only the times of the last sync |

## Left out

- HTTP routes, admin views, login, logging, and the provider, screenshot and AI clients; the reader loop of the log stream is modelled, its ending and reconnection are not.
- SQL, JSON encoding, column lengths and check constraints; two transactions never interleave, so a commit that overwrites a concurrent one is not modelled.
- In-process execution and switching the Redis mode within a run: that path takes no lock, and its cancellation can land after completion.
- Heartbeats, worker status, retries by cloning, and deleting finished operations.
- OperationStore.OperationService.Create: owner, payload, title and return URL are not modelled; no step reads them.
- OperationOutcome.TerminalIsFinal: assumes prompt runs; each disorderly step is shown to break it.
- OperationSafety.ExecutedOnce: assumes leases do not lapse; a handler that logs nothing for the whole lock time is outside it.
- AuditRequests.AcceptedIffAppended: a missing and an empty detail dictionary or role list, and a naive and a UTC time, have one digest and count as one, as in the code, which does not verify that contents are within their limits.
- AuditChain.TailFixesHistory: strength of the hash is an assumption, not a result.
- CatalogCache.HitIsLastSet: one process; values are opaque, so a caller that mutates a cached object is not modelled, nor is Redis running out of integers.
- RateLimit.RateLimitService.Check: the Redis backend of the limiter and its fail-over.
- RateLimit.BurstBound: one window length per sequence; the code uses 60 seconds throughout.
- TreeScan.RecursivePaths: how listed paths are filtered and files are read afterwards.
- ZipImport.ImportNames: reading file contents, the bounded text fields and screenshot discovery.
- RepositoryUrls.ParsedUrl: network locations with brackets or with characters that compatibility normalisation would split are refused at once; the library refuses them or reports a host that no parser accepts.
- TemplatePublishing.StoredManifestRead: `build`, `environment` and `deploy`, which `build_manifest` never sets to anything but their defaults.
- TemplateLifecycle.TemplateServices.SyncOne: history rows, version snapshots, and the display name, type and website of a provider row; a concurrent creation of the same provider row.
- TemplateLifecycle.TemplateServices.ImportImported: import history rows.
- Framework detection, the analyser, roles, settings, the endpoint catalogue and the quality score; direct administrator edits of templates, frameworks, providers and assets, which bypass these functions.
