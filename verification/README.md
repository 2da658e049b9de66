# SQLConduit in Dafny

SQLConduit is database middleware: connection pools shared by threads, an
asynchronous engine with timeouts, retries and failover, cancellable
operations, a result cache, an executor, a write buffer, and code that builds,
scans and prints SQL and database text. This project models that logic and
proves what its parts promise. `dafny verify dfyconfig.toml` checks all of it.

How the model is laid out:

- **Shared-state protocols** (`Pool*`, `NativeQuery*`, `StopSignal`,
  `Operation*`, `Executor*`, `ThreadPoolExecutor`, `WriteBuffer*`). A state is
  everything the threads share plus what each of them still holds; an event is one region under a lock, or one atomic access;
  a run is any sequence of enabled events, so every interleaving is covered.
  Driver results, executor answers and time are choices of the event.
  Invariants are kept by every step, and the theorems are about every state of
  every run; where they can they speak of the events of the run only
  (`PoolCustody`, `NativeQueryOutcome`, `OperationOrigins`, `WriteBufferFates`).
  Classes hold the source's own fields and their methods are proved
  to be exactly those regions.
- **Text and values** (`SqlBuilder`, `WhereClause`, `Builder*`,
  `StatementReader`, `SqlText`, `SqlPieces`, `NamedParams*`, `SqlTemplates*`,
  `PlaceholderTemplates`, `Oracle*`, `PgArray`, `OdbcUnicode`). Specification
  functions follow the source branch by branch; methods with the source's loops are
  proved equal to them; and each is tied to something independent of it: a
  recursive-descent SQL parser with three-valued semantics, a grammar of
  protected SQL text, the RFC decoders, the other scanner, or its own inverse.
- **Sequential state** (`QueryCache*`, `LeafWrite`, `GroupWrite*`, `Pagination`,
  `CivilDays`) against plain references: a history of puts, the list of acts of
  an operation, slices of a result, a day-by-day count.
- `Wrappers`, `Slices` and `Counting` are small shared helpers.

Where the code does not do what a reader would expect, the model follows the
code and the difference is a lemma:

- A return that hands its connection to a waiter drops the waiters it has just
  expired without calling them. Exactly-once completion holds if and only if
  no return does both (`PoolTheorems.ExactlyOnceIff`, `LostCallback`).
- After close the pool's `total` is no longer exact and can reach -1
  (`PoolTheorems.TotalAfterClose`); the equation is for open pools.
  `PoolAfterClose` says what it still satisfies then.
- `bindNamed` takes `$` after an identifier character for ordinary text, the
  placeholder scanner does not: `a$t$:x$t$` binds and then fails to build
  (`NamedParamsAgree.IdentifierTagSwallowsSite`). Text in which every such tag
  that is closed later encloses raw text only is safe (`BindThenBuild`); one
  that encloses a site makes the build fail (`NamedParamsTrap.BuildsIff`).
- A put too large for the cache returns before the lookup, so an older entry
  for the same key stays and can still be served
  (`QueryCacheHistory.OversizedPutChangesNothing`).
- Cache keys join source and key with NUL. Hits are right exactly for source
  names of which none, followed by NUL, begins another
  (`HitIsLatest`, `ClashGivesWrongHit`).
- The composite printer does not quote parentheses, and a single NULL field
  prints as `()`; the round trip holds exactly otherwise
  (`PgArray.RoundTripExactly`).
- The late driver callback of a timed-out native query gives its connection
  back without looking at the status it received. A broken connection goes back
  to the pool un-invalidated exactly when the timer won the race
  (`NativeQuery.BrokenConnectionReturnsIff`, `BrokenConnectionGoesBack`).
- On a data source of its own a retried write runs its interceptors again, and
  a native driver that declines a statement makes the before-interceptors run
  twice (`LeafWrite.RetryRunsInterceptorsAgain`, `DeclineRunsBeforeTwice`);
  in a group each runs once, because the targets are called without the flag.
- A second `shutdown` of the executor returns at once, while the first may still
  be draining (`Executor.SecondShutdownReturnsEarly`).
- An open quote in the base statement, such as an apostrophe in a comment, hides
  Oracle's suffix; it is found exactly behind closed quotes
  (`OracleRoundTrip.RoundTripIff`, `ApostropheInComment`).
- Two calls of `stop` at once leave a gap in which a `start` loses track of the
  write buffer's worker (`WriteBuffer.DisorderlyStart`, `DisorderIsReachable`);
  with one `stop` at a time there is none (`OneStopIsOrderly`).
- The session's after-interceptors also run when it finds the operation stopped
  and does not execute the statement (`LeafWrite.InterceptorsPerAttempt`).

## Model

| member | source | states |
|---|---|---|
| Pool.MakeConfig | src/core/connection_pool.cpp:127-139 | whatever bounds are configured, the pool works with 1 <= max and min <= max, and with the configured ones where they are possible |
| PoolTheorems.PoolIsExact | src/core/connection_pool.cpp:38-790 | in every state of every run of an open pool, total = idle + borrowed + in flight and total <= max; open or closed, borrowed is the number of handles out and each connection ever opened is in exactly one place |
| PoolTheorems.CompletionsAreUnique | src/core/connection_pool.cpp:382-412 | over every run no request completes twice, only issued requests complete, and waiters leave the queue for a connection or a slot to open one in enqueue order |
| PoolTheorems.ExactlyOnceIff | src/core/connection_pool.cpp:69-110 | once shutdown is done and all tasks have run, every request completed exactly once if and only if no return both expired waiters and handed its connection over |
| PoolTheorems.LostCallback | src/core/connection_pool.cpp:102-110 | a reachable state and a return after which an expired waiter's callback is lost |
| PoolTheorems.TotalAfterClose | src/core/connection_pool.cpp:821-821 | a reachable closed state whose total is -1, so the equation is for open pools only |
| PoolAfterClose.TotalStaysInBounds | src/core/connection_pool.cpp:320-345 | open or closed, in every state of every run total is at most max, and below zero by no more than the synchronous borrows that opened after close, of which there are at most max |
| PoolAfterClose.TotalCountsHandles | src/core/connection_pool.cpp:38-68 | once the pool is closed with nothing in flight and total equal to the handles out, it stays equal to them for ever |
| PoolAfterClose.ShutdownSettles | src/core/connection_pool.cpp:821-828 | a shutdown that ends with nothing in flight establishes that equation |
| PoolAfterClose.ClosedCounters | src/core/connection_pool.cpp:38-828 | no region of a closed pool adds to its counters, and only a late synchronous opening takes total below zero |
| PoolTheorems.StepInv | src/core/connection_pool.cpp:38-828 | each lock-held region, by any thread in any order, keeps the pool's invariant |
| PoolTheorems.RunInv | src/core/connection_pool.cpp:38-828 | the invariant in every state of every run |
| PoolProtocol.ReturnBalanced | src/core/connection_pool.cpp:56-110 | a return moves its slot, handle, connection and waiters without losing or duplicating any of them |
| PoolProtocol.ServeBalanced | src/core/connection_pool.cpp:612-630 | waking waiters conserves slots, handles, connections and requests |
| PoolProtocol.ServePrefix | src/core/connection_pool.cpp:612-630 | waking serves a prefix of the queue, in order |
| PoolProtocol.FireBalanced | src/core/connection_pool.cpp:38-828 | every region conserves slots, handles, connections and requests |
| PoolCustody.DiscardIff | src/core/connection_pool.cpp:38-828 | an event takes a connection out of use if and only if it returns it as unusable or too old, finds that a ping it needed failed, lets it go in the health check, or still holds it after close |
| PoolCustody.OutOfUseIff | src/core/connection_pool.cpp:38-828 | over every run a connection is out of use exactly when some earlier event discarded it |
| PoolCustody.DiscardedForGood | src/core/connection_pool.cpp:62-67 | a discarded connection is closed and never idle, held or granted again in any later state |
| PoolCustody.BrokenReturn | src/core/connection_pool.cpp:62-67 | in particular one returned as unusable |
| PoolCustody.UsedUntilDiscarded | src/core/connection_pool.cpp:38-828 | and every other connection ever opened is still idle, held or on its way to somebody |
| PoolCustody.ReturnedToWaiter | src/core/connection_pool.cpp:69-105 | a usable connection returned to an open pool goes to the first waiter still in time, past the late ones |
| PoolCustody.ReturnedToIdle | src/core/connection_pool.cpp:69-113 | with no waiter in time it becomes idle, last in line and freshly validated, and the late waiters are told |
| PoolCustody.PingedGoesOn | src/core/connection_pool.cpp:289-313 | a connection that needed no ping or answered it goes to its caller, its request, or back to the idle queue with its validation time moved on exactly when it was pinged |
| PoolCustody.OpenedForAsker | src/core/connection_pool.cpp:650-687 | a connection opened for a caller or a request goes to it, one opened to refill becomes idle |
| PoolCustody.RequestIsServed | src/core/connection_pool.cpp:455-593 | on an open pool a request is served from the idle queue, from a free slot or by waiting, in this order, and is turned away only if it will not wait |
| PoolCustody.NoUnvalidatedGrant | src/core/connection_pool.cpp:489-512 | a request never gets an idle connection that is too old or due for a ping without one |
| PoolCustody.RefusalsAreEarned | src/core/connection_pool.cpp:382-412 | in every run a callback without a connection says truly whether the pool was closed or exhausted, the request stopped, the executor full or the connection failed |
| PoolCustody.WakeServesAll | src/core/connection_pool.cpp:604-636 | waking leaves a waiter only when nothing is idle and there is no room |
| PoolCustody.RefillReachesMinimum | src/core/connection_pool.cpp:747-755 | the health check reserves exactly what the pool lacks of its minimum |
| PoolCustody.IdleTimeoutRetires | src/core/connection_pool.cpp:712-720 | it lets an idle connection go exactly after the idle timeout and above the minimum |
| PoolClass.ConnectionPool.constructor | src/core/connection_pool.cpp:142-169 | warm-up opens connections until one fails or the minimum is reached; with distinct connections the result is the initial world of the protocol |
| PoolClass.ConnectionPool.EraseLate | src/core/connection_pool.cpp:74-99 | the erase loop keeps the waiters still in time, in order, and returns the others |
| PoolClass.ConnectionPool.ReturnConn | src/core/connection_pool.cpp:38-113 | the return region: closed when the pool is, the connection is unusable or too old, otherwise handed over or kept idle |
| PoolClass.ConnectionPool.SyncEnter | src/core/connection_pool.cpp:261-316 | one turn of the borrow loop: take an idle connection, reserve a slot or give up |
| PoolClass.ConnectionPool.SyncPinged | src/core/connection_pool.cpp:289-313 | after off-lock validation: a handle, or the slot given back |
| PoolClass.ConnectionPool.SyncCreated | src/core/connection_pool.cpp:320-345 | after off-lock creation: a handle, or the slot given back |
| PoolClass.ConnectionPool.BorrowAsync | src/core/connection_pool.cpp:455-593 | the asynchronous borrow region, from idle connection to queue |
| PoolClass.ConnectionPool.ValidationRejected | src/core/connection_pool.cpp:551-571 | a rejected validation task puts the connection back |
| PoolClass.ConnectionPool.Validated | src/core/connection_pool.cpp:513-540 | the validation task's first region |
| PoolClass.ConnectionPool.ValidationFailed | src/core/connection_pool.cpp:541-549 | the validation task's second region gives the slot back |
| PoolClass.ConnectionPool.CreationRejected | src/core/connection_pool.cpp:689-700 | a rejected creation task gives its reserved slot back |
| PoolClass.ConnectionPool.Created | src/core/connection_pool.cpp:650-687 | the creation task's region |
| PoolClass.ConnectionPool.ExpireWaiters | src/core/connection_pool.cpp:382-412 | late or stopped waiters leave the queue, each to one delivery |
| PoolClass.ConnectionPool.WakeAsyncWaiters | src/core/connection_pool.cpp:604-636 | the wake loop serves waiters from idle connections or free slots, in order |
| PoolClass.ConnectionPool.HealthTake | src/core/connection_pool.cpp:712-720 | the health check takes one idle connection out |
| PoolClass.ConnectionPool.HealthInspected | src/core/connection_pool.cpp:731-744 | and puts it back or closes it, giving its slot back |
| PoolClass.ConnectionPool.HealthReserve | src/core/connection_pool.cpp:747-755 | the refill reserves slots up to the minimum, within the maximum |
| PoolClass.ConnectionPool.HealthRefilled | src/core/connection_pool.cpp:775-785 | the refill loop turns reserved slots into idle connections and returns the rest |
| PoolClass.ConnectionPool.BeginShutdown | src/core/connection_pool.cpp:794-803 | shutdown closes the pool and takes every waiter |
| PoolClass.ConnectionPool.CloseIdle | src/core/connection_pool.cpp:805-812 | shutdown closes one idle connection per turn |
| PoolClass.ConnectionPool.EndShutdown | src/core/connection_pool.cpp:821-828 | shutdown resets total to the handles still out and delivers each waiter |
| NativeQuery.StepInv | src/async/async_engine.cpp:296-470 | each atomic step of driver callback, timer, continuations and stop signal keeps the invariant |
| NativeQuery.RunInv | src/async/async_engine.cpp:296-470 | the invariant in every state of every run |
| NativeQuery.EveryStepIsCareful | src/async/async_engine.cpp:19-31 | at every step of every run: at most one completion, the connection leaves only after the driver finished and its stop binding ended, cancel() starts and runs only on a held connection |
| NativeQuery.RenderHasConnection | src/async/async_engine.cpp:354-367 | the logging hook's connection is never null |
| NativeQuery.NeverStuck | src/async/async_engine.cpp:296-470 | no interleaving of the lock, the binding and the flags deadlocks |
| NativeQuery.FinishedExactlyOnce | src/async/async_engine.cpp:308-446 | a finished query completed once and gave its connection back once, invalidated exactly if the driver won and the connection was broken or the operation stopped; a refused one did neither |
| NativeQuery.BrokenConnectionReturnsIff | src/async/async_engine.cpp:308-319 | a finished query whose driver reported a broken connection gives it back un-invalidated if and only if the timer won the exchange on resolved |
| NativeQuery.BrokenConnectionGoesBack | src/async/async_engine.cpp:309-318 | a run in which a broken connection goes back to the pool un-invalidated |
| NativeQuery.RunIsShort | src/async/async_engine.cpp:296-470 | every run has at most 23 steps |
| NativeQuery.EveryMaximalRunEndsWell | src/async/async_engine.cpp:296-470 | hence every run that cannot go on has completed and released exactly once |
| NativeQueryOutcome.CompletionIs | src/async/async_engine.cpp:320-384 | from the events of the run: the completion carries the timeout, the stop that the check found, or the driver's answer, and the connection is invalidated exactly for a stop or for an answer on a broken connection |
| NativeQueryOutcome.PlainQueryAnswers | src/async/async_engine.cpp:320-384 | a query with neither a stop nor a delivered timeout answers with the driver's result and invalidates exactly what the driver called broken |
| NativeQueryOutcome.CancelsAre | src/async/async_engine.cpp:19-31 | cancel() is called once per entering stop and once by a timer that won, and by nobody else |
| NativeQueryControl.Control.ReleaseStop | src/async/async_engine.cpp:27-30 | ends the stop binding and nothing else |
| NativeQueryControl.Control.Reset | src/async/async_engine.cpp:378-381 | the connection is given back only after the driver finished and the binding ended |
| NativeQueryControl.Control.DriverFinished | src/async/async_engine.cpp:308-308 | the callback marks the driver done before anything else |
| NativeQueryControl.Control.DriverResolve | src/async/async_engine.cpp:309-309 | the exchange tells the driver it lost exactly when the timer won |
| NativeQueryControl.Control.DriverLate | src/async/async_engine.cpp:310-318 | the late driver releases exactly when the timeout was already delivered |
| NativeQueryControl.Control.TimerResolve | src/async/async_engine.cpp:398-400 | the exchange tells the timer it lost exactly when the driver won |
| NativeQueryControl.Control.CancelIfHeld | src/async/async_engine.cpp:451-461 | the timer cancels only a connection still held |
| NativeQueryControl.Control.TimeoutLast | src/async/async_engine.cpp:438-446 | the timeout releases exactly when the driver had finished |
| NativeQueryControl.Control.Invalidate | src/async/async_engine.cpp:333-336 | a stopped or broken query invalidates its connection before giving it back |
| StopSignal.StepInv | src/common/operation_options.cpp:12-58 | every locked region of subscribe, request and lease release keeps the invariant |
| StopSignal.EveryStepIsOrderly | src/common/operation_options.cpp:12-58 | a callback runs at most once and starts only while its slot is filled; cancel() starts at most once, under a live binding that cannot end meanwhile |
| StopSignal.NeverStartsAfterRelease | src/common/operation_options.cpp:36-44 | after the lease destructor returned the callback never starts, in any continuation |
| StopSignal.NeverCancelsAfterBinding | src/common/operation_options.cpp:186-203 | after a binding ended, its connection is never cancelled again |
| StopSignal.NoLostCancellation | src/common/operation_options.cpp:48-57 | once the request went through its list, every lease still held has been called exactly once |
| StopSignal.ReachedLeaseRuns | src/common/operation_options.cpp:55-55 | a reached slot runs if and only if its lease destructor has not returned |
| StopSignal.LateSubscriberIsCalled | src/common/operation_options.cpp:45-46 | a subscriber that comes after the request is called before it gets its lease |
| OperationClasses.Signal.Subscribe | src/common/operation_options.cpp:29-35 | registers the slot, or tells a late subscriber to run itself |
| OperationClasses.Signal.Request | src/common/operation_options.cpp:50-54 | only the first request gets callbacks, all that are registered |
| OperationClasses.Signal.Unsubscribe | src/common/operation_options.cpp:37-40 | the slot is gone from the map |
| OperationClasses.OperationState.constructor | src/common/operation_options.cpp:136-140 | a child never has a later deadline or more permission than its parent |
| OperationClasses.OperationState.TryStop | src/common/operation_options.cpp:159-163 | true exactly for the call that wrote the reason, which is never overwritten |
| OperationClasses.OperationState.Status | src/common/operation_options.cpp:165-168 | the reason, or a timeout once the deadline has passed |
| OperationClasses.Pending.TakeTarget | src/common/operation_state.h:46-53 | exactly one caller takes the completion |
| OperationTree.StepInv | src/common/operation_options.cpp:126-179 | every step of creation, stop, propagation and delivery keeps the tree's invariant |
| OperationTree.NarrowsDownwards | src/common/operation_options.cpp:138-141 | in every run a descendant's deadline is at most its ancestor's, and its fallback permission implies its ancestor's |
| OperationTree.DeadlineReachesDescendants | src/common/operation_options.cpp:165-168 | an ancestor's passed deadline makes every descendant non-OK at once |
| OperationTree.StopIsForGood | src/common/operation_options.cpp:159-168 | a reason is written once, and non-OK is for good |
| OperationTree.StopReachesDescendants | src/common/operation_options.cpp:141-164 | a stopped ancestor leaves a live descendant stopped as soon as no stop is under way on the path between the two, and for ever after, whatever the rest of the tree does |
| OperationTree.NegativeTimeoutIsStopped | src/common/operation_options.cpp:148-148 | an operation with a negative timeout is never handed out as OK |
| OperationOrigins.StatusFollowsBounds | src/common/operation_options.cpp:126-168 | from the creating events: an operation that nothing has stopped is OK exactly as long as no deadline or timeout of its own or of an operation above it has passed, and timed out from then on |
| OperationOrigins.TimeoutTakesEffect | src/common/operation_options.cpp:126-168 | stopped or not, it is not OK once such a bound has passed |
| OperationOrigins.FirstStopCounts | src/common/operation_options.cpp:136-168 | the first event that stops an operation, its own or its parent's, gives it its code for good |
| OperationOrigins.ReasonIs | src/common/operation_options.cpp:159-164 | an operation has a reason exactly when some event stopped it |
| OperationOrigins.FallbackIs | src/common/operation_options.cpp:141-141 | it may fall back exactly when every creation on the path up allowed it |
| OperationOrigins.NegativeIsRefused | src/common/operation_options.cpp:148-148 | created with a negative timeout it is never handed out as OK |
| OperationOrigins.Origin | src/common/operation_options.cpp:134-155 | every operation of every state comes from one creating event and keeps its options |
| OperationTree.CompletionAtMostOnce | src/common/operation_state.h:46-59 | a wrapped completion is called at most once in every run |
| OperationTree.StopCompletesWrapper | src/common/operation_state.h:65-67 | once the stop of its own operation went through and its own delivery is not under way, a wrapper that still lives was called exactly once, for good, also if it is dropped later |
| OperationTree.StoppedMeansStopStatus | src/common/operation_state.h:54-58 | a delivery after the stop carries the stop status, whatever the query returned |
| OperationTree.StatusIsRead | src/common/operation_state.h:46-59 | between taking and delivering the status is read, and what is delivered is the taker's code if that read found OK and the stop it found otherwise |
| OperationTree.OwnResultArrives | src/common/operation_state.h:46-69 | end to end: if the operation is still OK when the result has been delivered, a call of the wrapper took the delivery and exactly that call's code arrived |
| WhereClause.MarksMatchParams | src/common/sql_builder.cpp:58-158 | the text of a condition tree has one placeholder per collected parameter |
| WhereClause.FactorParses | src/common/sql_builder.cpp:127-142 | any well-formed tree rendered as a child parses, in place, as one boolean factor with the tree's three-valued meaning |
| WhereClause.ConditionParses | src/common/sql_builder.cpp:58-158 | any well-formed tree rendered at the top parses as exactly one search condition with the tree's three-valued meaning under its parameters |
| WhereClause.BetweenParses | src/common/sql_builder.cpp:110-119 | BETWEEN keeps its inner AND and its two parameters in order |
| WhereClause.InParses | src/common/sql_builder.cpp:93-109 | IN and NOT IN, including the empty lists, mean three-valued membership in the values |
| BuilderTheorems.WhereParses | src/common/sql_builder.cpp:160-166 | a WHERE clause after any head that uses up its own parameters means the conjunction of its conditions |
| BuilderTheorems.EveryMarkIsBound | src/common/sql_builder.cpp:322-465 | every built statement has exactly one placeholder per parameter |
| BuilderTheorems.BuiltWhereMeans | src/common/sql_builder.cpp:322-465 | the WHERE of every built SELECT, UPDATE and DELETE, parsed out of the whole statement, means the conjunction of its conditions, and ends where ORDER BY begins |
| BuilderTheorems.CountMeansTheSame | src/common/sql_builder.cpp:303-320 | the generated COUNT has the same parameters and, for every row, the same truth value as the page's SELECT |
| BuilderTheorems.UpdateBinds | src/common/sql_builder.cpp:430-435 | the k-th SET field is assigned the placeholder that binds the k-th value |
| BuilderTheorems.InsertBinds | src/common/sql_builder.cpp:403-414 | the k-th column and the k-th placeholder of VALUES belong to the k-th value |
| BuilderRules.BuiltIff | src/common/sql_builder.cpp:322-465 | a statement is built if and only if every field of the builder keeps its rule, names character by character and conditions node by node |
| BuilderRules.NoWhereOnRequest | src/common/sql_builder.cpp:449-452 | a built UPDATE or DELETE without WHERE comes only from a builder that allows all rows |
| BuilderRules.NameIs | src/common/sql_builder.cpp:19-33 | the identifier check accepts exactly the names without control characters, empty parts and lone stars |
| BuilderRules.TreeIs | src/common/sql_builder.cpp:58-158 | a condition tree is rendered exactly when every node of it is well formed |
| StatementReader.BuiltReadsBack | src/common/sql_builder.cpp:322-465 | an independent reader finds in every built statement the verb, the table, the fields in order, the orderings with their directions, and a condition with the truth of the builder's conditions for every row |
| StatementReader.CountReadsBack | src/common/sql_builder.cpp:303-320 | and in the COUNT of a page the same table and condition |
| StatementReader.OrdersRead | src/common/sql_builder.cpp:376-390 | the printed orderings read back, each with its direction |
| BuilderLoops.CheckIdentifier | src/common/sql_builder.cpp:19-32 | the scan accepts exactly the dotted names the specification calls valid |
| BuilderLoops.CheckUnique | src/common/sql_builder.cpp:168-176 | accepts exactly lists of valid, pairwise different names |
| BuilderLoops.Renderer.Render | src/common/sql_builder.cpp:58-158 | succeeds exactly on well-formed trees and appends their text and values |
| BuilderLoops.Renderer.RenderAtom | src/common/sql_builder.cpp:70-126 | the same for conditions without children |
| BuilderLoops.Renderer.RenderGroup | src/common/sql_builder.cpp:127-142 | the same for AND and OR groups |
| BuilderLoops.Renderer.AppendWhere | src/common/sql_builder.cpp:160-166 | appends WHERE and the conjunction, or nothing |
| BuilderLoops.BuildStatement | src/common/sql_builder.cpp:322-465 | the build loops give exactly the specified statement; they build exactly when every field keeps its rule, and without WHERE only what may change all rows |
| BuilderLoops.BuildPageQuery | src/common/sql_builder.cpp:303-320 | page and COUNT are exactly the specified ones, built exactly for an admissible ordered SELECT |
| NamedParamsAgree.BindThenBuild | src/common/named_params.cpp:28-97 | if bindNamed succeeds and every dollar quote that a `$` inside an identifier seems to open is never closed or holds raw text only, buildSql on its output never reports a mismatch and yields the original text with each name replaced by its own value's literal |
| NamedParamsAgree.ScansAgree | src/core/idatabase_connection.cpp:242-340 | under the same condition replacePlaceholders finds exactly the substituted sites, in order |
| NamedParamsAgree.TagAgrees | src/core/idatabase_connection.cpp:273-289 | a dollar quote that only the placeholder scanner takes for one, over raw text, leaves both scanners at its end |
| NamedParamsAgree.UnclosedTag | src/core/idatabase_connection.cpp:273-289 | a tag opened inside an identifier and never closed in the input is skipped by the placeholder scanner, because the output cannot close it either |
| NamedParamsAgree.OccursBack | src/common/named_params.cpp:28-97 | text without a placeholder that occurs in the output occurs in the input, at least as far on |
| NamedParamsAgree.InlineIdentity | src/common/named_params.cpp:28-97 | putting every name back gives the input: nothing but the names is touched |
| NamedParamsAgree.IdentifierTagSwallowsSite | src/core/idatabase_connection.cpp:273-289 | `a$t$:x$t$` binds, but the placeholder scanner takes its site for quoted text and buildSql fails |
| NamedParamsTrap.BuildsIff | src/core/idatabase_connection.cpp:242-340 | after a successful bind, buildSql reports a mismatch exactly when the scanners part and otherwise yields the text with the literals, for every text whose scanners, if they part, do so at a quote around a site with no `?` of the text's own behind it |
| NamedParamsTrap.TagSwallows | src/core/idatabase_connection.cpp:273-289 | a `$` inside an identifier that opens a quote around a site makes the placeholder scanner step over that site |
| NamedParamsTrap.OccursForward | src/common/named_params.cpp:28-97 | a closing tag of the input is still there in the output |
| NamedParamsTrap.MarksAreSites | src/common/named_params.cpp:28-97 | without a `?` of its own the bound text holds exactly one `?` per value |
| SqlTemplates.BindNamedIs | src/common/named_params.cpp:11-97 | for every statement written as characters, literals, names, comments, alternative and dollar quotes, casts and sites: binding succeeds exactly when the parameter names are well formed, distinct and those of the sites, copies everything else and gives each site its own value |
| SqlTemplates.TemplateBinds | src/common/named_params.cpp:28-97 | the scan reads such a statement segment by segment, whatever the protected text contains |
| SqlTemplates.SegmentBinds | src/common/named_params.cpp:28-97 | one iteration reads exactly the segment that stands there |
| SqlTemplates.OffenceFails | src/common/named_params.cpp:45-89 | behind any such text a hash, a placeholder, :1, $1 or anything unclosed makes binding fail |
| SqlTemplates.ValuesAre | src/common/named_params.cpp:20-26 | the value map exists exactly for well-formed distinct names and gives each its value |
| SqlTemplatesOf.BindNamedIff | src/common/named_params.cpp:11-97 | for every text and every parameter list: binding succeeds if and only if the text is made of segments whose sites are exactly the well-formed, distinct parameter names, and then yields what the segments say |
| SqlTemplatesOf.TemplateOf | src/common/named_params.cpp:28-97 | every text that the scan accepts is made of segments |
| SqlTemplatesOf.CommentIs | src/common/named_params.cpp:50-58 | every comment that closes is text and comments within, up to its own closing mark |
| PlaceholderTemplates.BuildSqlIs | src/core/idatabase_connection.cpp:242-360 | for every statement written with placeholders buildSql succeeds exactly when there are as many values as placeholders outside protected text, and puts the k-th literal for the k-th of them |
| PlaceholderTemplates.TemplateFills | src/core/idatabase_connection.cpp:242-340 | the placeholder scan finds exactly those, in order, and copies the rest |
| NamedParamsLoops.CollectValues | src/common/named_params.cpp:12-27 | the value map, or an error for a malformed or repeated name |
| NamedParamsLoops.ScanPiece | src/common/named_params.cpp:28-90 | one turn of the binding scan |
| NamedParamsLoops.Bind | src/common/named_params.cpp:11-97 | bindNamed is the specified binding |
| NamedParamsLoops.SkipProtected | src/core/idatabase_connection.cpp:258-335 | one turn of the placeholder scan |
| NamedParamsLoops.ReplacePlaceholders | src/core/idatabase_connection.cpp:242-340 | replacePlaceholders, copying in spans, is the specified replacement and count |
| NamedParamsLoops.Build | src/core/idatabase_connection.cpp:342-359 | buildSql is the specified text, or a mismatch |
| QueryCacheHistory.AfterInv | src/core/query_cache.cpp:41-173 | after every run the LRU list is a duplicate-free permutation of the keys, the byte total is the exact sum and both bounds hold |
| QueryCacheHistory.HitIsLatest | src/core/query_cache.cpp:91-111 | a hit is the latest accepted, unexpired put for that source and key since the last configure or invalidate, for sources that clash with none in use |
| QueryCacheHistory.HitIsLatestForPlainNames | src/core/query_cache.cpp:9-16 | in particular for all source names without NUL |
| QueryCacheHistory.ClashGivesWrongHit | src/core/query_cache.cpp:9-16 | for every two names that clash some run answers one with rows put under the other: the condition is exact |
| QueryCacheHistory.KeysApart | src/core/query_cache.cpp:9-16 | composite keys of names that do not clash are equal only for equal source and key |
| QueryCacheHistory.PutThenHit | src/core/query_cache.cpp:113-149 | right after an accepted put the same question is a hit with those rows |
| QueryCacheHistory.OversizedPutChangesNothing | src/core/query_cache.cpp:121-123 | a put over the memory bound leaves the cache, and an older entry, as it was |
| QueryCache.PutKeeps | src/core/query_cache.cpp:113-149 | a put keeps every bound, its own key survives eviction, other keys are only dropped |
| QueryCache.GetKeeps | src/core/query_cache.cpp:91-111 | a get keeps the invariant, drops at most the expired entry and moves a hit to the front |
| QueryCache.InvalidateKeeps | src/core/query_cache.cpp:151-173 | invalidation removes exactly the keys under the source's prefix |
| QueryCache.EvictKeeps | src/core/query_cache.cpp:47-69 | eviction keeps a most-recently-used prefix and leaves room |
| QueryCache.EvictSparesFront | src/core/query_cache.cpp:129-138 | eviction after a refresh never reaches the refreshed entry |
| QueryCacheRecency.BoundsHold | src/core/query_cache.cpp:41-173 | in every run there are never more entries or bytes than configured, and the bytes are those of the entries |
| QueryCacheRecency.ListIsByLastUse | src/core/query_cache.cpp:91-149 | in every run the list is in order of last use, a use being an accepted put or a hit |
| QueryCacheRecency.EvictsNoMoreThanNeeded | src/core/query_cache.cpp:47-69 | eviction stops at the longest most recent prefix that fits |
| QueryCacheRecency.HitIffLatest | src/core/query_cache.cpp:91-149 | without bounds a question is answered exactly when the plain history has an unexpired put for it, and with its rows |
| QueryCacheState.State.Configure | src/core/query_cache.cpp:71-81 | clears everything under the new configuration |
| QueryCacheState.State.EraseLocked | src/core/query_cache.cpp:41-45 | removes one entry from map, list and total |
| QueryCacheState.State.EvictLocked | src/core/query_cache.cpp:47-69 | the eviction loop is the specified eviction |
| QueryCacheState.State.Get | src/core/query_cache.cpp:91-111 | answers as specified and keeps the invariant |
| QueryCacheState.State.Put | src/core/query_cache.cpp:113-149 | stores as specified and keeps the invariant |
| QueryCacheState.State.Invalidate | src/core/query_cache.cpp:151-173 | the invalidation loop is the specified one |
| GroupWrite.TriesInOrder | src/async/async_engine.cpp:1077-1099 | targets are tried in order, each at most once, the next only after a failure judged safe off the shadow route |
| GroupWrite.TriesAreBare | src/async/async_engine.cpp:1081-1083 | a target, called with both flags false, runs no gate and no interceptor: it only tries, sends and marks itself |
| GroupWrite.OncePerOperation | src/async/async_engine.cpp:1060-1216 | a write the executor took passes the pre-gate once and runs route, before-, after- and completion-interceptors once, whatever the retries and failovers; every write reports once, a refused one at once |
| GroupWrite.BufferedExactlyWhen | src/async/async_engine.cpp:1100-1121 | a write is offered to the buffer, once, exactly when every target failed safely or none existed |
| GroupWrite.MarkedExactlyWhen | src/async/async_engine.cpp:1085-1089 | the group is marked as written, once, exactly on a non-shadow success of the target reached |
| GroupWrite.TargetMarkedExactlyWhen | src/async/async_engine.cpp:780-780 | a target marks itself, once, exactly when it is the one reached and it succeeded, on the shadow route too |
| GroupWrite.ResultIs | src/async/async_engine.cpp:1084-1132 | the caller is told the outcome of the target where the run ended, or that the write was buffered |
| GroupWrite.NoTargetResult | src/async/async_engine.cpp:1184-1203 | with no target the buffer is asked, and without it the circuit is reported open |
| GroupWrite.RetriesAreAllowed | src/async/async_engine.cpp:617-647 | each attempt starts at most once, within the allowed number, and only after a retryable failure of the one before |
| GroupWrite.NonIdempotentOnce | src/async/async_engine.cpp:582-588 | a non-idempotent write never starts twice on one target |
| GroupWrite.ExecutedAtMost | src/async/async_engine.cpp:582-588 | a statement is executed on one target at most as often as it may be tried there, a non-idempotent one at most once |
| LeafWrite.OneAttempt | src/async/async_engine.cpp:662-866 | whatever one attempt meets: it passes the gate if asked and posted, executes at most once, runs its after-interceptors exactly when it executed or its session found the operation stopped just before, completes every round of before-interceptors but the one before a native refusal, and marks the target exactly on success |
| LeafWrite.GateOnce | src/async/async_engine.cpp:617-658 | a leaf's gate is passed once, by its first attempt, if asked for; no retry passes it again |
| LeafWrite.InterceptorsPerAttempt | src/async/async_engine.cpp:728-753 | with the flag after-interceptors run once per statement executed or halted by its session, and before-interceptors once per completion and native refusal; without it none runs |
| LeafWrite.MarkedOnSuccess | src/async/async_engine.cpp:850-852 | a leaf marks its target once exactly when it succeeds |
| LeafWrite.AloneCounts | src/async/async_engine.cpp:567-569 | the exact counts for a write on a source of its own, with gate and interceptors, stops found by the session included |
| LeafWrite.RetryRunsInterceptorsAgain | src/async/async_engine.cpp:632-647 | one retry on a source of its own: the gate once, the interceptors twice |
| LeafWrite.DeclineRunsBeforeTwice | src/async/async_engine.cpp:826-849 | a native driver that declines: one execution, but the before-interceptors ran twice |
| LeafWrite.LeafActsAre | src/async/async_engine.cpp:617-656 | a leaf touches gate and interceptors only through its flags |
| LeafWrite.LeafAttempts | src/async/async_engine.cpp:617-647 | each attempt of a leaf starts at most once, within the allowed number, after a retryable failure of the one before |
| LeafWrite.WithoutLeaveOnce | src/async/async_engine.cpp:582-589 | a write that is neither idempotent nor left to a source that retries writes is started at most once |
| LeafWrite.RetriedWhenAllowed | src/async/async_engine.cpp:632-647 | where repeating is allowed a passing failure is followed by the next attempt |
| LeafWrite.FirstRefusalReported | src/async/async_engine.cpp:662-725 | whatever refuses an attempt first is what it reports |
| LeafWrite.ExecutedReportsResult | src/async/async_engine.cpp:765-852 | an executed statement reports its own result, native or not |
| GroupWriteState.GroupState.ExecuteOne | src/async/async_engine.cpp:662-866 | one attempt does exactly the specified acts under its flags and returns the specified status |
| GroupWriteState.GroupState.RunBorrowed | src/async/async_engine.cpp:698-853 | the borrow callback does exactly the specified acts |
| GroupWriteState.GroupState.RunNative | src/async/async_engine.cpp:765-819 | the native callback does exactly the specified acts |
| GroupWriteState.GroupState.RunSession | src/async/async_engine.cpp:841-852 | the blocking session, its stop check before executing included, does exactly the specified acts and returns the specified status |
| GroupWriteState.GroupState.ExecuteLeaf | src/async/async_engine.cpp:617-658 | the retry chain, passing the gate flag to the first attempt only, does exactly the specified acts and returns the specified status |
| GroupWriteState.GroupState.RunTargets | src/async/async_engine.cpp:1077-1133 | the routing chain does exactly the specified acts |
| GroupWriteState.GroupState.BufferOrFinish | src/async/async_engine.cpp:1184-1203 | offers the write to the buffer, if there is one, and reports |
| GroupWriteState.GroupState.Start | src/async/async_engine.cpp:1135-1216 | the whole operation, a refused post included, does exactly the specified acts |
| OdbcUnicode.ChunkingIsInvisible | src/driver/odbc_unicode.h:16-46 | for every cutting into chunks: same verdict, same text, same pending unit as one append |
| OdbcUnicode.Utf16Becomes8 | src/driver/odbc_unicode.h:16-48 | 16-bit input is accepted and complete exactly when it is well-formed UTF-16, and its text is then well-formed UTF-8 for exactly its scalar values |
| OdbcUnicode.Utf32Becomes8 | src/driver/odbc_unicode.h:16-48 | 32-bit input is accepted exactly when every unit is a scalar value, and decodes back to it |
| OdbcUnicode.Utf8RoundTrip | src/driver/odbc_unicode.h:30-43 | what is pushed for scalar values is well-formed UTF-8 that decodes to them |
| OdbcUnicode.AppendAgrees | src/driver/odbc_unicode.h:16-46 | the same agreement with the UTF-16 decoder from any state with nothing pending |
| OdbcUnicode.BitForms | src/driver/odbc_unicode.h:31-42 | the shifts and masks on 32-bit words are the divisions and remainders used here |
| OdbcUnicode.OdbcWideText.append | src/driver/odbc_unicode.h:16-46 | the loop is the specified append, also on what it leaves behind after a rejection |
| OdbcUnicode.OdbcWideText.complete | src/driver/odbc_unicode.h:48-48 | true exactly when no surrogate is pending |
| CivilDays.EraFormulaCountsDays | src/common/oracle_types.cpp:31-38 | for every valid date both source forms equal the recursive count of days since 1970-01-01 |
| CivilDays.TimestampClosedForm | src/common/types.cpp:237-248 | the form in tryParseTimestamp never wraps and has the closed form of the other |
| CivilDays.OracleClosedForm | src/common/oracle_types.cpp:31-38 | the Oracle form, with its unsigned wrap-around, has the same closed form |
| CivilDays.EraIsFloor | src/common/oracle_types.cpp:33-34 | the truncating division with its correction is the floor, for negative years too |
| CivilDays.EpochIsZero | src/common/oracle_types.cpp:37-37 | 1970-01-01 is day 0 |
| CivilDays.NextDayIsOneMore | src/common/types.cpp:224-232 | the next Gregorian day is one more |
| CivilDays.OrderPreserving | src/common/oracle_types.cpp:31-38 | day numbers order dates as the calendar does, and no two dates share one |
| CivilDays.SecondsInjective | src/common/types.cpp:249-250 | zoned timestamps with the same offset are the same instant only if all their fields agree |
| CivilDays.OffsetIsAhead | src/common/types.cpp:204-250 | a local time ahead of UTC is the instant of the UTC time earlier by the offset, on the day before where that passes midnight |
| CivilDays.OffsetIsBehind | src/common/types.cpp:204-250 | a local time behind UTC is the instant of the later UTC time, on the day after where that passes midnight |
| CivilDays.SecondsCountFromEpoch | src/common/types.cpp:249-250 | seconds count from midnight UTC of 1970-01-01 |
| Pagination.BoundsAreExact | src/common/pagination.cpp:112-116 | no 64-bit step of the guard or the offset overflows, and a page is accepted exactly when offset + size + 1 fits |
| Pagination.PageIsSlice | src/common/pagination.cpp:131-150 | page k of any fixed ordered result, in any dialect, is slice k, and hasNext holds exactly when rows remain |
| Pagination.OwnParamsFirst | src/common/pagination.cpp:108-143 | a page is prepared exactly within the 64-bit bound; the statement's own parameters stay in front and the window follows in the dialect's order |
| Pagination.SyncPageIs | src/client_pagination.cpp:14-32 | a page is good exactly when data and asked-for count came back, shows at most its size and carries the count's total |
| Pagination.ReadAll | src/common/pagination.cpp:146-150 | following hasNext from page 1 concatenates to the whole result, in the expected number of pages |
| Pagination.EitherOrderIsSync | src/client_pagination.cpp:39-65 | either arrival order of the two answers, and a count never sent, give the synchronous page, delivered once |
| Pagination.UncountedIsSync | src/client_pagination.cpp:39-65 | the same for a page without a count |
| Pagination.DoneIsDone | src/client_pagination.cpp:44-44 | no run of further answers changes or redelivers a page that is done |
| Pagination.DeliveredOnce | src/client_pagination.cpp:39-65 | whatever answers arrive in whatever order, the page is delivered exactly when it becomes done: never twice, and at the latest with the second answer |
| Pagination.PendingPage.accept | src/client_pagination.cpp:39-65 | the locked region is the specified join, handing the page out exactly when it becomes done |
| Executor.StepInv | src/async/executor.cpp:32-204 | every locked region keeps the executor's invariant |
| Executor.WorkIsConserved | src/async/executor.cpp:146-169 | in every state submitted = queued + active + completed, active is the number of busy workers, and no task was begun twice |
| Executor.PostsRespectLimit | src/async/executor.cpp:32-45 | in every state the queue exceeds its limit by at most the continuations in it, and an ordinary post is taken exactly when running and below the limit |
| Executor.ShutdownLeavesNothing | src/async/executor.cpp:77-101 | from the moment the first shutdown has returned every accepted task was begun exactly once and nothing runs or waits |
| Executor.ReturningLeavesNothing | src/async/executor.cpp:77-101 | a returning call leaves nothing if it is the one that stopped the executor or if that one had returned before |
| Executor.SecondShutdownReturnsEarly | src/async/executor.cpp:83-83 | otherwise it may: a run in which the second call returns while a task is still queued |
| Executor.TimerOrder | src/async/executor.cpp:171-204 | the timer begins a delayed task not before its deadline and ahead of all others in (deadline, sequence) order |
| Executor.ShutdownOrder | src/async/executor.cpp:84-89 | shutdown takes the delayed tasks over in that order |
| ExecutorOrder.FirstPostedFirst | src/async/executor.cpp:146-169 | a worker begins the task posted first of all that are queued |
| ExecutorOrder.PostQueues | src/async/executor.cpp:32-56 | an accepted post is queued last, a refused one changes no queue |
| ExecutorOrder.NotBeforeItsTime | src/async/executor.cpp:58-75 | the timer begins a delayed task only once its delay has passed since the post, a negative delay being none |
| ExecutorOrder.DueIsBegun | src/async/executor.cpp:171-204 | once it is due an idle timer has a task to begin |
| ThreadPoolExecutor.ThreadPool.TryPost | src/async/executor.cpp:32-45 | accepts exactly when running and not full, appending the task |
| ThreadPoolExecutor.ThreadPool.WorkerTake | src/async/executor.cpp:149-161 | takes the oldest task, for the first time |
| ThreadPoolExecutor.ThreadPool.WorkerDone | src/async/executor.cpp:163-167 | moves one task from active to completed |
| ThreadPoolExecutor.ThreadPool.TimerTake | src/async/executor.cpp:195-200 | takes the top delayed task, which is due |
| ThreadPoolExecutor.ThreadPool.TakeDelayed | src/async/executor.cpp:81-94 | empties the delayed tasks in priority order, once |
| OracleReturning.RoundTrip | src/common/oracle_types.cpp:513-641 | behind every base statement whose quotes are closed the parser returns exactly the printed columns, bind count and first bind, for every non-empty list of names and every 64-bit first bind |
| OracleRoundTrip.RoundTripIff | src/common/oracle_types.cpp:513-641 | for every base statement, every non-empty list of names and every 64-bit first bind: the printed suffix is read back if and only if the base's quotes are closed, and otherwise nothing is found |
| OracleRoundTrip.ParsedIsClosed | src/common/oracle_types.cpp:513-641 | a text in which the parser finds a suffix has all its quotes closed |
| OracleRoundTrip.KeywordMode | src/common/oracle_types.cpp:518-557 | the keyword that is found stands outside quotes |
| OracleRoundTrip.ApostropheInComment | src/common/oracle_types.cpp:521-535 | behind a base with an apostrophe in a comment the suffix is not found |
| OracleRoundTrip.BareName | src/common/oracle_types.cpp:560-593 | a name without quotes reads up to its end, in upper case |
| OracleRoundTrip.ParsedIsPaired | src/common/oracle_types.cpp:601-620 | what is found has columns and as many binds |
| OracleReturning.ScanBase | src/common/oracle_types.cpp:518-557 | the keyword scan passes over such a base statement and stands right behind it |
| OracleReturning.ScanSuffix | src/common/oracle_types.cpp:513-558 | the last RETURNING outside quotes is the printed one, whatever the names contain |
| OracleReturning.ReadNames | src/common/oracle_types.cpp:560-593 | the printed names read back, embedded quotes included |
| OracleReturning.ReadNumbers | src/common/oracle_types.cpp:601-617 | the printed binds read back |
| OracleReturning.QuotedName | src/common/types.cpp:431-439 | a quoted identifier reads back as the identifier |
| OracleLoops.FindReturning | src/common/oracle_types.cpp:515-558 | the first loop finds the specified keyword |
| OracleLoops.ReadColumnList | src/common/oracle_types.cpp:560-594 | the column loop is the specified reader |
| OracleLoops.ReadBindList | src/common/oracle_types.cpp:601-617 | the bind loop is the specified reader |
| OracleLoops.ParseReturningInto | src/common/oracle_types.cpp:513-625 | the whole parser is the specified one |
| OracleLoops.Quote | src/common/types.cpp:431-439 | doubles exactly the embedded quotes |
| OracleLoops.MakeSuffix | src/common/oracle_types.cpp:627-641 | the printer is the specified suffix |
| PgArray.RoundTripExactly | src/common/pg_types.cpp:128-213 | for arrays and composites the round trip holds if and only if the list is not a composite's single NULL and every element is absent, quoted or bracket-balanced |
| PgArray.ArrayRoundTrip | src/common/pg_types.cpp:363-391 | arrays: the identity on every list of optional strings |
| PgArray.CompositeRoundTrip | src/common/pg_types.cpp:367-401 | composites: the identity on every list but the single NULL when no element holds a parenthesis |
| PgArray.LoneParenthesisFails | src/common/pg_types.cpp:128-139 | the field `(` does not survive: parentheses are not quoted |
| PgArray.NoExtraElements | src/common/pg_types.cpp:166-212 | scanning the text of n elements never yields more than n |
| PgArray.NeedsQuotes | src/common/pg_types.cpp:128-139 | the quoting test is the specified one |
| PgArray.QuoteElement | src/common/pg_types.cpp:371-380 | quotes and escapes exactly what must be |
| PgArray.FormatElements | src/common/pg_types.cpp:382-401 | both printers are the specified text |
| PgArray.SplitElements | src/common/pg_types.cpp:141-213 | the scanner loop is the specified parser |
| WriteBuffer.StepInv | src/core/write_buffer.cpp:10-123 | every region of enqueue, flush, merge, start and stop, by any number of threads, keeps the buffer's invariant |
| WriteBuffer.BoundedAndInOrder | src/core/write_buffer.cpp:86-107 | in every state the queue is within its bound and everything pending is in order of acceptance |
| WriteBuffer.ExactlyOnePlace | src/core/write_buffer.cpp:64-102 | each accepted write is exactly one of flushed, dropped and pending, at all times |
| WriteBuffer.StopLeavesNothing | src/core/write_buffer.cpp:34-44 | when any call of stop returns, of several at once too, nothing is pending: each accepted write was flushed or dropped once; no start may have taken effect between the join and the end of a stop |
| WriteBuffer.NeverTerminates | src/core/write_buffer.cpp:25-32 | under the same condition start never assigns a thread over one that was not joined |
| WriteBuffer.DisorderlyStart | src/core/write_buffer.cpp:25-44 | the first start that breaks the condition can always leave an accepted write pending when that stop returns, with no later stop waiting for it and the next start ending the process |
| WriteBuffer.DisorderIsReachable | src/core/write_buffer.cpp:34-44 | two calls of stop at once reach a state where a start breaks the condition |
| WriteBuffer.OneStopIsOrderly | src/core/write_buffer.cpp:25-44 | as long as a stop is called only while no other one is on its way, the condition holds, whatever races it |
| WriteBuffer.NothingIsAbandoned | src/core/write_buffer.cpp:109-121 | the abandon branch never finds anything to abandon |
| WriteBufferFates.FatesHaveReasons | src/core/write_buffer.cpp:64-102 | a write is flushed exactly when some try flushed it, and dropped exactly when it failed for good, expired, was retryable in the final pass, or did not fit at the merge |
| WriteBufferFates.RetryableIsKept | src/core/write_buffer.cpp:78-82 | while nobody stops the buffer a retryable failure is kept for another try |
| WriteBufferFates.MergeKeepsOldest | src/core/write_buffer.cpp:86-102 | the merge keeps the oldest writes in order and gives up only what does not fit behind them |
| WriteBufferFates.AcceptedIff | src/core/write_buffer.cpp:10-18 | a write is accepted exactly when the buffer is enabled, running, not stopping and has room, as the newest |
| WriteBufferFates.StopComesToAnEnd | src/core/write_buffer.cpp:34-123 | once stopping, the worker can always go on and each of its steps brings its end closer, whatever others do |
| WriteBuffer.Buffer.TryEnqueue | src/core/write_buffer.cpp:10-18 | accepts exactly when enabled, running, not stopping and below the bound |
| WriteBuffer.Buffer.SwapOut | src/core/write_buffer.cpp:54-62 | swaps the queue out and notes whether this is the final pass |
| WriteBuffer.Buffer.MergeBack | src/core/write_buffer.cpp:86-102 | retries go back in front of newer writes and only the excess is dropped |
| SqlText.FindQuoteEnd | src/core/idatabase_connection.cpp:298-315 | the quote loop ends at the first closing quote that is neither doubled nor escaped |
| SqlText.FindLineEnd | src/core/idatabase_connection.cpp:316-321 | the line-comment loop ends at the newline or the end |
| SqlText.FindCommentEnd | src/core/idatabase_connection.cpp:322-333 | the block-comment loop ends where the nesting closes |
| SqlText.FindText | src/core/idatabase_connection.cpp:283-288 | the first occurrence of the closing delimiter, if any |
| SqlText.FindWordEnd | src/core/idatabase_connection.cpp:274-278 | the tag loop ends at the first character that cannot belong to it |
| SqlPieces.QuotedEnds | src/core/idatabase_connection.cpp:298-315 | quoted text with any mixture of doubled and backslash-escaped quotes ends at its own closing quote |
| SqlPieces.QuotedIs | src/common/named_params.cpp:33-44 | conversely whatever the scan takes for quoted text is such a text |
| SqlPieces.UnclosedQuote | src/common/named_params.cpp:44-44 | without its closing quote it has no end |
| SqlPieces.CommentEnds | src/common/named_params.cpp:50-58 | a comment with any nesting ends at its own closing mark |
| SqlPieces.UnclosedComment | src/common/named_params.cpp:58-58 | without it there is no end |
| SqlPieces.LineEnds | src/common/named_params.cpp:47-49 | a line comment ends at its newline or with the text |
| SqlPieces.DelimitedEnds | src/common/named_params.cpp:59-75 | alternative and dollar quotes end at the first occurrence of their closing delimiter |

## Left out

- Unpooled mode, leak warnings and metric counters of the connection pool: they do not share the pool's equations.
- Real threads, condition-variable fairness and weak memory order: steps are atomic and sequentially consistent. The native query's release/acquire flags are treated the same way.
- Liveness, except for the native query, whose runs are proved to end, and the stop of the write buffer, which always comes closer to its end.
- NamedParamsAgree.BindThenBuild: the condition is sufficient, and by NamedParamsTrap.BuildsIff necessary where it decides; a tag inside an identifier whose closing tag falls inside a string or comment, and a `?` of the text's own (in a string or comment) behind a tag that encloses a site, are left open.
- PlaceholderTemplates.BuildSqlIs: a text with an unclosed quote, comment or tag has no segments; the placeholder scan then runs to its end or takes the opening mark for an ordinary character, as specified.
- NamedParams, SqlText and Oracle scanning use the character classes of the C locale.
- SqlBuilder: quoted identifiers are single tokens (dialect quoting is not part of this model), unknown enumeration values (dialect, operator, sort direction) cannot be written, and only success or failure of a build is modelled, not the error text.
- WhereClause: column values and comparisons are those of an arbitrary row; type conversion by a database is not modelled.
- Pool and executor callbacks are opaque: what a task does when it runs is not modelled, only that it is begun and how often.
- StopSignal: tasks refused by the cancellation executor are dropped, as in the code; delivery of a cancel is therefore not promised, only that it never comes too late.
- OperationTree: the order in which one signal's subscribers are notified is left open, the deadline scheduler is covered by stops that may come at any time, and `remaining` is not modelled.
- Query routing, replica fallback and the query leaf of the asynchronous engine: their shape is that of the write path, with fewer promises.
- LeafWrite and GroupWrite: `safeToFailoverWrite`, the target list, the retry delay and eligibility are arbitrary; interceptors are taken to be registered and not re-entered from one of their own callbacks; a pool that reports success hands out a connection.
- QueryCache: byte estimates are given with the rows, counters are not kept, sizes are unbounded integers, and each operation is one atomic step.
- Executor: delayed tasks are kept as a sorted list, the heap behind the priority queue is not modelled; a shutdown called from a worker is not considered.
- WriteBuffer: two calls of `stop` that reach `join` at the same instant, which C++ leaves undefined for one thread object, join one after the other here.
- Pagination: the clause scanner that rejects existing LIMITs, reading the total out of a COUNT row, and the execution mode flag are not part of this model.
- CivilDays: local time, fractions of a second and the reading of the digits are not part of this model; years are unbounded integers.
- PgArray: geometry, and composites nested in arrays, are not part of this model.
- Configuration, logging, drivers, the client facade, statement classification, script splitting, reports and the command line: input and output, or easy members only.
