# Verified model of oink-judge

oink-judge is a distributed online judge: a dispatcher hands submissions to test nodes, a node runs a problem's tree
of tests, content (problems, submissions) is kept in sync through manifests, everything shares a PostgreSQL
connection pool, and a web application keeps users' sessions. This project models the five parts in which the order of
events matters and proves what they keep over every run.

How it is written. A class of the repository whose methods update its fields is a class here, with the same methods;
each method is proved against a function of the old state, and the lemmas are about those functions. Code in which
several coroutines take turns is a step function over events: a step is the stretch between two suspension points, and a
`Run` is any sequence of steps, so a lemma about `Run` speaks of every interleaving. Where the code does not do
what its design suggests, the model keeps the code, one lemma shows a case, and another says exactly when it does.

* `TestingQueue`, `TestingQueueRuns`, `TestingQueueFaults`, `QueueProtocol`, `QueueProtocolSteps`: the scheduler (queue
  of submissions, connected invokers) and its protocol with the nodes over a channel of capacity two and the wire.
  `Id("")` is the idle mark. As long as submission ids are not empty and connected ids distinct, nothing is lost, doubled
  or overtaken on the way to its first invoker, whatever connects, answers or crashes; exactly which calls break this
  otherwise, and exactly which leave an idle invoker beside work it could do, is proved too.
* `ExecutionQueue`, `ExecutionQueueThreads`: the hand-off lock of a database connection and its move-only leases, and
  exactly when several threads can lose the lock.
* `StatementLog`, `StatementSync`: the append-only log of prepare and unprepare actions, and its replay on connections
  that are behind, are reconnected, or fail half-way.
* `ConnectionPool`, `ConnectionPoolSteps`, `ConnectionPoolSize`: slot leasing, waiting, and how many slots there are. The
  pool leaks a slot when a sync throws, may overshoot `pool_max`, and is filled once for each concurrent first user; each
  is shown from a new pool, with the exact condition.
* `VerdictBuilders`, `TestTree`, `EarlySkip`, `LeafVerdicts`: how verdicts fold, how a tree is run with early skipping,
  and that this refines running everything for "min" (and when). A "sum" testset skips its children until one scores
  when skipped, which only an empty testset below it does.
* `ProblemBuilder`, `PolygonConverter`: a configuration is accepted exactly when first definitions point backwards, and
  what is built unfolds to the tree the configuration describes; the converter's output is such a configuration.
* `ContentManifest`, `ContentService`, `ContentStorage`, `ContentScanner`: diff of manifests, chunked transfer, guarded
  handlers, replay in both directions, and the cache of hashes that scans use.
* `AuthSessions`, `AuthTables`, `AuthRuns`, `AuthRequests`, `AuthDeletion`: sessions with an index per user, refresh
  tokens, roles, who is served and who refused, and what an account's deletion guarantees when requests, logouts
  included, interleave at every store access.

Three differences between the code and its surroundings are kept as in the code. The "sum" builder starts at score 0,
which `canScoreChange` takes for final. Meta files without a status read as "OK" even after a failed run. A leaf's
verdict type is uninitialized when the checker writes nothing; the model takes it as an arbitrary `unset`.

`dafny verify dfyconfig.toml` checks the project.

## Model

| member | source | states |
|---|---|---|
| TestingQueues.TestingQueue.PushSubmission | modules/dispatcher/src/testing_queue.cpp:14-21 | a submission goes to the first idle invoker that accepts it, else to the tail of the queue |
| TestingQueues.TestingQueue.FreeInvoker | modules/dispatcher/src/testing_queue.cpp:23-30 | the first invoker with this id becomes idle and takes the first queued submission it accepts; an unknown id is an error and changes nothing |
| TestingQueues.TestingQueue.ConnectInvoker | modules/dispatcher/src/testing_queue.cpp:32-37 | a new invoker joins at the end and takes the first queued submission it accepts |
| TestingQueues.TestingQueue.DisconnectInvoker | modules/dispatcher/src/testing_queue.cpp:39-48 | the invoker leaves, its submission returns to the head of the queue, and nothing is sent |
| TestingQueues.TestingQueue.TryInvoker | modules/dispatcher/src/testing_queue.cpp:52-62 | the earliest accepted submission is sent and removed from the queue, or nothing happens |
| TestingQueues.TestingQueue.TrySubmission | modules/dispatcher/src/testing_queue.cpp:64-74 | true exactly when some idle invoker accepts the submission; the first such gets it |
| TestingQueues.TestingQueue.SendSubmissionForTesting | modules/dispatcher/src/testing_queue.cpp:76-80 | the submission is recorded as sent, and the first entry with the invoker's id is marked busy with it |
| TestingQueues.TestingQueue.FindInvokerIndexById | modules/dispatcher/src/testing_queue.cpp:82-91 | the first position with this id, or an error when there is none |
| TestingQueueRuns.PushConservesIff | modules/dispatcher/src/testing_queue.cpp:14-21 | a push conserves work exactly when it does not send the empty id and does not overwrite a busy namesake of the invoker it picks |
| TestingQueueRuns.ConnectConservesIff | modules/dispatcher/src/testing_queue.cpp:32-37 | a connect conserves work exactly when its id is not that of a busy invoker while the queue has work for it |
| TestingQueueRuns.DuplicateIdLosesSubmission | modules/dispatcher/src/testing_queue.cpp:76-91 | two connections under one id: a submission disappears from queue, invokers and acknowledgements |
| TestingQueueFaults.ConservationIff | modules/dispatcher/src/testing_queue.cpp:14-91 | over every run of any calls, pushed = queued + busy + acknowledged as multisets up to every point exactly when no call sends the empty id or marks a busy invoker's namesake |
| TestingQueueRuns.TestedByOneInvoker | modules/dispatcher/src/testing_queue.cpp:14-80 | a submission pushed once is never with two invokers, nor queued or acknowledged while it is with one |
| TestingQueueRuns.FirstSendsInArrivalOrder | modules/dispatcher/src/testing_queue.cpp:14-74 | with all-accepting invokers, first sends followed by the never-sent are the pushes in order, crashes included |
| TestingQueueRuns.GlobalFifo | modules/dispatcher/src/testing_queue.cpp:14-74 | with all-accepting invokers and no disconnect of a busy one, send log followed by queue is the push log |
| TestingQueueRuns.OnlyRequeuedSubmissionsWaitForIdleInvokers | modules/dispatcher/src/testing_queue.cpp:14-74 | in every reachable state an idle invoker that accepts a queued submission finds only submissions requeued by a disconnect |
| TestingQueueRuns.DisconnectLeavesWorkWaiting | modules/dispatcher/src/testing_queue.cpp:39-48 | the exception is reachable: after a crash a submission waits beside an idle invoker that accepts it |
| TestingQueueFaults.StepSettledIff | modules/dispatcher/src/testing_queue.cpp:14-91 | from a state with no work beside an idle invoker that accepts it, any call keeps it so exactly when it does not unsettle: strand a submission by a disconnect, send the empty id to an invoker that accepts more, or mark a namesake busy instead of the invoker it sends to |
| TestingQueueFaults.WorkConservedIff | modules/dispatcher/src/testing_queue.cpp:14-91 | over every run of any calls work is conserved throughout exactly when no call unsettles |
| TestingQueueFaults.WorkStrandedIff | modules/dispatcher/src/testing_queue.cpp:14-80 | which, with distinct ids and no empty submission, is exactly when no busy invoker leaves while an idle one accepts its submission |
| TestingQueueRuns.StepKeeps | modules/dispatcher/src/testing_queue.cpp:14-80 | one queue operation keeps distinct ids, no empty id, conservation, and that only requeued work waits |
| QueueProtocol.NextKeeps | modules/dispatcher/src/queue_manager_service.cpp:20-78 | every step of dispatcher, channel, wire and node keeps: a connection's token is its invoker's submission |
| QueueProtocol.BusyMeansOneToken | modules/dispatcher/src/queue_manager_service.cpp:20-78 | in every reachable state a connected invoker on a live connection is busy with s exactly when one token exists there, for s, from the pending send to the response in flight |
| QueueProtocol.SendNeverBlocks | modules/dispatcher/src/invoker.cpp:16-20 | no channel holds more than one submission, so every pending send has room |
| QueueProtocol.AcksAreAnswers | modules/test_node/src/queue_manager_service_stub.cpp:55-106 | an answer the dispatcher reads acknowledges the very submission the node answered, in the order of the node's answers |
| QueueProtocol.NothingSubmittedIsLost | modules/dispatcher/src/queue_manager_service.cpp:52-78 | end to end, every submitted id is queued, with one invoker, or acknowledged, whatever connection breaks |
| QueueProtocol.BusyAdvances | modules/dispatcher/src/queue_manager_service.cpp:20-47 | a busy invoker on a live connection has exactly one enabled token step, and each step brings its acknowledgement one nearer |
| QueueProtocolSteps.EnabledIff | modules/dispatcher/src/queue_manager_service.cpp:20-78 | exactly when each step of dispatcher, channel, wire and node can happen |
| QueueProtocolSteps.StageMoves | modules/dispatcher/src/queue_manager_service.cpp:35-47 | what each step inside a connection moves; it touches nothing else, and a write on a broken wire is lost |
| QueueProtocolSteps.BreakLosesWire | modules/dispatcher/src/queue_manager_service.cpp:20-47 | a break loses what is on the wire and in the node and keeps what is not written yet |
| QueueProtocolSteps.HandlerReturnsWork | modules/dispatcher/src/queue_manager_service.cpp:71-76 | in every reachable state a handler can end exactly when its connection is broken; then its invoker is gone and its submission is at the head of the queue |
| QueueProtocolSteps.CrashReturnsWork | modules/dispatcher/src/queue_manager_service.cpp:24-76 | so a crash at any moment puts the submission back in two steps |
| QueueProtocolSteps.SubmitDispatches | modules/dispatcher/src/queue_manager_service.cpp:52-78 | a push is possible exactly with a non-empty id; the first idle invoker gets it on its own connection, else it is queued |
| QueueProtocolSteps.HandshakeJoins | modules/dispatcher/src/queue_manager_service.cpp:52-70 | a node can connect exactly under an id that is not connected; it joins last with an empty connection and the head of the queue on its way |
| QueueProtocolSteps.AnswerFreesInvoker | modules/dispatcher/src/queue_manager_service.cpp:20-32 | an answer can be read whenever there is one; it is acknowledged and the invoker goes on with the head of the queue, or is idle |
| QueueProtocolSteps.InvokersAreNodes | modules/dispatcher/src/invoker.cpp:22-25 | in every reachable state each invoker accepts every submission |
| ExecutionQueues.ExecutionQueue.AcquireExecutionQueue | modules/database/src/libpq_connection.cpp:119-142 | the lock is taken when free, otherwise the caller is queued last |
| ExecutionQueues.ExecutionQueue.ReleaseExecutionQueue | modules/database/src/libpq_connection.cpp:144-158 | the lock passes straight to the first waiter, or becomes free when there is none |
| ExecutionQueues.ExecutionQueueLease.Move | modules/database/src/libpq_connection.cpp:92-94 | the lock moves to the new lease and the old one holds nothing |
| ExecutionQueues.ExecutionQueueLease.Destroy | modules/database/src/libpq_connection.cpp:86-90 | a lease that holds the lock releases it, any other does nothing |
| ExecutionQueues.ExecutionQueueLease.MoveAssign | modules/database/src/libpq_connection.cpp:96-105 | what the target held is released first, self-assignment changes nothing |
| ExecutionQueues.MutualExclusion | modules/database/src/libpq_connection.cpp:84-158 | over every run of requests, moves, assignments and drops, at most one lease holds the lock, none while a hand-off is in flight, the lock is taken exactly while there is a holder or a hand-off, and a free lock has no waiters |
| ExecutionQueues.GrantsInArrivalOrder | modules/database/src/libpq_connection.cpp:119-158 | grants followed by waiters are the arrivals in order: nobody is overtaken |
| ExecutionQueues.WaiterGrantedAtItsTurn | modules/database/src/libpq_connection.cpp:119-158 | the waiter at position k is granted at exactly the (k+1)-th release, also across lease moves |
| ExecutionQueues.RequestDecides | modules/database/src/libpq_connection.cpp:119-142 | a request takes a free lock and otherwise waits last |
| ExecutionQueues.DropGivesUp | modules/database/src/libpq_connection.cpp:86-90 | ending a lease gives the lock up exactly when it holds it: to the first waiter, or free |
| ExecutionQueues.MovesTakeAlong | modules/database/src/libpq_connection.cpp:92-105 | what moves and assignments do to both leases and the lock |
| ExecutionQueues.HandOffArrives | modules/database/src/libpq_connection.cpp:135-158 | in every reachable state the client that was handed the lock can take it up and then holds it |
| ExecutionQueues.FirstWaiterServed | modules/database/src/libpq_connection.cpp:119-158 | when the holder ends its lease, the first waiter can hold the lock two steps later |
| ExecutionQueues.HandOffHappens | modules/database/src/libpq_connection.cpp:119-158 | for instance one client takes the lock, another waits, the first leaves, and the other holds it |
| ExecutionQueueThreads.LockLostIff | modules/database/src/libpq_connection.cpp:119-158 | on several threads: the lock is lost, for ever, exactly when some release takes a waiter that is queued but whose timer is not armed yet |
| ExecutionQueueThreads.OneThreadNeverTooEarly | modules/database/src/libpq_connection.cpp:132-136 | on one thread, where queueing and arming are one stretch, that never happens |
| ExecutionQueueThreads.LockLost | modules/database/src/libpq_connection.cpp:132-136 | on two it does: queue, release, arm |
| ExecutionQueueThreads.StepsDo | modules/database/src/libpq_connection.cpp:119-158 | when each step on several threads can happen and what it does |
| StatementLogs.StatementActionLog.AppendPrepareAction | modules/database/src/statement_action_log.cpp:7-16 | a prepare is appended and the block becomes live; a live name is an error and changes nothing |
| StatementLogs.StatementActionLog.AppendUnprepareAction | modules/database/src/statement_action_log.cpp:18-26 | an unprepare with the live block's contents is appended and the block is no longer live; an unknown name is an error |
| StatementLogs.StatementRegistry.PrepareStatements | modules/database/src/connection_pool.cpp:72-80 | also when it throws, the pool's block set is the log's live names; the log changes only on success |
| StatementLogs.StatementRegistry.UnprepareStatements | modules/database/src/connection_pool.cpp:82-90 | likewise for unprepare |
| StatementLogs.LogIsItsActions | modules/database/src/statement_action_log.cpp:7-26 | after any calls the log is legal and its map of live blocks is the fold of its actions |
| StatementLogs.LogGoesOn | modules/database/src/statement_action_log.cpp:7-26 | a further call appends its action and changes the live blocks, or throws and changes nothing, by whether the name is live |
| StatementLogs.ActionsAlternate | modules/database/src/statement_action_log.cpp:7-26 | the actions on a name alternate starting with a prepare, and the block is live exactly after an odd number |
| StatementSync.LibpqConnection.Reconnect | modules/database/src/libpq_connection.cpp:252-296 | the cursor restarts on a session without statements, and the block set stays |
| StatementSync.LibpqConnection.SyncStatements | modules/database/src/libpq_connection.cpp:317-338 | success applies the actions from the cursor on; a failure leaves whole actions applied and one part-way with the cursor before it |
| StatementSync.LibpqConnection.RunStatements | modules/database/src/libpq_connection.cpp:323-337 | all statements of an action are run, or some are done when a call fails, in any order |
| StatementSync.FoldIsLive | modules/database/src/libpq_connection.cpp:317-338 | after any legal log without clashes the session has exactly the statements of the live blocks, with their SQL |
| StatementSync.SnapshotsInAnyOrder | modules/database/src/libpq_connection.cpp:317-338 | syncing with prefixes of one log in any order leaves the fold of the longest |
| StatementSync.FreshSyncSucceedsIff | modules/database/src/libpq_connection.cpp:317-338 | a fresh connection can be synced with a legal log exactly when no prepare reuses a statement name of a live block |
| StatementSync.ReconnectHealsIff | modules/database/src/libpq_connection.cpp:252-338 | one sync after a reconnect gives a fresh connection's state exactly when the snapshot has an action on every block of the stale set |
| StatementSync.ReconnectThenFullSync | modules/database/src/libpq_connection.cpp:252-338 | hence a snapshot at least as long as what the connection had seen heals it |
| StatementSync.RetryWorksIff | modules/database/src/libpq_connection.cpp:323-337 | a sync that stopped inside an action can be retried exactly when none of that action's statements had gone through |
| ConnectionPools.ConnectionPool.TryAcquireExistingSlot | modules/database/src/connection_pool.cpp:111-119 | the first free slot is taken, or there is none and nothing changes |
| ConnectionPools.ConnectionPool.ReleaseSlot | modules/database/src/connection_pool.cpp:184-191 | the slot becomes free; an index out of range is an error |
| ConnectionPools.ConnectionPool.PublishAndClaim | modules/database/src/connection_pool.cpp:97-109 | a new slot is appended and is in use from the start |
| ConnectionPools.PooledConnection.Move | modules/database/src/pooled_connection.cpp:16-19 | the lease moves and the old object holds nothing |
| ConnectionPools.PooledConnection.Destroy | modules/database/src/pooled_connection.cpp:10-14 | a lease frees its slot, a moved-from object frees nothing |
| ConnectionPools.PooledConnection.MoveAssign | modules/database/src/pooled_connection.cpp:21-31 | the target's slot is freed before it takes over the other's; self-assignment changes nothing |
| ConnectionPools.NoSlotLeasedTwice | modules/database/src/connection_pool.cpp:97-191 | in every reachable state a slot is in use exactly when one acquirer holds it, is setting it up or has leaked it, and then only one |
| ConnectionPools.NoSlotLeakedIff | modules/database/src/connection_pool.cpp:136-191 | after any run the slots in use are those of live leases and acquires in progress exactly when no sync has failed |
| ConnectionPools.LeakedForGood | modules/database/src/connection_pool.cpp:171-173 | after a throwing sync the slot stays in use for ever and nobody else gets it |
| ConnectionPoolSteps.AcquireBegins | modules/database/src/connection_pool.cpp:136-156 | an acquire takes the least free slot, creates one while there are fewer than pool_max, and waits otherwise |
| ConnectionPoolSteps.InitializationCreates | modules/database/src/connection_pool.cpp:52-70 | the first user creates pool_min free slots one by one and then takes one |
| ConnectionPoolSteps.PollTakesFreeSlot | modules/database/src/connection_pool.cpp:121-134 | a waiting acquirer that polls takes the least free slot; with none free nothing changes |
| ConnectionPoolSteps.CreateEnds | modules/database/src/connection_pool.cpp:97-109 | a completed create brings a slot in use by its creator, a failed one nothing |
| ConnectionPoolSteps.SyncEnds | modules/database/src/connection_pool.cpp:158-173 | a sync leads to the lease or the leak of the slot it was given |
| ConnectionPoolSteps.ReleaseFrees | modules/database/src/connection_pool.cpp:184-191 | in every reachable state a lease can be given back, and exactly its slot becomes free |
| ConnectionPoolSteps.WaiterServedAfterRelease | modules/database/src/connection_pool.cpp:121-191 | waiting ends: in every reachable state, after a lease is given back whichever waiter polls next gets a lease |
| ConnectionPoolSteps.EnabledIff | modules/database/src/connection_pool.cpp:97-191 | exactly when each step of an acquire can happen |
| ConnectionPoolSizes.ExhaustedForGood | modules/database/src/connection_pool.cpp:121-174 | once all slots of a full pool have leaked, every acquirer waits in every continuation |
| ConnectionPoolSizes.ExhaustedReached | modules/database/src/connection_pool.cpp:136-174 | pool_max acquirers of a new pool whose syncs all throw bring it there |
| ConnectionPoolSizes.PoolMaxKeptIff | modules/database/src/connection_pool.cpp:136-174 | from any initialized pool, slots and pending creates stay within pool_max throughout a run exactly when every create starts while they are below it; without create failures the final state tells |
| ConnectionPoolSizes.SlotBound | modules/database/src/connection_pool.cpp:136-174 | from any initialized pool, with at most P pending creates, slots and pending creates never exceed pool_max - 1 + P, nor what there was |
| ConnectionPoolSizes.NewPoolBound | modules/database/src/connection_pool.cpp:52-174 | both over every run of a new pool with one first user |
| ConnectionPoolSizes.TotalWithinIff | modules/database/src/connection_pool.cpp:52-174 | from any state and with any number of first users: slots, those owed by initializations and pending creates stay within pool_max throughout exactly when each initialization and each create starts while there is room for all it adds |
| ConnectionPoolSizes.NewPoolMaxIff | modules/database/src/connection_pool.cpp:52-174 | the same from a new pool; without create failures the final state tells |
| ConnectionPoolSizes.OvershootReached | modules/database/src/connection_pool.cpp:150-156 | the bound is reached: in a run of a new pool with one first user and at most P pending creates there are pool_max - 1 + P slots |
| ConnectionPoolSizes.SlotLedger | modules/database/src/connection_pool.cpp:52-109 | in every interleaving, slots and slots still owed by initializations grow by pool_min for each first user and one for each create, less what failed initializations owed |
| ConnectionPoolSizes.InitializedOnceIff | modules/database/src/connection_pool.cpp:52-70 | so without create failures initialization brings pool_min slots exactly when no second user begins before the pool is initialized |
| ConnectionPoolSizes.EveryFirstUserInitializes | modules/database/src/connection_pool.cpp:52-70 | any number of first users can do so: k of them leave k * pool_min slots |
| VerdictBuilders.VerdictBuilder.Clear | modules/test_node/src/verdict_builders/verdict_builder_min.cpp:12-17 | back to accepted with the builder's starting score |
| VerdictBuilders.VerdictBuilder.AddVerdict | modules/test_node/src/verdict_builders/verdict_builder_min.cpp:19-55 | one more child folded in, type, score and resources |
| VerdictBuilders.VerdictBuilder.CanScoreChange | modules/test_node/src/verdict_builders/verdict_builder_sum.cpp:58 | false exactly at score zero, for both builders |
| VerdictBuilders.SumClass | modules/test_node/src/verdict_builders/verdict_builder_sum.cpp:10-58 | for all lists Sum is failed iff some child failed, accepted iff all are, else partial; wrong and skipped are unreachable |
| VerdictBuilders.SumTable | modules/test_node/src/verdict_builders/verdict_builder_sum.cpp:15-56 | which type Sum keeps for each class of the current and the added verdict, unreachable states included |
| VerdictBuilders.MinClass | modules/test_node/src/verdict_builders/verdict_builder_min.cpp:12-55 | for all lists Min is failed over wrong over the last partial or skipped over accepted |
| VerdictBuilders.MinKeepsFirstFault | modules/test_node/src/verdict_builders/verdict_builder_min.cpp:19-55 | Min keeps the type of the first failed child, or of the first wrong one |
| VerdictBuilders.MinExtrema | modules/test_node/src/verdict_builders/verdict_builder_min.cpp:19-55 | Min's score is the least and its resources are the greatest among children and starting values |
| VerdictBuilders.OrderOfChildren | modules/test_node/src/verdict_builders/verdict_builder_sum.cpp:15-56 | permuting the children changes nothing for Sum, and for Min only partial against skipped |
| TestTrees.RequiredBoxes | modules/test_node/src/tests/testset.cpp:70-76 | the loop computes the maximum over the subtree |
| TestTrees.SkipTest | modules/test_node/src/tests/testset.cpp:59-68 | the skip verdict is the fold of the children's skip verdicts |
| TestTrees.RunTest | modules/test_node/src/tests/compilation_test.cpp:34-126 | the order of box check, lookup, scripts and delegation with each early return, for all four kinds of test |
| TestTrees.RunChildren | modules/test_node/src/tests/testset.cpp:33-57 | a child is skipped once the score can no longer change and run otherwise; an error of a child ends the run |
| TestTrees.SkipMild | modules/test_node/src/tests/testset.cpp:59-68 | a skipped tree never reports wrong or failed |
| TestTrees.SkipScoresZero | modules/test_node/src/tests/testset.cpp:59-68 | a skipped tree with no empty testset scores zero |
| TestTrees.SkippedLeaf | modules/test_node/src/tests/single_test.cpp:60-67 | a skipped single test reports skipped, without score and resources |
| TestTrees.SkipKinds | modules/test_node/src/tests/testset.cpp:59-68 | without empty testsets a skipped tree is skipped or partial, never accepted, and skipped with Min testsets only |
| TestTrees.SkippedSumIsPartial | modules/test_node/src/verdict_builders/verdict_builder_sum.cpp:15-56 | a skipped Sum testset is partial |
| TestTrees.CompilationReports | modules/test_node/src/tests/compilation_test.cpp:34-126 | the verdict or error for each way a compilation test can go |
| TestTrees.RunPassesOn | modules/test_node/src/tests/sync_result_test.cpp:34-60 | a single test reports its outcome, the sync-result test its child's verdict |
| TestTrees.TooFewBoxes | modules/test_node/src/tests/testset.cpp:33-40 | with fewer boxes than it asks for a test refuses to start, and a single test reads past the end |
| TestTrees.BoxesAreForLeaves | modules/test_node/src/tests/single_test.cpp:69 | a tree needs two boxes when it has a leaf and none otherwise |
| TestTrees.TwoBoxesSuffice | modules/test_node/src/tests/testset.cpp:33-57 | with two boxes no nested call runs short |
| TestTrees.SuppliedBoxesSuffice | modules/test_node/src/queue_manager_service_stub.cpp:94-98 | for every tree with a leaf under each compilation test the supplied boxes are enough for every nested call |
| TestTrees.SuppliedBoxesSufficeIff | modules/test_node/src/queue_manager_service_stub.cpp:94-98 | for every tree of Min testsets whose submission is found they are enough exactly when it has a leaf or no compilation test |
| EarlySkips.RunIsEarly | modules/test_node/src/tests/testset.cpp:33-57 | a testset's run is the early-skipping fold of what its children report when run and when skipped |
| EarlySkips.EarlySkipKeepsScore | modules/test_node/src/tests/testset.cpp:33-57 | for all children with non-negative scores the score of a Min testset's run is that of running every child |
| EarlySkips.AllScoringRunsAll | modules/test_node/src/tests/testset.cpp:33-57 | if every child scores, a Min testset's verdict is that of running every child |
| EarlySkips.SkipsAfterFirstZero | modules/test_node/src/tests/testset.cpp:33-57 | otherwise it is that of the children run up to the first that scores zero and the rest skipped |
| EarlySkips.EarlySkipKeepsClassIff | modules/test_node/src/tests/testset.cpp:33-57 | whatever that first child is, the run's verdict class is that of running every child exactly when a child up to it failed; or none after it fails and one up to it is wrong; or none after it is failed or wrong and the last child that is not accepted has the same class with the rest skipped as with the rest run |
| EarlySkips.EarlySkipKeepsTypeIff | modules/test_node/src/tests/testset.cpp:33-57 | in particular, if that child is wrong or failed, the type is the same exactly when a child up to there failed or none after it does |
| EarlySkips.SkippedFailureIsMasked | modules/test_node/src/tests/testset.cpp:48 | a failing test after a wrong one: the testset's run reports wrong where running both would report failed |
| EarlySkips.RunAllReports | modules/test_node/src/tests/testset.cpp:33-57 | the reference: a testset run whole is the fold of all its children, a compilation test goes as in the source |
| EarlySkips.RunAllOkIff | modules/test_node/src/tests/compilation_test.cpp:44-47 | and throws exactly when a compilation test that is run misses its submission |
| EarlySkips.EarlySkipRefinesRunAll | modules/test_node/src/tests/testset.cpp:33-57 | for every tree of Min testsets the run has the score and acceptance of running everything, and its type unless that would have failed |
| EarlySkips.SumTestsetRuns | modules/test_node/src/verdict_builders/verdict_builder_sum.cpp:10-58 | a Sum testset skips its children up to the first that scores when skipped, and runs the rest |
| EarlySkips.SumTestsetScoreIff | modules/test_node/src/verdict_builders/verdict_builder_sum.cpp:10-58 | so its score is right exactly when the skipped children would have scored together what the last of them scores skipped |
| EarlySkips.SumTestsetZeroIff | modules/test_node/src/verdict_builders/verdict_builder_sum.cpp:10-58 | when none scores skipped, its score is zero, which is right exactly when none scores run |
| EarlySkips.SumRunsAfterEmptyTestset | modules/test_node/src/verdict_builders/verdict_builder_sum.cpp:10-58 | an empty Min testset does score when skipped, and the next child is run |
| EarlySkips.SumTestsetRunsNothing | modules/test_node/src/verdict_builders/verdict_builder_sum.cpp:10-58 | corollary: with no empty testset below it a Sum testset runs none of its children and scores zero |
| EarlySkips.SumScoreRightIff | modules/test_node/src/verdict_builders/verdict_builder_sum.cpp:10-58 | and is then right, compared with running every test of the tree, exactly when no child scores anything |
| EarlySkips.SumTestsetIsPartial | modules/test_node/src/verdict_builders/verdict_builder_sum.cpp:10-58 | its verdict is partial with score zero, whatever its tests would have given |
| LeafVerdicts.ParseMetaFile | modules/test_node/src/verdict_utils.cpp:19-50 | the loop computes the values that LastLineCounts describes |
| LeafVerdicts.LastLineCounts | modules/test_node/src/verdict_utils.cpp:19-50 | each value is that of the last line of its kind, absent exactly when there is none, and an absent or empty status reads as OK |
| LeafVerdicts.ReadCheckerOutput | modules/test_node/src/verdict_utils.cpp:84-120 | the last line of the checker's output decides; without one the type is the uninitialized one |
| LeafVerdicts.RunSingle | modules/test_node/src/tests/single_test.cpp:34-58 | a failed run or a fault status takes the verdict from the meta file, a clean run from the checker |
| LeafVerdicts.LeafIsCoupledIff | modules/test_node/src/verdict_utils.cpp:54-120 | a leaf is either accepted with full score or wrong or failed with none, exactly unless a clean run left no checker output and the uninitialized type is another one |
| LeafVerdicts.FailedRunWithoutStatusIsAccepted | modules/test_node/src/verdict_utils.cpp:54-82 | a failed run whose meta file has no status is accepted with full score |
| LeafVerdicts.FullScoreIff | modules/test_node/src/verdict_utils.cpp:54-120 | full score exactly for status OK and a failed run or a last checker line starting with o |
| LeafVerdicts.FaultTable | modules/test_node/src/verdict_utils.cpp:62-79 | which wrong verdict each fault status gives, without score, with the run's time and memory |
| LeafVerdicts.CheckerTable | modules/test_node/src/verdict_utils.cpp:91-116 | which verdict and score each first letter of the checker's last line gives |
| LeafVerdicts.MissingValueIff | modules/test_node/src/verdict_utils.cpp:54-120 | there is no verdict exactly when the meta file lacks a time or a memory line |
| ProblemBuilders.GetAllTestNames | modules/config/src/problem_config_utils.cpp:77-98 | the non-empty names in definition order, repetitions included |
| ProblemBuilders.DefaultProblemBuilder.CreateTest | modules/test_node/src/tests/testset.cpp:11-31 | a constructor succeeds exactly on a known type whose children are already built, and otherwise throws for the first problem it meets |
| ProblemBuilders.ConstructFails | modules/test_node/src/tests/testset.cpp:18-30 | which error a constructor throws: unknown type, unknown verdict builder, or the first child not built yet |
| ProblemBuilders.ConstructKeeps | modules/test_node/src/tests/testset.cpp:11-31 | a constructed test keeps name, kind and builder and points to the children its definition names, in order |
| ProblemBuilders.DefaultProblemBuilder.GetTestByName | modules/test_node/src/problem_builders/enable_get_test_by_name_impl.cpp:7-13 | the test last added under this name, or null |
| ProblemBuilders.DefaultProblemBuilder.AddTest | modules/test_node/src/problem_builders/enable_get_test_by_name_impl.cpp:15-19 | the test replaces one of the same name |
| ProblemBuilders.DefaultProblemBuilder.Build | modules/test_node/src/problem_builders/default_problem_builder.cpp:9-20 | the names are built in order until a constructor throws, earlier tests stay, and the result is "main" or null |
| ProblemBuilders.EdgesPointBackwards | modules/test_node/src/problem_builders/default_problem_builder.cpp:9-20 | for every configuration, accepted or not, each built test points only to earlier-built tests, so run, skip and boxesRequired terminate |
| ProblemBuilders.AcceptedIff | modules/test_node/src/problem_builders/default_problem_builder.cpp:9-20 | build succeeds exactly when the first definition of each name has a known type and refers only to names defined before; "main" is then non-null exactly when defined |
| ProblemBuilders.BuiltAsDescribed | modules/test_node/src/problem_builders/default_problem_builder.cpp:12-17 | every object unfolds to the tree that the first definition of its name describes, shared or repeated definitions included |
| ProblemBuilders.MainAsDescribed | modules/test_node/src/problem_builders/default_problem_builder.cpp:19 | in particular the returned main test |
| PolygonConverters.ConvertICPCProblemPackage | modules/content_service/src/problem_package_converter/polygon_converter.cpp:51-98 | the nested loops emit per testset its singles and then the testset, and last the compilation and main tests |
| PolygonConverters.TestsetEmitted | modules/content_service/src/problem_package_converter/polygon_converter.cpp:54-88 | every testset of the package is emitted under min with all its numbered tests in order, each defined as a single test before it |
| PolygonConverters.AddedTestsEmitted | modules/content_service/src/problem_package_converter/polygon_converter.cpp:90-98 | last come compilation over tests and main over compilation |
| PolygonConverters.DecimalReads | modules/content_service/src/problem_package_converter/polygon_converter.cpp:65-68 | a test number is written in digits that read back as the number |
| PolygonConverters.TestNamesDiffer | modules/content_service/src/problem_package_converter/polygon_converter.cpp:62-70 | the tests of one testset have different names |
| PolygonConverters.ConvertedAcceptedIff | modules/content_service/src/problem_package_converter/polygon_converter.cpp:51-98 | the emitted list is accepted exactly when a testset is named "tests" or "compilation", whatever names collide |
| PolygonConverters.ConvertedRunsAsMeantIff | modules/content_service/src/problem_package_converter/polygon_converter.cpp:51-98 | the converted package is accepted and its main test compiles and then runs n tests in order under the minimum, whatever its scripts do, exactly when no testset of the package is called "main" or "compilation", every testset before "tests" that is called like one of its tests has a test of that name in a testset before it, and n is the count of "tests" |
| PolygonConverters.NumberedAreSingleIff | modules/content_service/src/problem_package_converter/polygon_converter.cpp:62-87 | that condition on the package is exactly when each of the names 1, 2, ... is first defined as a single test |
| PolygonConverters.ConvertedBoxesSufficeIff | modules/content_service/src/problem_package_converter/polygon_converter.cpp:54-70 | such a problem is never short of boxes exactly when it has a test |
| ContentManifests.CompareManifests | modules/content_service/src/content_manifest.cpp:77-106 | each differing path is listed exactly once with the right kind, removals last, in whatever order paths are visited |
| ContentManifests.NoChangesIff | modules/content_service/src/content_manifest.cpp:77-106 | the diff is empty exactly when paths, hashes and permissions agree |
| ContentManifests.KindTable | modules/content_service/src/content_manifest.cpp:82-103 | exactly when a path is added, removed, modified or changed in attributes |
| ContentManifests.PermissionsFromManifest | modules/content_service/src/content_manifest.cpp:108-114 | the recorded permissions, or unknown ones for a path without them |
| ContentManifests.ReverseDiff | modules/content_service/src/content_manifest.cpp:77-106 | the diff the other way is the same with additions and removals exchanged |
| ContentServices.InStream.Read | modules/content_service/src/client/content_service_stub.cpp:131-136 | a read past the end comes up short and sets the fail bit |
| ContentServices.Chunks | modules/content_service/src/client/content_service_stub.cpp:127-143 | the chunks joined are the file; all but the last are 64 KB and none is empty |
| ContentServices.OnePacking | modules/content_service/src/client/content_service_stub.cpp:127-143 | only one sequence of chunks meets that description |
| ContentServices.ReadChunks | modules/content_service/src/server/content_service.cpp:212-221 | the received data is the chunks that arrive until the stream ends or breaks, joined, or an error when any message is not a chunk |
| ContentServices.BrokenStream | modules/content_service/src/server/content_service.cpp:212-222 | what arrives before a stream breaks is a beginning of the content, which the handlers store |
| ContentServices.ContentServer.GetFile | modules/content_service/src/server/content_service.cpp:141-177 | the file's content in chunks, or the status of the failed check and no chunk |
| ContentServices.ContentServer.CreateFile | modules/content_service/src/server/content_service.cpp:180-232 | the status for each way to fail, in order; only a well-formed stream for a missing file creates it, and nothing else changes |
| ContentServices.ContentServer.UpdateFile | modules/content_service/src/server/content_service.cpp:235-278 | only a well-formed stream for an existing file replaces its content, keeping its permissions |
| ContentServices.ContentServer.DeleteFile | modules/content_service/src/server/content_service.cpp:281-302 | an existing file goes, and nothing else changes |
| ContentServices.ContentServer.SetPermissions | modules/content_service/src/server/content_service.cpp:305-328 | an existing file's permissions change, and nothing else does |
| ContentServices.ContentServer.CheckFullFilePath | modules/content_service/src/server/content_service.cpp:50-91 | OK exactly for a relative path inside existing content that exists if it must; a well-formed path can only be not found |
| ContentServices.ContentServiceStub.GetFile | modules/content_service/src/client/content_service_stub.cpp:81-107 | round trip: the client gets exactly the server's content |
| ContentServices.ContentServiceStub.CreateFile | modules/content_service/src/client/content_service_stub.cpp:109-151 | round trip: the server stores exactly the client's content |
| ContentServices.ContentServiceStub.UpdateFile | modules/content_service/src/client/content_service_stub.cpp:153-195 | round trip for an existing file |
| ContentStorages.ContentStorage.SyncContent | modules/content_service/src/client/content_storage.cpp:28-54 | afterwards each local path is what the comparison of the manifests says; the server is not changed; missing content is an error and changes nothing |
| ContentStorages.ContentStorage.SyncFile | modules/content_service/src/client/content_storage.cpp:56-86 | the same for the target path, and no other path changes |
| ContentStorages.ContentStorage.Upload | modules/content_service/src/client/content_storage.cpp:109-129 | each change passes the handlers' guards |
| ContentStorages.ContentStorage.UpdateContentOnServer | modules/content_service/src/client/content_storage.cpp:88-130 | no call of the replay is refused and each server path ends as the comparison says; missing local content fails before any change |
| ContentStorages.ReplayedDiff | modules/content_service/src/client/content_storage.cpp:43-53 | replaying a diff in its order leaves at every path what its change says |
| ContentStorages.ConvergesIff | modules/content_service/src/client/content_storage.cpp:28-130 | after a sync in either direction contents and permissions equal the source's exactly when no file present on both sides has different contents under equal recorded hashes |
| ContentStorages.SecondDiffEmpty | modules/content_service/src/client/content_storage.cpp:88-130 | with right hashes and no collision the second diff is empty |
| ContentStorages.InterruptedSyncHealsIff | modules/content_service/src/client/content_storage.cpp:43-53 | whatever an interrupted sync left, truncated files included, the next sync on right hashes converges exactly when nothing left collides with the source |
| ContentStorages.PrefixDoesNotCollide | modules/content_service/src/client/content_storage.cpp:43-53 | stopping after any number of changes adds no collision |
| ContentStorages.SyncAfterScans | modules/content_service/src/content_scanner.cpp:46-115 | syncing from a directory whose scanner missed no edit makes the other side equal to the disk |
| ContentStorages.MissedEditStaysBehind | modules/content_service/src/content_scanner.cpp:101-106 | an edit the scanner missed is not synced: the other side keeps the version before it |
| ContentScanners.ContentScanner.ScanContent | modules/content_service/src/content_scanner.cpp:46-54 | a full scan when the interval has passed since the last one, else a cached scan |
| ContentScanners.ContentScanner.FullContentScan | modules/content_service/src/content_scanner.cpp:56-81 | the manifest of all files but the stored manifest, and the time of the scan's end is kept |
| ContentScanners.ContentScanner.ScanContentWithCache | modules/content_service/src/content_scanner.cpp:83-115 | the same with the hash of an equal size and second reused |
| ContentScanners.FullScanRecords | modules/content_service/src/content_scanner.cpp:61-76 | all files but manifest.json, each with size, whole seconds, permissions and hash |
| ContentScanners.CachedScanRecords | modules/content_service/src/content_scanner.cpp:89-112 | the same, but that a hash may be the stored one of equal size and second |
| ContentScanners.SecondsTruncate | modules/content_service/src/content_scanner.cpp:98-99 | a time is recorded in whole seconds, rounded toward the epoch |
| ContentScanners.ContentManifest.UpdateManifest | modules/content_service/src/content_manifest.cpp:65-67 | the stored manifest becomes the scan's result; the files stay |
| ContentScanners.CachedRightIff | modules/content_service/src/content_scanner.cpp:83-115 | a cached scan equals the full scan exactly when every reused hash is right |
| ContentScanners.FirstScanFullIff | modules/content_service/src/content_scanner.cpp:40-54 | the first scan is full exactly when the interval is at most the time since the earliest time point |
| ContentScanners.AllRightIff | modules/content_service/src/content_scanner.cpp:46-115 | over every run of edits and scans all manifests are those of full scans exactly when no edit before a cached scan keeps a file's size and second |
| ContentScanners.PlainEditSeen | modules/content_service/src/content_scanner.cpp:101-109 | an edit that changes the size, or moves the time by a second on one side of the epoch, is seen by the next scan |
| ContentScanners.PlainEditsAllRight | modules/content_service/src/content_scanner.cpp:46-115 | so a run with only such edits has every manifest of a full scan |
| ContentScanners.AroundTheEpoch | modules/content_service/src/content_scanner.cpp:98-99 | within a second of the epoch all times are recorded as one second |
| ContentScanners.HashesAreRecent | modules/content_service/src/content_scanner.cpp:46-115 | without that assumption each stored hash is of a version seen since the last full scan, less than one interval ago |
| ContentScanners.FullScanIsRight | modules/content_service/src/content_scanner.cpp:56-81 | so the first scan at or after the interval is right whatever was stored |
| ContentScanners.SameSecondEditMissed | modules/content_service/src/content_scanner.cpp:101-106 | an edit that keeps size and second keeps the old hash at the next cached scan |
| AuthSessions.SessionStore.Create | app/auth/sessions/redis_store.py:46-52 | session, index and index expiry are written in this order, each at its own time |
| AuthSessions.SessionStore.Get | app/auth/sessions/redis_store.py:54-61 | the session, exactly while it has not expired |
| AuthSessions.SessionStore.Delete | app/auth/sessions/redis_store.py:63-69 | a live session leaves its user's index, and the session goes |
| AuthSessions.SessionStore.DeleteAllForUser | app/auth/sessions/redis_store.py:71-80 | all indexed sessions and the index go |
| AuthSessions.CreateWrites | app/auth/sessions/redis_store.py:46-52 | a created session lives for the ttl; its user's index gets it and keeps the rest, other indexes stay |
| AuthSessions.DeleteWrites | app/auth/sessions/redis_store.py:63-69 | a delete takes a live session out of its index and ends it, and touches nothing else |
| AuthSessions.DeleteAllWrites | app/auth/sessions/redis_store.py:71-80 | a delete-all ends what the index lists and drops the index |
| AuthSessions.RunGoesOn | app/auth/sessions/redis_store.py:46-80 | what each further operation of a run does to the sessions and the index |
| AuthSessions.CreateKeepsIndexIff | app/auth/sessions/redis_store.py:46-52 | every live session stays in an index that outlives it exactly when the index does not run out between the command that adds the session and the one that renews the index, or the session is over by then |
| AuthSessions.DeleteKeepsIndex | app/auth/sessions/redis_store.py:63-69 | deleting a session ends that session only and keeps the rest indexed |
| AuthSessions.DeleteAllLeavesNone | app/auth/sessions/redis_store.py:71-80 | afterwards no session of the user is live and no other session is touched |
| AuthSessions.IndexedThroughoutIff | app/auth/sessions/redis_store.py:46-80 | over every run of creates, deletes and delete-alls on a monotone clock, every live session is in its user's index after every operation exactly when no index runs out inside a create |
| AuthSessions.DeleteAllInRun | app/auth/sessions/redis_store.py:71-80 | so in every such run with fresh ids a delete-all ends exactly the sessions of its user |
| AuthTables.AuthRefreshTokensTable.Create | app/auth/tables/refresh_tokens.py:58-67 | a row is added, unless its key is taken |
| AuthTables.AuthRefreshTokensTable.Validate | app/auth/tables/refresh_tokens.py:69-88 | the token's user exactly while it is neither revoked nor expired |
| AuthTables.AuthRefreshTokensTable.Revoke | app/auth/tables/refresh_tokens.py:90-92 | the token never validates again, and no other row changes |
| AuthTables.AuthRefreshTokensTable.RevokeAllForUser | app/auth/tables/refresh_tokens.py:94-96 | no token validates for the user, and other users' tokens stay |
| AuthTables.AuthUsersTable.RegisterUser | app/auth/tables/users.py:62-70 | a new name gets an account, a taken one is left alone |
| AuthTables.AuthUsersTable.GetUser | app/auth/tables/users.py:72-84 | the stored role exactly for a known name |
| AuthTables.AuthUsersTable.Authenticate | app/auth/tables/users.py:86-102 | the role exactly for a known name with a matching password |
| AuthTables.AuthUsersTable.SetRole | app/auth/tables/users.py:104-110 | only the role of an existing account changes |
| AuthTables.AuthUsersTable.SoftDelete | app/auth/tables/users.py:112-113 | the account stays, with the deleted role |
| AuthRuns.BlockedAccountStaysOut | app/auth/api/deps.py:38-55 | in any interleaving, once an account is banned or deleted no login, refresh or API request that starts later succeeds for it, unless a request gives it a role again |
| AuthRuns.RevokedTokenStaysOut | app/auth/service.py:62-73 | a refresh that has not validated its token before the token is revoked never succeeds |
| AuthRequests.ExpiredTokenStaysOut | app/auth/tables/refresh_tokens.py:81-86 | in any interleaving a refresh that has not validated its token by its expiry never gets past that |
| AuthRequests.WrongPasswordStaysOut | app/auth/service.py:53-60 | in any interleaving a login with a password that does not match never succeeds |
| AuthRequests.LoginDecides | app/auth/service.py:53-60 | a login goes on exactly when the account exists, is neither banned nor deleted and the password matches |
| AuthRequests.LoginServed | app/auth/service.py:53-106 | a whole login leaves one new session and one new token with their lifetimes |
| AuthRequests.ApiServedIff | app/auth/api/deps.py:38-55 | a request is served exactly while its session is live and its user's stored role may log in |
| AuthRequests.RefreshDecides | app/auth/service.py:62-66 | a refresh goes on exactly with a known token that is neither revoked nor expired |
| AuthRequests.RefreshServed | app/auth/service.py:62-106 | a whole refresh revokes the old token and leaves a new one and a session |
| AuthRequests.SetRoleServed | app/auth/tables/users.py:104-110 | a change of role reaches exactly that account and keeps its password |
| AuthRequests.RegisterServed | app/auth/service.py:32-51 | a registration creates a plain user under a free name and fails on a taken one |
| AuthRequests.LogoutServed | app/auth/service.py:75-79 | a whole logout ends the session and revokes the token it presents, and nothing else |
| AuthRuns.TokenUsedTwiceOnlyOverlapping | app/auth/service.py:62-73 | two refreshes with one token both succeed only if at some point both had validated it and neither had revoked it |
| AuthRuns.OverlappingUsesBothSucceed | app/auth/service.py:62-73 | and from any such point both can succeed, the account still allowed to log in |
| AuthRuns.TokenUsedTwice | app/auth/service.py:53-73 | it happens: after a registration and a login two refreshes with one token both succeed |
| AuthRuns.SignInFinishes | app/auth/service.py:88-106 | from each phase past the role check a sign-in completes with a valid token, and with its session if that was still to be written |
| AuthDeletions.TrackedThroughoutIff | app/auth/service.py:53-106 | over every interleaving, each live session of a user is at every point in an index that outlives it, being created, or between a logout's removal from the index and its deletion, and no deletion has read the index, exactly when no index runs out under a live session that only a pending renewal accounts for and no deletion reads the index |
| AuthDeletions.DeletionIsFinal | app/auth/service.py:81-86 | with no sign-in of the account past the role check, a deletion leaves from its end on no valid token and no live session but those a logout is ending, whatever else runs |
| AuthDeletions.DeletionFinalIff | app/auth/service.py:81-106 | at the soft delete: every continuation in which the deletion succeeds leaves nothing, sessions being ended by logouts aside, exactly when no sign-in of the account is past the role check |
| AuthDeletions.ListingFinalIff | app/auth/sessions/redis_store.py:63-80 | when the deletion reads the index: every continuation leaves no live session and no valid token at all exactly when no sign-in is past the role check and no logout is between removing a live session from the index and deleting it |
| AuthDeletions.CleanDeletionIff | app/auth/service.py:53-106 | DeletionFinalIff after any such run from the start |
| AuthDeletions.SignInOutlivesDeletion | app/auth/service.py:81-106 | what a sign-in at each phase past the check leaves when the deletion runs to its end before it: its token always, its session exactly when not yet written or not in the index when that was read |
| AuthDeletions.DeletedUserSignedIn | app/auth/service.py:53-106 | it happens: a deleted account with a live session and a valid token |
| AuthDeletions.LoggedOutSessionLives | app/auth/service.py:75-86 | it happens: a deletion between a logout's two steps misses the session, which stays live |

## Left out

- QueueProtocol: the coroutine loops are a step relation on values, not methods with loops; the run's acknowledgement log is shared, and order of answers is stated per connection.
- TestTrees: the virtual classes of tests are one datatype; a test shared by two parents is unfolded into the tree of its runs, and a testset's builder is created for each run where the source reuses a field.
- VerdictBuilders: one class with a kind stands for the two builder classes; times and scores are exact reals, and the JSON of additional information is not kept.
- TestTrees.RunTest: the protocol file and the database fields that the sync-result and compilation tests write, and the scripts themselves, are arbitrary outcomes; limits are not passed down.
- LeafVerdicts: parsing of numbers in the meta file and the file number a single test reads (it parses a moved-from name) are left out.
- TestingQueues: invokers accept by a fixed function of the submission, where the repository's own accept everything.
- ConnectionPools: tasks run on one executor thread; the stretch between publishing a slot and claiming it is one step. Health checks, reconnecting in acquire and SQL execution are left out.
- StatementSync: the server is a map from statement names to SQL; a call succeeds, is refused for a clash, or fails with the connection.
- ProblemBuilders: XML parsing; a configuration is a list of definitions. Limits and paths of tests are left out.
- PolygonConverters: compiling the checker, the limits and writing the file are left out.
- ContentManifests: a manifest is a map of records with optional keys; JSON of any other shape is left out.
- ContentServices: canonical paths are a given predicate, directories and content ids have no model, no path is a prefix of another, and gRPC and file system failures are left out (what an interrupted transfer leaves is covered by BrokenStream and InterruptedSyncHealsIff).
- ContentStorages: one client at a time, with the server's files unchanged while it works; the manifests are those of scans at its start, and their JSON round trip and the file they are stored in are left out.
- ContentScanners: a scan sees the files at one moment; nobody but the scanner writes the stored manifest.
- AuthRuns: the service's methods are the phases of a step function on values, not methods that call the stores; table initialization and validation of names are left out of the interleaved runs; each store access is atomic.
- QueueProtocol.NothingSubmittedIsLost: a handshake under an id that is still connected is not a step of the protocol; ConservationIff and DuplicateIdLosesSubmission say what the queue does then.
- EarlySkips.RunIsEarly: children that throw are outside it and the results about it; EarlySkipRefinesRunAll compares with a reference in which none does.
- Package upload, the web pages, Python bindings, verdict aggregators, problem tables, loggers and plugin loading are left out: they hold no property across operations.
