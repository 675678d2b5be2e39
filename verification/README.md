# SNF framework: verified models

Dafny models of the concurrent and parsing core of the SNF C++ framework, with proofs of what that
core promises. `dafny verify dfyconfig.toml` checks everything.

**Strands and the task pool** (`Strand`, `TaskPool`, `PoolProtocol`, `PoolTokens`, `PoolHistory`,
`PoolTheorems`, `PoolWaiting`, `PoolShutdown`, `PoolReturn`). A strand runs its tasks one at a time and in order on whichever
worker of a pool is free, by means of a `scheduled` flag and a drain entry in a shared queue. The
critical sections of `Strand.cpp` and `TaskPool.cpp` are functions of plain data; the classes
`Strand` and `TaskPool` run them in place, and `PoolProtocol` interleaves them over any number of
threads: posts, drains in batches of 64, deferred deletes, reservation and recycling of strands,
shutdown. Nine invariants are kept by every step; the theorems hold in every reachable state, and
those about whole drains, deferred deletes, shutdown and the return of strands over every run.

**Requests that follow a node** (`Delivery`, `DeliverySilence`). Queued slots, deferred deletes and asynchronous moves
are posted to the owner of a node and forward themselves if it has migrated. Executors, lifetime
blocks and requests form a transition system with a log of what was performed where.

**Descriptors** (`IoService`, `IoProtocol`) and **timers** (`Timer`, `TimerTables`, `TimerProtocol`,
`TimerTheorems`, `TimerFiring`). The descriptor thread with its one-shot arming, and one timer with the executors
that may own it, the deadline threads and the timeouts under way. For timers the claim that an
active timer always has a pending timeout is false in general: an EventLoop dispatches its due list
without an owner check. `MigrationSafeExactly` gives the exact condition.

**The ownership tree** (`NodeTree`, `NodeMeaning`, `NodeForest`). Parent and child links and executor
registries; recursive destruction and migration are proved equal to one operation on the set of
descendants, which are the nodes from which a chain of parents leads up.

**HTTP/1.1 requests** (`Text`, `HttpRequestParser`, `HttpCuts`, `HttpChunks`, `HttpLines`,
`HttpRequests`). The incremental parser as a function of its state and the bytes fed, the class that
consumes its buffer in place, and the question whether the result depends on how the stream is cut.
The framing is proved for any rules for lines; `HTTP` are the rules of the code, and for these whole
requests are decoded from the text on the wire: request line, query, header fields, body.

**INI files** (`IniParser`, `IniMeaning`, `IniRoundTrip`), **the trace ring** (`TraceBuffer`, `TraceRing`) and
**the SQL table model** (`SqlLiterals`, `SqlTableModel`, `SqlSubmit`): round trips and their exact
condition, a lock-free ring under every interleaving, and a submit that fails half way. The database
of the table model is a table of values of its own, filled by reading the literals of the
statements, so what a literal loses shows.

Where comments and code disagree, the model follows the code. The comment at `Timer.cpp:189-190`
says that after a migration the old owner does not emit; it can, if it has already taken the due
timeout. The documentation of `emit` says that queued slots go to the receiver's EventLoop; they go
to its executor, loop or strand.

## Model

| member | source | states |
|---|---|---|
| PoolTheorems.ScheduledIffOneToken | lib/Core/src/SNFCore/Strand.cpp:59-88 | in every reachable state a strand is scheduled exactly when one right to drain it exists, queued, in the hands of a caller, or in a running drain; never two; the active flag agrees |
| PoolTheorems.MutualExclusion | lib/Core/src/SNFCore/Strand.cpp:147-191 | no two threads are inside the task-running part of one strand, and none is while shutdown sweeps |
| PoolTheorems.StrandIsFifo | lib/Core/src/SNFCore/Strand.cpp:59-77 | until retirement the accepted posts in lock order are the executed ones, the running one and the queued ones |
| PoolTheorems.NoLostWakeup | lib/Core/src/SNFCore/Strand.cpp:152-190 | queued tasks always have a drain token while the pool has workers that are not joined |
| PoolTheorems.RescheduleNeverRefused | lib/Core/src/SNFCore/TaskPool.cpp:192-203 | a worker that reschedules a strand after its batch is never refused by the pool, shutdown or not |
| PoolTheorems.GuardsNeverBlock | lib/Core/src/SNFCore/Strand.cpp:59-191 | every strand that the pool, a thread or the shutdown refers to exists, so the model never holds the code back |
| PoolTheorems.CallsGoOn | lib/Core/src/SNFCore/TaskPool.cpp:151-203 | in every reachable state a thread in the middle of a call has its next step, but for waiting for the strand mutex |
| PoolTheorems.WorkersGoOn | lib/Core/src/SNFCore/TaskPool.cpp:233-265 | so has a worker outside a call, unless the queue is empty and the pool is not stopping |
| PoolReturn.LockIsGivenBack | lib/Core/src/SNFCore/TaskPool.cpp:173-190 | the thread that holds the strand mutex gives it back with its next step |
| PoolTheorems.ShutdownRunsEverything | lib/Core/src/SNFCore/TaskPool.cpp:93-126 | when the joins return, every task that start accepted was taken once and has finished, and nothing runs |
| PoolTheorems.WaitForDoneIsDone | lib/Core/src/SNFCore/TaskPool.cpp:84-91 | the active counter is the number of workers running something; waitForDone wakes only with nothing queued or running and every entry finished |
| PoolWaiting.BoundedWaiting | lib/Core/src/SNFCore/TaskPool.cpp:233-265 | over every run in which at most k entries are taken, the entry with k ahead has moved up by exactly that many, those taken were the ones ahead of it, none of them drains a strand twice, and no strand has executed more than 64 tasks |
| PoolWaiting.TakenInTurn | lib/Core/src/SNFCore/TaskPool.cpp:240-248 | over every run, the entry is taken exactly by the take after those k |
| PoolWaiting.DrainRunsOneBatch | lib/Core/src/SNFCore/Strand.cpp:147-191 | over every run, from the take of a drain until it gives its strand up, the strand executes at most 64 tasks |
| PoolWaiting.DrainRunsItsBatch | lib/Core/src/SNFCore/Strand.cpp:147-171 | over every run from the take of a drain, its batch ends only after exactly 64 tasks have been executed or the queue was found empty; until then it has executed what it counts |
| PoolWaiting.DrainRunsWhatWaits | lib/Core/src/SNFCore/Strand.cpp:152-171 | a drain taken with a queue executes the first 64 tasks of it, or all if fewer, in order and before anything else, by the end of its batch |
| PoolTheorems.EntriesRunInOrder | lib/Core/src/SNFCore/TaskPool.cpp:240-248 | a worker running the n-th entry took it as the n-th, nobody else has it, and a drain in a task has finished fewer than 64 before it |
| PoolTheorems.NoDeletesLeftBehind | lib/Core/src/SNFCore/Strand.cpp:173-181 | a strand with pending deletes has a thread inside it or is being swept by shutdown |
| PoolShutdown.DeletesAreCarriedOut | lib/Core/src/SNFCore/Strand.cpp:132-145 | whenever nobody is inside a strand and shutdown does not sweep it, every deferred delete asked for in it has been carried out, in order and once |
| PoolShutdown.ShutdownRetiresAll | lib/Core/src/SNFCore/TaskPool.cpp:128-138 | over every run from the joins to the end of shutdown, every strand there was is retired |
| PoolShutdown.RetiredStaysEmpty | lib/Core/src/SNFCore/Strand.cpp:218-220 | retiring discards the queue, and over every run it stays empty unless a post had passed its check before |
| PoolTheorems.FreeListExact | lib/Core/src/SNFCore/TaskPool.cpp:173-190 | the free list has no duplicates and is the set of free strands, which are unreserved and have no nodes |
| PoolShutdown.ProbeFrees | lib/Core/src/SNFCore/TaskPool.cpp:183-190 | a strand that is looked at goes to the free list exactly if it has no drain and no tasks |
| PoolReturn.NoStrandIsLost | lib/Core/src/SNFCore/TaskPool.cpp:173-190 | over every run that removes nodes from inside their strand, a strand that is not free, not reserved, without nodes, drain and tasks has a thread about to return it, until shutdown sweeps |
| PoolReturn.RemovedOutsideIsLost | lib/Core/src/SNFCore/Strand.cpp:98-100 | a run of five steps in which the last node is removed while the strand is idle, after which nobody is about to return it |
| PoolReturn.NodesAreCounted | lib/Core/src/SNFCore/Strand.cpp:98-100 | over every run the node count is what was added to the strand less what was removed |
| PoolTheorems.AcquireIsExclusive | lib/Core/src/SNFCore/TaskPool.cpp:151-171 | an acquired strand has no other holder, was not reserved, has no nodes and belongs to its acquirer |
| PoolTheorems.AcquireReuses | lib/Core/src/SNFCore/TaskPool.cpp:159-170 | a new strand is made exactly if no strand is free; otherwise the one freed last is taken off the list |
| PoolTheorems.StartQueuesExactly | lib/Core/src/SNFCore/TaskPool.cpp:68-82 | a task is queued last exactly before shutdown begins and in a pool with workers, else nothing changes |
| PoolTheorems.PostQueues | lib/Core/src/SNFCore/Strand.cpp:59-77 | a post whose check found the strand not retired is accepted and queued last, and leaves the strand scheduled |
| Strands.Strand.PostLocked | lib/Core/src/SNFCore/Strand.cpp:59-77 | queues the task last and claims the drain exactly when nobody has it; no other field changes |
| Strands.Strand.ScheduleRefused | lib/Core/src/SNFCore/Strand.cpp:79-88 | a refused drain gives the claim back |
| Strands.Strand.ReadMore | lib/Core/src/SNFCore/Strand.cpp:175-190 | after a batch the claim is kept exactly when tasks are left |
| Strands.Strand.IsRecyclable | lib/Core/src/SNFCore/Strand.cpp:193-200 | true exactly for an unreserved strand that is not free, has no nodes, no drain and no tasks |
| Strands.Strand.RunPendingDeletes | lib/Core/src/SNFCore/Strand.cpp:132-145 | terminates, deletes each node at most once and only while alive, destroys nothing else, answers every request including those made by destructors, and leaves the list empty |
| TaskPools.TaskPool.Start | lib/Core/src/SNFCore/TaskPool.cpp:68-82 | accepted exactly while the pool is not stopping and has workers; then queued last |
| TaskPools.TaskPool.EnqueueStrandDrain | lib/Core/src/SNFCore/TaskPool.cpp:192-203 | drains are accepted until the workers are joined, also while the queue runs dry |
| TaskPools.TaskPool.TakeEntry | lib/Core/src/SNFCore/TaskPool.cpp:245-247 | the oldest entry is taken and counted as active |
| TaskPools.TaskPool.FinishEntry | lib/Core/src/SNFCore/TaskPool.cpp:249-264 | the waiters are notified exactly when nothing is queued or active |
| TaskPools.TaskPool.BeginShutdown | lib/Core/src/SNFCore/TaskPool.cpp:110-115 | start refuses from here on, the queue stays, drains are still accepted |
| TaskPools.TaskPool.Recycle | lib/Core/src/SNFCore/TaskPool.cpp:183-190 | the strand freed last is the one handed out next |
| Delivery.PerformedInsideOwnerOnce | lib/Core/src/SNFCore/Connection.h:61-79 | over every run mixing emits, migrations, deletes and shutdowns, whatever was performed was performed inside the executor owning the node at that moment, and at most once |
| Delivery.ForwardsBounded | lib/Core/src/SNFCore/Connection.h:212-261 | a request was forwarded at most once per change of owner since its emit read the owner |
| Delivery.NothingIsLost | lib/Core/src/SNFCore/Node.cpp:139-174 | when nothing is under way, every request was performed, or its node is no longer alive, or it is a slot whose receiver is marked for deletion or whose connection is cut, or the executor it reached has shut down |
| Delivery.DeletesAndMovesArrive | lib/Core/src/SNFCore/Node.cpp:139-174 | hence a deferred delete or move of a live node, marked or not, has been performed unless the executor it reached has shut down |
| Delivery.BegunInOrder | lib/Core/src/SNFCore/Strand.cpp:59-77 | the requests posted to an executor that has not shut down are those it has begun, in that order, and those queued |
| DeliverySilence.RequestsGoOn | lib/Core/src/SNFCore/Connection.h:61-79 | a request in flight can be posted, an idle executor with requests can take one, and one that serves can go on |
| Delivery.MoveMoves | lib/Core/src/SNFCore/Node.cpp:155-174 | performing a move makes the target the owner of the node and its subtree and of no other node |
| Delivery.SettledIsNotForwarded | lib/Core/src/SNFCore/Node.cpp:155-174 | a request forwarded as often as its node moved has arrived and is not forwarded again |
| Delivery.CutSlotNeverStarts | lib/Core/src/SNFCore/Connection.h:244-256 | a slot of a cut connection or of a receiver marked for deletion or gone is started by no continuation |
| DeliverySilence.DisconnectSilences | lib/Core/src/SNFCore/Connection.h:212-249 | from a disconnect on, over every run, no slot of the connection starts, whether emitted before or after |
| DeliverySilence.DeleteLaterSilences | lib/Core/src/SNFCore/Node.cpp:103-113 | from deleteLater on, over every run, no slot of the node starts |
| DeliverySilence.DestroySilences | lib/Core/src/SNFCore/Connection.h:55-79 | nor from its destruction on |
| DeliverySilence.MigrateMoves | lib/Core/src/SNFCore/Node.cpp:446-480 | a migration changes the owner of the subtree and of no other node, and no request |
| IoProtocol.NeverDoubles | lib/Core/src/SNFCore/IoService.cpp:130-167 | for each registration of a descriptor at most one callback is collected and unfinished |
| IoProtocol.NeverDeaf | lib/Core/src/SNFCore/IoService.cpp:39-87 | until stop, a watch is queued exactly while a callback of its registration is outstanding, and otherwise armed for its current events or in the batch in hand |
| IoProtocol.FinishRearms | lib/Core/src/SNFCore/IoService.cpp:117-128 | the callback that returns re-arms its watch for the events wanted by then, and leaves none outstanding |
| IoProtocol.CallbacksGoOn | lib/Core/src/SNFCore/IoService.cpp:130-167 | the descriptor thread that is not waiting and every unfinished callback have their next step |
| IoProtocol.DeliveredToItsRegistration | lib/Core/src/SNFCore/IoService.cpp:150-167 | a callback is the function of its registration, goes to its strand, and tells of a descriptor and events that the poller reported, across reuse of the descriptor |
| IoProtocol.PostsExactly | lib/Core/src/SNFCore/IoService.cpp:146-157 | the callbacks collected from a batch are, in report order, one for each descriptor that is watched and has none out, for its first report and with the events of that report |
| IoProtocol.RegistrationsAreUnique | lib/Core/src/SNFCore/IoService.cpp:51-56 | no registration number is ever given to a second user |
| IoProtocol.NothingPostedAfterStop | lib/Core/src/SNFCore/IoService.cpp:101-115 | once the thread has left, no continuation collects or posts a callback |
| IoServices.IoService.RegisterIO | lib/Core/src/SNFCore/IoService.cpp:39-63 | replaces the watch with a new registration and arms it, no other descriptor changes; ignored for a bad descriptor and after stop |
| IoServices.IoService.ModifyIO | lib/Core/src/SNFCore/IoService.cpp:65-76 | changes the events of this watch alone, and arms unless a callback is out or the service stopped |
| IoServices.IoService.UnregisterIO | lib/Core/src/SNFCore/IoService.cpp:78-87 | removes the watch and disarms it, no other descriptor changes |
| IoServices.IoService.MarkHandled | lib/Core/src/SNFCore/IoService.cpp:117-128 | re-arms only the registration the callback belongs to |
| IoServices.IoService.CollectBatch | lib/Core/src/SNFCore/IoService.cpp:146-157 | computes in place the callbacks that PostsExactly is about, and marks exactly the reported watches |
| IoServices.CollectMarks | lib/Core/src/SNFCore/IoService.cpp:146-157 | a watch is queued afterwards exactly if it was or some report is about it; nothing else changes |
| TimerTheorems.EachGenerationOnce | lib/Core/src/SNFCore/Timer.cpp:217-252 | through any mix of loop and strand dispatch, restarts and migrations, each generation is emitted at most once, never before its deadline, by a strand only while it owns the timer |
| TimerTheorems.GuardedTimerIsExact | lib/Core/src/SNFCore/Timer.cpp:187-215 | in runs whose migrations are guarded, an active timer has a timeout of its current generation and deadline with its owner unless the service stopped, no other executor keeps an entry, and generations are emitted in order inside the owner |
| TimerTheorems.StopSilences | lib/Core/src/SNFCore/Timer.cpp:95-115 | in such runs nothing is emitted after stop until the next start |
| TimerFiring.AcceptedIsEmitted | lib/Core/src/SNFCore/Timer.cpp:217-252 | from any state and through any interleaving, a timeout accepted by an active timer of its generation is emitted by the executor that took it: with its next step if single-shot, else with its third, and nothing takes it away before |
| TimerFiring.PeriodicGoesOn | lib/Core/src/SNFCore/Timer.cpp:234-247 | in guarded runs a periodic timer that is not stopped stays active with its next timeout at its owner |
| TimerFiring.SingleShotFiresOnce | lib/Core/src/SNFCore/Timer.cpp:230-252 | in guarded runs a single-shot timer that accepted its timeout emits that generation once and no other until started again |
| TimerFiring.ActiveTimerCanFire | lib/Core/src/SNFCore/Timer.cpp:187-252 | after any guarded run an active timer whose owner is outside its functions can fire: some steps bring its current generation to dispatchTimeout, unless the pool has stopped its deadline thread |
| TimerFiring.ExecutorsGoOn | lib/Core/src/SNFCore/Timer.cpp:217-252 | an executor inside a function of the timer has its next step |
| TimerFiring.StopDisarms | lib/Core/src/SNFCore/Timer.cpp:95-115 | in guarded runs no table holds an entry of the timer once a stop has returned, until the next start |
| TimerFiring.RestartVoidsOld | lib/Core/src/SNFCore/Timer.cpp:65-148 | from a start, or a new interval of a running timer, on, over every run no older generation is emitted and the new one only for the new deadline |
| TimerTheorems.MigrationSafeExactly | lib/Core/src/SNFCore/EventLoop.cpp:147-152 | a migration keeps the timer armed through every guarded continuation if and only if the loop it leaves has not already taken the current timeout |
| TimerTheorems.UnsafeMigrationExists | lib/Core/src/SNFCore/EventLoop.cpp:147-152 | a run of four steps after which an unguarded migration is possible |
| Timers.Timer.Start | lib/Core/src/SNFCore/Timer.cpp:65-91 | a new generation whose deadline is the interval, never negative, from now |
| Timers.Timer.Stop | lib/Core/src/SNFCore/Timer.cpp:105-109 | inactive, and timeouts of the old generation are void |
| Timers.Timer.SetInterval | lib/Core/src/SNFCore/Timer.cpp:127-148 | restarts with the new interval exactly if active |
| Timers.Timer.DispatchTimeout | lib/Core/src/SNFCore/Timer.cpp:217-243 | emits exactly for the current generation of an active timer; a single-shot timer is then inactive, others run in the next generation with the deadline one interval from now |
| TimerTables.TimerService.Schedule | lib/Core/src/SNFCore/TimerService.cpp:12-29 | index and multimap keep describing one map, with the timer's entry replaced and placed after all entries that are not later; ignored after stop |
| TimerTables.TimerService.Cancel | lib/Core/src/SNFCore/TimerService.cpp:31-38 | that map without the timer |
| TimerTables.TimerService.Stop | lib/Core/src/SNFCore/TimerService.cpp:40-54 | both empty |
| TimerTables.TimerService.TakeDue | lib/Core/src/SNFCore/TimerService.cpp:77-84 | a pass removes exactly the entries due now, in deadline order, and index and multimap still agree |
| TimerTables.ScheduledAgree | lib/Core/src/SNFCore/TimerService.cpp:19-23 | erasing through the index and inserting keeps agreement and replaces one entry of the map |
| TimerTables.SuffixAgree | lib/Core/src/SNFCore/TimerService.cpp:79-84 | taking the front of the multimap and its timers out of the index keeps agreement |
| TimerTables.InsertedPlace | lib/Core/src/SNFCore/TimerService.cpp:19-23 | an insertion changes nothing but to put the entry after all that are not later and before all that are |
| TimerTables.PartKeepsOrder | lib/Core/src/SNFCore/EventLoop.cpp:455-469 | of two entries returned, or of two kept, the one scheduled first comes first |
| TimerTables.LoopTimers.ScheduleTimer | lib/Core/src/SNFCore/EventLoop.cpp:316-327 | one entry per timer, this timer's replaced and last |
| TimerTables.LoopTimers.CancelTimer | lib/Core/src/SNFCore/EventLoop.cpp:329-339 | the table without the timer |
| TimerTables.LoopTimers.TakeDueTimers | lib/Core/src/SNFCore/EventLoop.cpp:455-469 | erasing in place returns exactly the due entries and leaves exactly the others, both in the order they were scheduled |
| NodeTrees.SubtreeSplits | lib/Core/src/SNFCore/Node.cpp:476-479 | the descendants of a node are the node and the disjoint descendants of its children |
| NodeMeaning.SubtreeIsBelow | lib/Core/src/SNFCore/Node.cpp:476-479 | a node is in a subtree exactly if a chain of parents leads from it to the root of the subtree |
| NodeTrees.MovedValid | lib/Core/src/SNFCore/Node.cpp:446-480 | moving a root with its descendants keeps links, owners and registries in agreement |
| NodeTrees.DestroyedValid | lib/Core/src/SNFCore/Node.cpp:18-61 | destroying a node unregisters exactly its descendants and keeps agreement |
| NodeTrees.RelinkedTree | lib/Core/src/SNFCore/Node.cpp:197-224 | re-parenting within one owner and not below a descendant keeps the tree acyclic and consistent |
| NodeTrees.RelinkedRegistries | lib/Core/src/SNFCore/Node.cpp:197-224 | re-parenting changes only whether the node is among its owner's roots |
| NodeForests.NodeForest.ApplyMoveTo | lib/Core/src/SNFCore/Node.cpp:446-480 | the recursion changes the owner of the descendants and moves them between two registries, nothing else |
| NodeForests.NodeForest.DestroySubtree | lib/Core/src/SNFCore/Node.cpp:18-61 | the recursion removes the descendants, detaches the node from its parent, and clears one registry of them |
| NodeForests.NodeForest.ConstructRoot | lib/Core/src/SNFCore/Node.cpp:289-343 | a parentless node is a root of its executor; agreement holds |
| NodeForests.NodeForest.ConstructChild | lib/Core/src/SNFCore/Node.cpp:318-343 | a child gets its parent's owner and goes last in its list, no other node changes; agreement holds |
| NodeForests.NodeForest.SetParent | lib/Core/src/SNFCore/Node.cpp:197-224 | the node leaves its list or the roots and goes last in the new list or joins the roots, no other link changes; agreement holds |
| NodeForests.NodeForest.Destroy | lib/Core/src/SNFCore/Node.cpp:18-61 | exactly the nodes with a chain of parents to this one are gone, the parent's list loses it, no other node changes; agreement holds |
| NodeForests.NodeForest.MoveTo | lib/Core/src/SNFCore/Node.cpp:368-398 | refused for an unregistered or retired target and for a child whose parent stays; otherwise the nodes with a chain of parents to this one, and no others, change owner, and agreement holds |
| HttpCuts.CutIndependent | lib/HttpServer/src/SNFHttpServer/HttpRequestParser.cpp:16-37 | feeding a and then b is feeding a followed by b, in state, request, error and, unless failed, leftover bytes, if a does not stop in the middle of a chunk |
| HttpCuts.PiecesIndependent | lib/HttpServer/src/SNFHttpServer/HttpRequestParser.cpp:16-37 | the same for any number of pieces |
| HttpCuts.UnchunkedCutIndependent | lib/HttpServer/src/SNFHttpServer/HttpRequestParser.cpp:209-233 | a request that is not chunked may be cut anywhere, into any number of pieces |
| HttpCuts.HttpCutIndependent | lib/HttpServer/src/SNFHttpServer/HttpRequestParser.cpp:80-233 | the same for the rules of the code, from a fresh parser |
| HttpCuts.HttpForward | lib/HttpServer/src/SNFHttpServer/HttpRequestParser.cpp:80-207 | request line and headers never move the parser back, and sizes are 64-bit numbers |
| HttpChunks.CutIndependentExactly | lib/HttpServer/src/SNFHttpServer/HttpRequestParser.cpp:238-274 | a cut makes no difference whatever follows if and only if it does not stop the chunk loop with a size line erased and its chunk missing, and no size line read so far makes chunkSize + 2 wrap |
| HttpChunks.ChunksDecode | lib/HttpServer/src/SNFHttpServer/HttpRequestParser.cpp:238-274 | the loop turns every list of nonempty chunks encoded as in section 7.1 of RFC 9112 into its concatenation, leaving the bytes after it |
| HttpChunks.DecodesRequest | lib/HttpServer/src/SNFHttpServer/HttpRequestParser.cpp:16-37 | from any parser that has not failed, headers announcing a chunked body, the encoded chunks and anything after them decode to the concatenation, in one feed or in any pieces whose cuts keep out of the span from the end of a size line to the end of its chunk |
| HttpChunks.HttpDecodesRequest | lib/HttpServer/src/SNFHttpServer/HttpRequestParser.cpp:16-37 | the same for the rules of the code, a fresh parser and hexadecimal size lines |
| HttpRequests.SizedRequestDecodes | lib/HttpServer/src/SNFHttpServer/HttpRequestParser.cpp:16-233 | a request line, any header fields and a body whose length stands in decimal under Content-Length, cut anywhere, are decoded: method in capitals, path, query, last value of every header name, exactly that many body bytes, and the rest left over |
| HttpRequests.SizedRequestWaits | lib/HttpServer/src/SNFHttpServer/HttpRequestParser.cpp:209-233 | with fewer body bytes the parser waits and has kept those it got |
| HttpRequests.BodilessRequestDecodes | lib/HttpServer/src/SNFHttpServer/HttpRequestParser.cpp:158-187 | with no length, one that is no number, or a coding other than chunked, the request is complete at the blank line, with everything after it left over |
| HttpRequests.ChunkedHead | lib/HttpServer/src/SNFHttpServer/HttpRequestParser.cpp:164-175 | a Transfer-Encoding that mentions chunked, whatever the length says, leaves the parser waiting for chunks |
| HttpRequests.ChunkedRequestDecodes | lib/HttpServer/src/SNFHttpServer/HttpRequestParser.cpp:16-276 | the whole text of a chunked request is decoded, however the body was split and wherever it may be cut |
| HttpRequests.ShortLineIsRefused | lib/HttpServer/src/SNFHttpServer/HttpRequestParser.cpp:93-98 | a first line of at most two words fails with its message, however it arrives |
| HttpRequests.UnsupportedIsRefused | lib/HttpServer/src/SNFHttpServer/HttpRequestParser.cpp:136-142 | so does any protocol other than HTTP/1.1 and HTTP/1.0 |
| HttpRequests.BadHeaderIsRefused | lib/HttpServer/src/SNFHttpServer/HttpRequestParser.cpp:189-196 | so does a header line without a colon, after any number of good ones |
| HttpLines.RequestLineMeans | lib/HttpServer/src/SNFHttpServer/HttpRequestParser.cpp:89-144 | three words in any white space give method, path and query, and only the two protocol versions go on |
| HttpLines.EveryRequestLine | lib/HttpServer/src/SNFHttpServer/HttpRequestParser.cpp:89-134 | every first line is one of those with at most two words or one of those with three |
| HttpLines.QueryIsRead | lib/HttpServer/src/SNFHttpServer/HttpRequestParser.cpp:113-129 | the parameters have exactly the keys given, each with its last value, empty without an equals sign; an empty last parameter is none |
| HttpLines.HeaderIsTaken | lib/HttpServer/src/SNFHttpServer/HttpRequestParser.cpp:198-205 | name and value of a header line are what stands before the first colon and what stands after it without blanks at its ends |
| HttpLines.EveryHeaderLine | lib/HttpServer/src/SNFHttpServer/HttpRequestParser.cpp:189-205 | every line with a colon is such a header line |
| HttpLines.SetFieldMeans | lib/HttpServer/src/SNFHttpServer/HttpRequestParser.cpp:205 | assigning to a header keeps the map sorted and every pair with another name |
| HttpLines.GetFieldMeans | lib/HttpServer/src/SNFHttpServer/HttpRequest.cpp:9-23 | a look-up yields the first field whose name is the same up to case, or nothing when there is none |
| Text.DecimalReadsBack | lib/HttpServer/src/SNFHttpServer/HttpRequestParser.cpp:278-288 | the decimal text of every 64-bit number is read back as that number |
| HttpChunks.HexReadsBack | lib/HttpServer/src/SNFHttpServer/HttpRequestParser.cpp:247-255 | the hexadecimal text of every 64-bit length is read back as that length |
| HttpChunks.CutAfterSizeLine | lib/HttpServer/src/SNFHttpServer/HttpRequestParser.cpp:238-274 | any chunk whose data is not a number decodes uncut and fails when cut after its size line |
| HttpChunks.ForbiddenCutExample | lib/HttpServer/src/SNFHttpServer/HttpRequestParser.cpp:238-274 | the one-byte chunk z is such a chunk |
| HttpParsing.HttpRequestParser.FeedBytes | lib/HttpServer/src/SNFHttpServer/HttpRequestParser.cpp:16-37 | consuming the buffer in place computes the function the claims above are about |
| HttpParsing.HttpRequestParser.ReadHeaders | lib/HttpServer/src/SNFHttpServer/HttpRequestParser.cpp:147-207 | the header loop, in place: complete lines only, up to the blank line or an error |
| HttpParsing.HttpRequestParser.ReadSized | lib/HttpServer/src/SNFHttpServer/HttpRequestParser.cpp:209-233 | takes what is there, at most what the length still asks for |
| HttpParsing.HttpRequestParser.ReadChunks | lib/HttpServer/src/SNFHttpServer/HttpRequestParser.cpp:238-274 | the chunk loop, turn by turn |
| HttpParsing.HttpRequestParser.Parse | lib/HttpServer/src/SNFHttpServer/HttpRequestParser.cpp:59-78 | returns a complete request and resets; an incomplete parser is left alone |
| IniRoundTrip.LoadPrintLoad | lib/Core/src/SNFCore/IniParser.cpp:117-187 | for every text that loads, loading its printed form gives the same sections, order and values |
| IniRoundTrip.RoundTrip | lib/Core/src/SNFCore/IniParser.cpp:219-255 | every well-formed store is what its printed form loads as, an emptied global section aside |
| IniRoundTrip.RoundTripExactly | lib/Core/src/SNFCore/IniParser.cpp:15-45 | exactly the stores with well-formed names and values survive printing and loading |
| IniRoundTrip.LoadedIsWellFormed | lib/Core/src/SNFCore/IniParser.cpp:117-187 | whatever loads is well formed, with maps and order vectors in agreement |
| IniRoundTrip.SetValueWellFormed | lib/Core/src/SNFCore/IniParser.cpp:354-361 | stores built from well-formed names and values stay well formed |
| IniRoundTrip.PaddedValueIsLost | lib/Core/src/SNFCore/IniParser.cpp:354-361 | a value with leading space does not survive |
| IniMeaning.LoadMeansLines | lib/Core/src/SNFCore/IniParser.cpp:117-187 | a text fails at its first bad line with its number and kind; otherwise the store has the sections in the order of their first headers, in each the keys of all its parts in the order of first entries with their last values, and the keys before any header as global ones |
| IniMeaning.NothingVisible | lib/Core/src/SNFCore/IniParser.cpp:134-137 | a line of white space says nothing |
| IniMeaning.LineForms | lib/Core/src/SNFCore/IniParser.cpp:134-169 | comment lines say nothing; an unclosed header, a line without an equals sign and one without a key are bad |
| IniMeaning.HeaderForm | lib/Core/src/SNFCore/IniParser.cpp:139-149 | a header names what stands between its brackets, without white space |
| IniMeaning.EmptyHeaderForm | lib/Core/src/SNFCore/IniParser.cpp:145-149 | a header with nothing but white space between its brackets is bad |
| IniMeaning.EntryForm | lib/Core/src/SNFCore/IniParser.cpp:158-169 | any other line sets what stands before its first equals sign to what stands after it up to the first mark that is first or follows white space, both without white space around them |
| IniMeaning.CommentIsCut | lib/Core/src/SNFCore/IniParser.cpp:37-47 | a mark elsewhere in a value does not cut it |
| IniStore.SetValueValid | lib/Core/src/SNFCore/IniParser.cpp:354-361 | maps and order vectors stay in agreement |
| IniStore.SetValueSets | lib/Core/src/SNFCore/IniParser.cpp:354-361 | exactly this key of this section gets the value, in its old place or last; a new section goes last; every other key and section keeps value and order |
| IniStore.RemoveKeyRemoves | lib/Core/src/SNFCore/IniParser.cpp:365-386 | exactly this key goes; a named section goes exactly if it was its last key; everything else keeps value and order |
| IniStore.RemoveSectionRemoves | lib/Core/src/SNFCore/IniParser.cpp:388-402 | exactly this section goes; the others keep contents and order |
| IniStore.RemoveKeyValid | lib/Core/src/SNFCore/IniParser.cpp:365-386 | likewise when a key goes, with or without its section |
| IniStore.DropSectionValid | lib/Core/src/SNFCore/IniParser.cpp:388-402 | likewise when a section goes |
| IniStore.IniParser.LoadFromString | lib/Core/src/SNFCore/IniParser.cpp:117-187 | installs the loaded store, or reports the first bad line and its kind and keeps the old store |
| IniStore.IniParser.ToString | lib/Core/src/SNFCore/IniParser.cpp:219-255 | the printed form, global keys first, sections in order separated by blank lines |
| IniStore.IniParser.SetValue | lib/Core/src/SNFCore/IniParser.cpp:354-361 | that change, in place, and agreement is kept |
| IniStore.IniParser.Remove | lib/Core/src/SNFCore/IniParser.cpp:365-386 | that change, in place, and it says whether the key was there |
| IniStore.IniParser.RemoveSection | lib/Core/src/SNFCore/IniParser.cpp:388-402 | that change, in place, and it says whether the section was there |
| TraceRing.DrainedAndStoredIsPushed | lib/Profiler/src/TraceBuffer.cpp:23-40 | under every interleaving and for any capacity, drained followed by stored is what was pushed, whole and in order, and at most capacity - 1 events are held |
| TraceRing.NoUnreadSlotOverwritten | lib/Profiler/src/TraceBuffer.cpp:23-30 | the producer never writes a slot whose event is not given back, nor the slot being read |
| TraceRing.PushRefusedExactly | lib/Profiler/src/TraceBuffer.cpp:24-26 | a push is given up exactly when it finds capacity - 1 events that are not given back |
| TraceRing.PushArrives | lib/Profiler/src/TraceBuffer.cpp:23-30 | a push that begins with room is, when over, the last event pushed, over every run |
| TraceRing.DrainTakesAll | lib/Profiler/src/TraceBuffer.cpp:32-40 | a drain that is over has taken out and given back every event pushed before it loaded the head, over every run |
| TraceRing.NeitherWaits | lib/Profiler/src/TraceBuffer.cpp:23-40 | producer and consumer always have a next step |
| TraceRing.ReadsAreWhole | lib/Profiler/src/TraceBuffer.cpp:32-40 | the consumer always reads the next event pushed, never a torn one |
| TraceBuffers.TraceBuffer.Push | lib/Profiler/src/TraceBuffer.cpp:23-30 | appends, refused exactly when one slot is left |
| TraceBuffers.TraceBuffer.Drain | lib/Profiler/src/TraceBuffer.cpp:32-40 | appends the whole contents to the output and empties the ring |
| SqlSubmit.SubmitShowsTheSame | lib/Database/src/SNFDatabase/SqlTableModel.cpp:93-173 | for every table, order and pattern of failures each cell shows what it showed |
| SqlSubmit.PendingIsUncommitted | lib/Database/src/SNFDatabase/SqlTableModel.cpp:118-165 | what stays pending is exactly the row whose UPDATE failed and the rows after it, with all their edits |
| SqlSubmit.StopsAtFirstRefused | lib/Database/src/SNFDatabase/SqlTableModel.cpp:118-165 | rows are written up to the first whose UPDATE does not go through, and submit succeeds exactly if there is none: one that is refused, has a literal the database cannot read, or sets an enforced key to NULL or to another row's key |
| SqlSubmit.UpdateAgreesExactly | lib/Database/src/SNFDatabase/SqlTableModel.cpp:142-161 | for any table, keyed or not, cache and database agree after an UPDATE if and only if its edits of the row are kept by their literals where it hits the row, say what is stored already where the key is NULL, and change no other row with the same key |
| SqlSubmit.SubmitAgreesExactly | lib/Database/src/SNFDatabase/SqlTableModel.cpp:93-173 | with a key that the database enforces and the cache can name, after every submit the key is a key and the cache holds what the database holds if and only if every committed edit is kept by its literal, key edits included |
| SqlSubmit.ColorIsLost | lib/Database/src/SNFDatabase/SqlTableModel.cpp:343-346 | a colour is accepted, reported as saved and shown, and the database holds NULL |
| SqlSubmit.NullKeyIsLost | lib/Database/src/SNFDatabase/SqlTableModel.cpp:142-161 | without an enforced key, submit reports a row whose key is NULL as saved and nothing is stored |
| SqlLiterals.LiteralKeepsExactly | lib/Database/src/SNFDatabase/SqlTableModel.cpp:317-347 | the database reads a literal as the value shown for NULL, booleans as 0 and 1, integers and text always, a double exactly if its printed text determines it, a colour never |
| SqlLiterals.QuotedReadsBack | lib/Database/src/SNFDatabase/SqlTableModel.cpp:331-342 | the SQL literal of any text is read back as that text and ends where it ends |
| SqlLiterals.IntegerReadsBack | lib/Database/src/SNFDatabase/SqlTableModel.cpp:324-325 | so is the literal of every integer |
| SqlTables.SqlTableModel.Select | lib/Database/src/SNFDatabase/SqlTableModel.cpp:49-91 | after a select the cache holds what the database holds and nothing is pending; a failing one changes nothing |
| SqlTables.SqlTableModel.Submit | lib/Database/src/SNFDatabase/SqlTableModel.cpp:93-173 | with pending edits, a table name and a key column it runs the loop that the claims above are about; otherwise nothing changes, and it succeeds exactly if nothing was pending |
| SqlTables.SqlTableModel.SubmitAll | lib/Database/src/SNFDatabase/SqlTableModel.cpp:118-165 | the loop over the pending rows, in place |
| SqlTables.SqlTableModel.WriteCells | lib/Database/src/SNFDatabase/SqlTableModel.cpp:157-161 | the committed values go into the cached row, in any order of the columns |
| SqlTables.SqlTableModel.SetData | lib/Database/src/SNFDatabase/SqlTableModel.cpp:283-303 | the edited cell shows the value and becomes pending unless it showed it already; no other cell and no other pending edit changes; refused exactly outside the table |
| SqlTables.SqlTableModel.Revert | lib/Database/src/SNFDatabase/SqlTableModel.cpp:175-193 | every cell shows its cached value again |
| SqlTables.SqlTableModel.PrimaryKeyColumnIndex | lib/Database/src/SNFDatabase/SqlTableModel.cpp:349-360 | the first column of the given name, column 0 when none is given, or none |

## Left out

- `Node::run` and the per-tick deletes of marked children: the loop erases from the vector it iterates over.
- That a node is always destroyed inside its owner: nothing stops the migration of a node that is already in an owner's delete list.
- A foreign thread that acquires a strand, or queues a drain, between the last worker's exit and the end of shutdown: no claim that such strands are retired.
- The set of root nodes a strand destroys at shutdown: in `PoolProtocol` any nodes may be enqueued then. Registries of roots are in `NodeTree`.
- Destruction of a timer, and a migration seen half way: a migration is one step of `TimerProtocol` and `Delivery`, and one method call of `NodeForest`.
- The threads of the program other than workers are a fixed set in `PoolProtocol`; nodes join a strand only while it is reserved or has nodes.
- IoProtocol.NeverDeaf: assumes that callbacks return and that arming an open descriptor succeeds; the strand of a watch accepts posts until the service has stopped, as the order of `TaskPool::shutdown` ensures.
- Strands.Strand.RunPendingDeletes: for destructors that create no nodes, as termination needs.
- HttpChunks.CutIndependentExactly: for buffers shorter than 2^64 bytes, which no string exceeds; the wrap of `chunkSize + 2` is modelled and part of the equivalence.
- HttpChunks.HttpDecodesRequest: for chunks shorter than 2^64 - 2 bytes.
- HttpRequests.SizedRequestDecodes: fields whose names are Content-Length up to case must agree, and so for Transfer-Encoding; which one counts otherwise is in `HttpLines.GetFieldMeans` (the first in the order of the map).
- PoolReturn.NoStrandIsLost: for nodes removed while a thread is inside their strand; `RemovedOutsideIsLost` shows what happens otherwise.
- `Direct` connections and pruning of dead connections: a direct call runs in the emitting thread by definition.
- The slot list of a `Signal` and the lifetime blocks have no class of their own: `Delivery` models them on values, one step per atomic access, so sharing of closures is not captured.
- Names of SQL tables and columns in statements, error texts and the signals of the table model; doubles that are no real numbers; comparisons between values of different types, which hold for no row here.
- SqlSubmit.SubmitAgreesExactly: the text the stream prints for a double and the way the database reads it are parameters, so for doubles the condition speaks of that text.
- Number and boolean getters of the INI store, files, and the text of its error messages; the error kinds and line numbers are modelled.
- EventLoop descriptor watches, `ThreadPool`, `Process`, `EpollPoller`, sockets, `HttpServer`, drivers, JSON wrappers, widgets: system calls, foreign libraries or user interface.
- Memory ordering weaker than sequential consistency, wrap-around of 64-bit counters, allocation failure.
- Node addresses: nodes, timers and registrations have unique numbers, so the reuse of an address is abstracted; descriptors are reused freely.
