# Job scheduler: verified model

A Dafny model of the distributed job scheduler in this repository: publishing
into a bounded store and a waiting queue, ticks that hand due tasks to leased
executors, one runner per executor with replay windows and a two-phase
shutdown, the dispatcher's snapshot cache, the dispatch rate limiter, the
dependency graph, and lease eviction.

Check everything with `dafny verify dfyconfig.toml`.

## How it is built

Every object of the source whose methods change its fields is a class with
those fields (`WaitingQueue.Queue`, `Limiter.Limiter`, `TaskStore.Ring` and
`Store`, `Deps.Graph`, `LeaseTable.Manager`, `TaskRegistry.Registry`,
`ExecManager.Manager`, `Heartbeat.Evictor`, `RunnerSections.Runner`, `Scheduler.Broker` and
`Dispatcher`, `Snapshot.Dispatcher` for the cache). Their methods are proved
against functions on plain states; what the source promises is then proved of
those functions over all runs.

What is concurrent in the source is a system of atomic steps over a plain
state: one step per critical section, every interleaving allowed.

| module | file | what it is |
|---|---|---|
| Model, Clock | Model.dfy | domain types, scheduling windows |
| WaitingQueue | Queue.dfy | the bounded binary-heap queue |
| Limiter | Limiter.dfy | the token bucket |
| TaskStore | Store.dfy | ring, store, cursor, marks |
| Deps | Deps.dfy | dependency graph and reference counts |
| LeaseTable | Lease.dfy | executor leases and slots |
| TaskRegistry | Registry.dfy | live tasks and group versions |
| Snapshot, SnapshotSteps | Snapshot.dfy | the snapshot cache, uninterrupted and interleaved |
| RunnerSteps, RunnerSections | RunnerSteps.dfy, RunnerSections.dfy | the runner as a step system, and as an object whose sections are those steps |
| Pipeline | Pipeline.dfy | publishing and ticking as a step system |
| Scheduler | Scheduler.dfy | Broker.Publish and Dispatcher.Tick, shown to be runs of the pipeline |
| Delivery | Delivery.dfy | the pipeline and the runners as one step system |
| ExecManager, Heartbeat, Eviction | Eviction.dfy | the runner table, the evictor, and the eviction protocol with registrations in between |

## Main results

- Runner: in every interleaving what was sent equals what was handled, then at
  most one instance in hand or dropped on shutdown, then the channel
  (`RunnerSteps.SentIsConserved`); per replay window everything replayed enters the
  channel before everything buffered, and the buffered instances keep their
  order (`RunnerSteps.ReplayedPrecedeBuffered`); after shutdown's wait nothing runs
  again (`RunnerSteps.NothingRunsAfterDone`), and from the moment it is closed
  nothing is taken up (`RunnerSteps.ClosedBeginsNothing`).
- Dedupe: the in-flight set is exactly the distinct keys of what a runner
  carries, whenever its lock is free, if and only if nothing was sent on the
  slow path and nothing was sent with the lock whose key was in flight
  (`RunnerSteps.InflightIsExact`).
- End to end: an instance accepted by a runner is, exactly once, sent, waiting,
  buffered or given up (`RunnerSteps.AcceptedIsConserved`); with publishers,
  dispatcher and any number of runners in one system, no sequence is executed
  twice in any interleaving (`Delivery.ExecutedAtMostOnce`).
- Requeue: a drained task can still be lost if and only if what is going to be
  put back, what is queued, and the coming enqueues exceed the bound
  (`Pipeline.DrainedTaskCanBeLostIff`).
- Snapshot cache: with mutations between any two registry reads, and calls on
  other groups at any moment, a hit is exactly a recompute at the moment its
  version was read as long as no two calls on its group overlap
  (`SnapshotSteps.SerialHitsAreExact`). The other side: while its version
  stands, a fill can still go wrong if and only if it has an id left to check
  (`SnapshotSteps.FillCanTearIffStillReading`), and then a caller overlapping
  it can be served the torn list (`SnapshotSteps.OverlapWithFillServesTorn`).
- Pipeline: every retained task is in exactly one place and is handed to a
  runner at most once, in every interleaving of publishers with the dispatcher
  (`Pipeline.EachTaskIsInOnePlace`, `Pipeline.HandedOffAtMostOnce`).
- Registry and leases against their history: a group lists its ids in the
  order they were registered (`TaskRegistry.GroupIsSurvivors`), Get finds the
  last Register with the last state (`TaskRegistry.GetIsLastRegistered`), and a
  held lease runs until its last grant or renewal said
  (`LeaseTable.LeaseRunsUntil`).
- Tick: every outcome is the answer of the limiter and of a whole Enqueue at the
  runner of one recorded executor (`Scheduler.Dispatcher.Tick`), so a due task
  reaches a free runner (`Scheduler.DueTaskIsHandedOff`).
- Limiter: a call is granted if and only if it fits the budget counted from
  each earlier call of its executor (`Limiter.GrantedIffWithinEveryBudget`).
- Eviction: with registrations and runner steps between the parts of an
  eviction, every runner no longer mapped is quiet, so an old and a new runner
  of one executor never execute together (`Eviction.UnmappedRunnersAreQuiet`,
  `Eviction.OneRunnerExecutes`), as long as none falls into the one gap named
  below; and an executor holds a slot exactly when it is mapped to an open
  runner (`Eviction.SlotMeansOpenRunner`).

## Where the code does less than its comments say

Each of these is kept as the code has it, with a lemma that shows the promise
failing and one that says when it does hold.

- A cache hit can be torn when two calls of `ordered` on one group overlap: the
  version is read before the mutex is taken
  (`SnapshotSteps.OverlappingHitCanBeTorn`, and from every such state
  `SnapshotSteps.OverlapWithFillServesTorn`,
  `SnapshotSteps.WaiterCanBeServedTorn`). It cannot when the hit's version was
  read after its entry was stored, nor when the version still stood as the entry was stored
  (`SnapshotSteps.HitsAreCoherent`). The cache also relies on an id in the
  table never being registered under another group
  (`TaskRegistry.MovedIdChangesOldGroupSilently`).
- The runner's slow path gives up its key while it waits, so two instances
  with one key can be in the runner together, and a key can stay in flight for
  good with nothing behind it (`RunnerSteps.SlowPathAdmitsDuplicates`,
  `RunnerSteps.SlowPathCanStrandKey`); ReplayWrite does not check keys at all
  (`RunnerSteps.ReplayAdmitsDuplicates`). The in-flight set is exact if and only
  if there is no slow send and no locked send of a key in flight
  (`RunnerSteps.InflightIsExact`); a slow send shows at once
  (`RunnerSteps.SlowSendBreaksKeys`), a locked one as soon as the lock is free.
- A tick stops at an overdue task as well as at one that is not due yet, so its
  early exit equals a filter by the window if and only if nothing drained is
  overdue or nothing is due in the window (`Pipeline.EarlyExitIsFilter`).
- A task whose dispatch failed leaves the queue and can be fetched again from
  the store only while no task of a higher sequence was handed off; otherwise
  the cursor has passed it and it reads as committed
  (`Pipeline.PendingIffAboveEveryHandOff`, `Pipeline.FailedTaskCanReadAsCommitted`).
- `Refs` over-counts exactly by the references that deleted, still waiting
  tasks left behind (`Deps.DeleteLeaksReferences`,
  `Deps.RefsAreInDegreePlusLeaks`).
- A requeue ignores a full queue: the tasks that find no room are lost
  (`Pipeline.RequeueCanLoseTask`). At any point of a tick this can still happen
  if and only if what the tick is going to put back, what is queued, and the
  enqueues of publishers exceed the bound (`Pipeline.DrainedTaskCanBeLostIff`).
- `Queue.Snapshot` is in heap order, not in due order: three enqueues can leave
  it unsorted (`WaitingQueue.SnapshotNeedNotBeSorted`). Heap order alone makes
  it sorted up to two tasks (`WaitingQueue.SmallHeapsAreSorted`) and for no
  larger number (`WaitingQueue.LargerHeapsNeedNotBeSorted`).
- `Executors` of the lease table lists evicted executors too
  (`LeaseTable.ExecutorsIncludeEvicted`); it lists the holders of a slot if and
  only if no recorded lease is evicted
  (`LeaseTable.ExecutorsAreHoldersIffNoneEvicted`).
- An evicted lease stays recorded, so each sweep evicts it again and finds no
  runner. A registration that adds one between that lookup and the removal has
  it unmapped without a shutdown, whatever happens in between
  (`Eviction.GapStrandsRunner`), and
  after the next registration two runners of one executor can execute at once
  (`Eviction.TwoRunnersCanExecute`). Registrations at any other moment are
  harmless for this.
- A registration that overlaps an eviction of the same executor leaves it with
  a slot and no runner, in whatever order their steps go on
  (`Eviction.AnyOverlapLosesRunner`); without overlap it has both or neither
  (`Eviction.SlotMeansOpenRunner`).

## Model

| member | source | states |
|---|---|---|
| Clock.WindowsPartitionTime | internal/clock/window.go:12-20 | the windows of a positive interval partition time: a due time lies in the window of now exactly when it has that window itself; a non-positive interval gives an empty window |
| Clock.WindowIsAligned | internal/clock/window.go:12-15 | the window of now begins at a multiple of the interval, is one interval long and contains now |
| WaitingQueue.OrderLaws | internal/queue/heap.go:10-15 | due time then id is a total preorder whose only ties agree on both |
| WaitingQueue.IdLessIsLexicographic | internal/queue/heap.go:12 | one id is before another exactly when, where they first differ, it ends or has the smaller character |
| WaitingQueue.EarlierDueThenSmallerId | internal/queue/heap.go:10-15 | a task comes first exactly when it is due earlier, or due together with a lexicographically smaller id |
| WaitingQueue.SortedArrangementIsUnique | internal/queue/heap.go:10-15 | without ties a bag of tasks has one sorted arrangement, whatever the heap layout |
| WaitingQueue.TiesHaveTwoArrangements | internal/queue/heap.go:10-15 | two different tasks with the same due time and id can come out in either order |
| WaitingQueue.RootIsLeast | internal/queue/queue.go:52-59 | the first element of a heap comes no later than any other |
| WaitingQueue.SmallHeapsAreSorted | internal/queue/queue.go:68-75 | heap order sorts at most two tasks |
| WaitingQueue.LargerHeapsNeedNotBeSorted | internal/queue/queue.go:68-75 | of every size from three on there is a heap that is not sorted |
| WaitingQueue.Queue.Snapshot | internal/queue/queue.go:68-75 | a copy of the heap with a least task first, sorted up to two tasks |
| WaitingQueue.SnapshotNeedNotBeSorted | internal/queue/queue.go:68-75 | a new queue whose snapshot is not in due order after three enqueues |
| WaitingQueue.Queue.constructor | internal/queue/queue.go:23-28 | a new queue is empty and its limit is at least one |
| WaitingQueue.Queue.Swap | internal/queue/heap.go:17 | exchanges two elements and keeps the bag |
| WaitingQueue.Queue.Up | internal/queue/queue.go:37 | sifting the last element up restores the heap and keeps the bag |
| WaitingQueue.Queue.Down | internal/queue/queue.go:48 | sifting down within a prefix restores the heap there, keeps the bag and leaves the rest |
| WaitingQueue.Queue.Push | internal/queue/heap.go:19-21 | adds one task to the bag and keeps the heap; a task that does not come before its parent stays last |
| WaitingQueue.Queue.Pop | internal/queue/heap.go:23-29 | takes a least task out of the bag and keeps the heap |
| WaitingQueue.Queue.Enqueue | internal/queue/queue.go:31-39 | refuses exactly when full and then changes nothing; otherwise the task joins the bag |
| WaitingQueue.Queue.Next | internal/queue/queue.go:42-49 | removes a least task under (DueAt, ID); nothing exactly when empty |
| WaitingQueue.Queue.Peek | internal/queue/queue.go:52-59 | reports a least task and changes nothing |
| WaitingQueue.Queue.Drain | internal/queue/queue.go:82-93 | empties the queue and returns a sorted arrangement of all it held |
| Limiter.Limiter.constructor | internal/flow/limiter.go:24-33 | an invalid policy is replaced by the default one; no bucket exists yet |
| Limiter.Limiter.Allow | internal/flow/limiter.go:36-58 | one call is one step of the bucket model |
| Limiter.Limiter.Credits | internal/flow/limiter.go:61-65 | reports the tokens last stored, zero for an unknown executor |
| Limiter.BucketIsLeastLevel | internal/flow/limiter.go:36-58 | after any calls the bucket is the least of the levels counted from each call of its executor |
| Limiter.GrantedIffWithinEveryBudget | internal/flow/limiter.go:36-58 | a call is granted if and only if, from every call of its executor up to itself, the grants since then plus one fit burst plus rate times the time passed |
| Limiter.TokensStayInRange | internal/flow/limiter.go:45-57 | tokens are never negative and never exceed the burst |
| Limiter.FreshBucketGrants | internal/flow/limiter.go:42-44 | the first call of an executor is granted at any time |
| Limiter.IntervalBound | internal/flow/limiter.go:36-58 | any closed interval of time admits at most burst plus rate times its length calls of one executor |
| TaskStore.Ring.constructor | internal/store/ring.go:14-22 | a new ring is empty with a capacity of at least one |
| TaskStore.Ring.Push | internal/store/ring.go:25-32 | refuses exactly when full; otherwise the task becomes the last of the contents |
| TaskStore.Ring.Get | internal/store/ring.go:35-43 | finds a retained task with the sequence, or none has it |
| TaskStore.Ring.At | internal/store/ring.go:46-52 | the i-th task visited is the i-th in insertion order |
| TaskStore.DistinctSlots | internal/store/ring.go:29 | offsets below the capacity land in different slots |
| TaskStore.BetweenIsExact | internal/store/store.go:71-96 | a query by bounds gives exactly the retained tasks within them, in strictly increasing sequence |
| TaskStore.SinceThenPendingIsLog | internal/store/store.go:71-96 | everything committed followed by everything pending is the whole log |
| TaskStore.RunIsBoundedLog | internal/store/store.go:40-62 | any run of appends, commits and marks keeps the first capacity appends, the i-th with sequence i+1, while failed appends burn sequences |
| TaskStore.RunKeepsCursorAndMarks | internal/store/store.go:52-62 | over any run the cursor is the highest sequence committed once it was appended, and a sequence is marked exactly when its last mark was set |
| TaskStore.RetryableIsExact | internal/store/store.go:177-190 | a task is retryable exactly when it is retained, above the cursor and unmarked |
| TaskStore.MarkAllIsExact | internal/store/store.go:122-135 | a batch sets or clears exactly the listed marks up to the last sequence |
| TaskStore.FoundIsNext | internal/store/ring.go:35-43 | a scan for a sequence agrees with indexing |
| TaskStore.Store.constructor | internal/store/store.go:31-37 | a new store is empty |
| TaskStore.Store.Append | internal/store/store.go:40-49 | appends with the next sequence, or fails when full and burns it |
| TaskStore.Store.Commit | internal/store/store.go:52-62 | refuses a sequence never appended; otherwise the cursor only moves forward |
| TaskStore.Store.MarkDispatched | internal/store/store.go:106-117 | sets or clears one mark, never beyond the last sequence |
| TaskStore.Store.MarkDispatchedBatch | internal/store/store.go:122-135 | marks as a fold of single marks |
| TaskStore.Store.Since | internal/store/store.go:72-82 | exactly the retained tasks above the bound and up to the cursor |
| TaskStore.Store.Pending | internal/store/store.go:85-96 | exactly the retained tasks above the cursor |
| TaskStore.Store.UndispatchedPending | internal/store/store.go:177-190 | counts the pending tasks without a mark |
| TaskStore.Store.HighestPending | internal/store/store.go:193-204 | the last retained sequence if it is above the cursor, else zero |
| Deps.Graph.constructor | internal/deps/deps.go:23-28 | a new graph is empty |
| Deps.Graph.Add | internal/deps/deps.go:31-49 | adds the non-empty, not yet present dependencies one by one |
| Deps.Graph.ReleaseNodes | internal/deps/refcount.go:20-33 | releases one dependency at every node in any order and counts the nodes that waited for it |
| Deps.Graph.Satisfy | internal/deps/deps.go:52-64 | releases the dependency everywhere and drops its count |
| Deps.Graph.Delete | internal/deps/deps.go:67-74 | drops the node and every edge to it, reporting whether it existed |
| Deps.Graph.Ready | internal/deps/deps.go:77-82 | an unknown task, or one with no pending dependency |
| Deps.Graph.EdgeCount | internal/deps/refcount.go:7-15 | the sum of the pending counters is the number of edges |
| Deps.AddEdgesExact | internal/deps/deps.go:39-48 | adds exactly the edges asked for and raises counts as much as in-degrees |
| Deps.PendingMatchesHistory | internal/deps/deps.go:31-74 | after any history a task waits for exactly the ids whose last Add to it is later than everything that clears them, and its counter is the size of that set |
| Deps.ReadyIffNothingOwed | internal/deps/deps.go:77-82 | a task is ready exactly when its history owes it nothing |
| Deps.RefsAreInDegreePlusLeaks | internal/deps/deps.go:31-89 | Refs is the in-degree plus exactly the references leaked by deleting waiting tasks |
| Deps.DeleteLeaksReferences | internal/deps/deps.go:66-74 | a run after which Refs exceeds the in-degree |
| LeaseTable.Manager.constructor | internal/lease/lease.go:25-31 | a new table is empty |
| LeaseTable.Manager.Acquire | internal/lease/lease.go:34-50 | keeps a held slot, else grants the next one |
| LeaseTable.Manager.Renew | internal/lease/lease.go:54-67 | extends a lease to now plus the timeout unless it is missing, evicted or idle |
| LeaseTable.Manager.Evict | internal/lease/lease.go:70-81 | evicts a recorded lease and frees its slot |
| LeaseTable.Manager.ExpiredLeases | internal/lease/lease.go:118-128 | exactly the recorded executors whose lease has lapsed, each once |
| LeaseTable.Manager.Executors | internal/lease/lease.go:107-115 | exactly the recorded executors, each once |
| LeaseTable.RunIsWellFormed | internal/lease/lease.go:34-81 | in every run an executor has a slot exactly when its lease is held, the same one, and no two recorded leases share a slot |
| LeaseTable.SlotsNumberTheGrants | internal/lease/lease.go:40-49 | the k-th fresh grant is slot k and a recorded lease carries its executor's last one |
| LeaseTable.EvictedStaysEvicted | internal/lease/lease.go:52-81 | without a new Acquire an evicted lease never changes, and it is held again only with a larger slot |
| LeaseTable.LeaseRunsUntil | internal/lease/lease.go:34-81 | over any run an executor holds a slot exactly while no Evict follows its last Acquire, and its lease expires when the last of its grant and its renewals since said |
| LeaseTable.LapsesAfterTimeout | internal/lease/lease.go:54-67 | a held lease lapses once the timeout since its grant or last renewal is over, and not before |
| LeaseTable.AnswersAreExact | internal/lease/lease.go:34-81 | Acquire answers the slot recorded from then on, Renew whether the lease is held, Evict whether one was ever acquired |
| LeaseTable.ExecutorsAreHoldersIffNoneEvicted | internal/lease/lease.go:106-115 | in every run the recorded executors are the holders of a slot exactly while no recorded lease is evicted |
| LeaseTable.ExecutorsIncludeEvicted | internal/lease/lease.go:106-115 | an evicted executor is still listed |
| TaskRegistry.Registry.constructor | internal/registry/registry.go:30-37 | a new registry is empty |
| TaskRegistry.Registry.Register | internal/registry/registry.go:41-54 | records the task, its incarnation, its place in the group and the new version |
| TaskRegistry.Registry.Delete | internal/registry/registry.go:57-75 | removes the id everywhere in its group and raises the version |
| TaskRegistry.Registry.SetState | internal/registry/registry.go:86-94 | changes the state of a known task and raises its group's version |
| TaskRegistry.Registry.Version | internal/registry/registry.go:97-101 | the group's version, zero when unknown |
| TaskRegistry.Registry.GroupTasks | internal/registry/registry.go:119-125 | the ids of the group in order |
| TaskRegistry.Registry.Get | internal/registry/registry.go:78-83 | the task of an id, if any |
| TaskRegistry.Registry.Alive | internal/registry/registry.go:111-116 | known and not removed |
| TaskRegistry.StepRaisesVersion | internal/registry/registry.go:41-94 | when ids keep their group, a version never falls and while it stays the group stays |
| TaskRegistry.GetIsLastRegistered | internal/registry/registry.go:78-83 | over any run Get finds the task of the last Register not deleted since, in the last state set since, and nothing if there is none |
| TaskRegistry.TaskSinceIsUnique | internal/registry/registry.go:78-83 | a history names at most one such task |
| TaskRegistry.GroupIsSurvivors | internal/registry/registry.go:41-75 | over any run that keeps ids in their groups a group lists the ids registered in it and not deleted since, in the order they were registered |
| TaskRegistry.VersionCountsTouches | internal/registry/registry.go:97-101 | a version is the number of operations that changed something in the group |
| TaskRegistry.IncarnationCountsLives | internal/registry/registry.go:44-50 | an incarnation counts the lives of an id since it was last unknown |
| TaskRegistry.MovedIdChangesOldGroupSilently | internal/registry/registry.go:41-54 | an id moved to another group changes its old group without a version change |
| Snapshot.RecomputeIsFilter | internal/dispatch/dispatch.go:217-233 | the pass returns the live tasks of the group in order if they are in due order, else nothing |
| Snapshot.SameGroupRecomputesAlike | internal/dispatch/dispatch.go:217-233 | a recompute depends on the group alone |
| Snapshot.MutationKeepsCoherent | internal/dispatch/dispatch.go:206-234 | no mutation makes an entry stamped with the current version wrong |
| Snapshot.Dispatcher.Ordered | internal/dispatch/dispatch.go:206-234 | hit or miss, the answer is a recompute, is cached under the current version, and is counted |
| SnapshotSteps.StepKeepsInv | internal/dispatch/dispatch.go:206-234 | a pass in progress stays on course while its version stands |
| SnapshotSteps.HitsAreCoherent | internal/dispatch/dispatch.go:206-234 | in every interleaving a hit of an untorn entry is a recompute at its version read, and a hit read after the store is of an untorn entry |
| SnapshotSteps.SerialHitsAreExact | internal/dispatch/dispatch.go:206-234 | when calls on one group do not overlap every hit is a recompute at its version read, whatever happens on other groups |
| SnapshotSteps.FillCanTearIffStillReading | internal/dispatch/dispatch.go:217-233 | while its version stands, some continuation makes a fill store something else than a recompute at its version read if and only if it has not checked its last id |
| SnapshotSteps.OverlapWithFillServesTorn | internal/dispatch/dispatch.go:206-216 | from every state where a caller waits with the standing version of a fill that still has ids to check, a continuation serves it a list that is no recompute |
| SnapshotSteps.WaiterCanBeServedTorn | internal/dispatch/dispatch.go:206-216 | the same from every state with the mutex free where a caller waits with the standing version and no list is cached for it |
| SnapshotSteps.OverlappingHitCanBeTorn | internal/dispatch/dispatch.go:206-216 | a whole run of two overlapping calls whose hit is no recompute |
| RunnerSteps.SentIsConserved | internal/exec/runner.go:72-94 | sent equals handled, then the one instance in hand or dropped, then the bounded channel |
| RunnerSteps.ReplayedPrecedeBuffered | internal/exec/runner.go:97-133 | per window replayed instances precede buffered ones, buffered ones keep their order and are all accounted for, and the buffer is empty outside a window |
| RunnerSteps.NothingRunsAfterDone | internal/exec/runner.go:142-155 | once the wait is over no handler runs, starts or completes in any continuation |
| RunnerSteps.ClosedBeginsNothing | internal/exec/runner.go:196-204 | from any closed state, however far the shutdown has come, no continuation takes up work, and at most the instance in work is finished |
| RunnerSteps.ClosedLetsNothingIn | internal/exec/runner.go:57-118 | nor is anything accepted: what is still sent waited, was buffered, or was being sent |
| RunnerSteps.OpenRunnerTakes | internal/exec/runner.go:57-81 | an open runner takes every Enqueue with a free key, behind what was sent, behind what was buffered, or as a waiter |
| RunnerSteps.AcceptedIsConserved | internal/exec/runner.go:57-133 | over any run an instance was accepted as often as it was sent, waits, is buffered or in the flush, is in the hand of a replay write, or was given up |
| Delivery.ExecutionsWereAccepted | internal/exec/runner.go:57-94 | a runner executes an instance no more often than it accepted it and did not turn it down later |
| Delivery.StepKeepsInv | internal/dispatch/dispatch.go:241-262 | every step of publishers, dispatcher and runners keeps whatever the runners took made for distinct hand-offs |
| Delivery.ExecutedAtMostOnce | internal/dispatch/dispatch.go:241-262 | in every interleaving two different executions, at one runner or at two, are of handed-off tasks with different sequences |
| RunnerSteps.InflightIsExact | internal/exec/runner.go:57-133 | in a run that ends unlocked, the carried keys are distinct and are the in-flight set whenever the lock is free if and only if no slow send went through and the lock was never taken to send a key already in flight |
| RunnerSteps.UncleanStepClashes | internal/exec/runner.go:99-133 | a slow send, or taking the lock for a key in flight, breaks the set at once or leaves a clash under the lock |
| RunnerSteps.ClashStep | internal/exec/runner.go:182-191 | a clash lasts while the lock is held and breaks the set as it is freed, by the send as by the timeout |
| RunnerSteps.SlowSendBreaksKeys | internal/exec/runner.go:80-89 | every slow send leaves a carried instance whose key is not reserved for it, and an immediate re-add repairs that if and only if the key was free |
| RunnerSteps.StepKeepsFifo | internal/exec/runner.go:193-217 | every step keeps the order and the bound of the channel |
| RunnerSteps.StepKeepsQuiet | internal/exec/runner.go:193-217 | every step keeps the wait group equal to the work in progress, and none after the wait |
| RunnerSteps.StepKeepsFlushOrders | internal/exec/runner.go:122-133 | every step keeps each window's flush a subsequence of its arrivals |
| RunnerSteps.StepKeepsPrecedence | internal/dispatch/catchup.go:11-17 | every step keeps replayed instances ahead of the buffered ones of their window |
| RunnerSteps.StepKeepsKeys | internal/exec/runner.go:57-133 | every step that sends nothing whose key is in flight, and nothing on the slow path, keeps the in-flight set exact |
| RunnerSteps.SlowPathAdmitsDuplicates | internal/exec/runner.go:80-89 | a run with two instances of one key, one in hand and one in the channel |
| RunnerSteps.SlowPathCanStrandKey | internal/exec/runner.go:80-89 | a run after which a key is in flight with nothing behind it and is refused from then on |
| RunnerSteps.ReplayAdmitsDuplicates | internal/exec/runner.go:99-106 | a run with two replayed instances of one key in the channel |
| RunnerSections.Runner.constructor | internal/exec/runner.go:42-53 | a new runner is the initial state, stop and done open |
| RunnerSections.Runner.EnqueueSection | internal/exec/runner.go:57-81 | the locked part of Enqueue is one step with the one answer its state calls for: closed, duplicate, buffered, queued, or has to wait |
| RunnerSections.Runner.Enqueue | internal/exec/runner.go:57-94 | the whole of Enqueue is a run of steps that begins with its locked part and, when it must wait, ends with the send and re-add or with giving up, and the result says which |
| RunnerSections.QueuedRunIsOneStep | internal/exec/runner.go:72-78 | an Enqueue that finds space is one step and succeeds |
| RunnerSections.Runner.SlowSendStep | internal/exec/runner.go:84-85 | the waiting send goes through |
| RunnerSections.Runner.SlowGiveUpStep | internal/exec/runner.go:90-93 | the waiting send ends with full after the timeout, with closed once stop is closed |
| RunnerSections.Runner.SlowReAddSection | internal/exec/runner.go:86-88 | the key is reserved after the send |
| RunnerSections.Runner.ReplayWriteSection | internal/exec/runner.go:99-106 | refuses when closed, else takes the lock and waits for space |
| RunnerSections.Runner.SendLockedBegin | internal/exec/runner.go:182-183 | reserves the key and keeps the lock |
| RunnerSections.Runner.SendLockedOk | internal/exec/runner.go:185-186 | the instance enters the channel and the lock is free |
| RunnerSections.Runner.SendLockedTimeout | internal/exec/runner.go:187-189 | the key is released and the lock is free |
| RunnerSections.Runner.BeginReplaySection | internal/exec/runner.go:109-118 | opens a window unless closed or one is open |
| RunnerSections.Runner.EndReplaySection | internal/exec/runner.go:122-127 | closes the window; the buffer becomes the flush |
| RunnerSections.Runner.FlushSection | internal/exec/runner.go:128-131 | the next buffered instance waits for space |
| RunnerSections.Runner.ReceiveStep | internal/exec/runner.go:193-196 | takes the first instance of the channel |
| RunnerSections.Runner.AdmitSection | internal/exec/runner.go:197-204 | drops the instance and ends when closed, else counts it as work |
| RunnerSections.Runner.HandlerReturnsStep | internal/exec/runner.go:213 | the handler is done with the instance |
| RunnerSections.Runner.RemoveKeySection | internal/exec/runner.go:214-216 | releases the key of the finished instance |
| RunnerSections.Runner.WorkDoneStep | internal/exec/runner.go:211-212 | the work is uncounted and the runner selects again |
| RunnerSections.Runner.SeeStopStep | internal/exec/runner.go:205-206 | the goroutine ends when it selects the closed stop |
| RunnerSections.Runner.ShutdownSection | internal/exec/runner.go:144-151 | closes the runner once |
| RunnerSections.Runner.WaitPassesStep | internal/exec/runner.go:152 | the wait ends at zero work |
| RunnerSections.Runner.CloseStopStep | internal/exec/runner.go:153 | stop is closed after the wait |
| RunnerSections.Runner.CloseDoneStep | internal/exec/runner.go:154 | done is closed last |
| Pipeline.EachTaskIsInOnePlace | internal/publish/publish.go:41-57 | in every interleaving a retained task is in exactly one of: being published, queued, drained, handed off, failed, held, rejected, dropped |
| Pipeline.PlacesTellWhy | internal/publish/publish.go:41-57 | over any run the held, rejected, failed and dropped tasks are exactly those published unready, published ready into a full queue, attempted in vain, and put back into a full queue |
| Pipeline.HandedOffAtMostOnce | internal/dispatch/dispatch.go:241-262 | no sequence is handed to a runner twice |
| Pipeline.CursorAndMarksAgree | internal/store/store.go:175-190 | marks are the handed-off sequences, the cursor is their maximum, and every pending task counts as undispatched |
| Pipeline.CommitAlwaysSucceeds | internal/dispatch/dispatch.go:251-255 | the commit after a hand-off never fails |
| Pipeline.PendingIffAboveEveryHandOff | internal/store/store.go:84-96 | a retained task is pending exactly when nothing of a higher sequence was handed off |
| Pipeline.FailedTaskCanReadAsCommitted | internal/dispatch/dispatch.go:138-149 | a run after which a failed task is past the cursor |
| Pipeline.NothingLostWithinBound | internal/dispatch/dispatch.go:153-159 | over any run no enqueue fails while the load and the enqueues of publishers, of ready tasks only, fit the bound |
| Pipeline.DrainedTaskCanBeLostIff | internal/dispatch/dispatch.go:137-159 | at any point of a tick, with room in the store for c appends, some continuation with at most c enqueues loses a drained task before the next drain if and only if the tick is to put something back and that, the queue and c exceed the bound |
| Pipeline.DropMeansFull | internal/dispatch/dispatch.go:155-159 | a requeue that loses a task leaves the queue at its bound until the next drain |
| Pipeline.RequeueCanLoseTask | internal/dispatch/dispatch.go:155-159 | a run in which a publisher fills the queue after the drain and the requeue loses the drained task |
| Pipeline.EarlyExitIsFilter | internal/dispatch/dispatch.go:138-151 | the tasks attempted are those due in the window if and only if nothing is overdue or nothing is due |
| Pipeline.StepKeepsConserved | internal/dispatch/dispatch.go:119-159 | every step moves a task from one place to another or appends one |
| Pipeline.StepKeepsCursor | internal/dispatch/dispatch.go:251-255 | every step keeps marks and cursor following the hand-offs |
| Scheduler.Broker.Publish | internal/publish/publish.go:41-57 | a publish is that run of steps, with its answer and the registration it makes |
| Scheduler.Dispatcher.HandOff | internal/dispatch/dispatch.go:242-250 | the outcome is what the token bucket and then a whole Enqueue at the executor's runner answer, and both change accordingly |
| Scheduler.Dispatcher.DispatchOne | internal/dispatch/dispatch.go:241-262 | the limiter and the runner decide, and only a taken task is marked, committed and shown as dispatched |
| Scheduler.Dispatcher.Requeue | internal/dispatch/dispatch.go:155-159 | as many tasks as find room go back, in order, and the others are lost |
| Scheduler.AllFit | internal/dispatch/dispatch.go:155-159 | with room for all tasks every one goes back |
| Scheduler.FirstFailureIsFirst | internal/dispatch/dispatch.go:146-148 | the error reported is that of the first attempt that failed, and none if all were taken |
| Scheduler.Dispatcher.AttemptNext | internal/dispatch/dispatch.go:146-148 | one attempt: the outcome is what the limiter and a whole Enqueue at the executor's runner answered |
| Scheduler.Dispatcher.ScanBatch | internal/dispatch/dispatch.go:137-151 | the loop attempts the tasks up to the first outside the window at the given executor and requeues the rest |
| Scheduler.Dispatcher.TickBatch | internal/dispatch/dispatch.go:129-151 | a tick from its drain on |
| Scheduler.Dispatcher.RequeueTail | internal/dispatch/dispatch.go:139-145 | the first task outside the window ends the scan and the tail goes back |
| Scheduler.Dispatcher.Tick | internal/dispatch/dispatch.go:119-151 | a tick is a run of steps that attempts the prefix in the window in (DueAt, ID) order at a recorded executor, each outcome being what the limiter and that executor's runner answered in turn, requeues exactly the rest, drops nothing, and reports the first failure |
| Scheduler.DueTaskIsHandedOff | internal/dispatch/dispatch.go:119-151 | with one recorded executor whose runner is open, unlocked and has space and a free key, and a limiter that grants, the one due task is handed to that runner and no error is reported |
| Scheduler.TickThenDrain | internal/dispatch/dispatch.go:129-159 | after any tick, with or without executors, the next drain yields what the tick put back in the identical order |
| ExecManager.Manager.constructor | internal/exec/manager.go:24-31 | a new manager has no runners |
| ExecManager.Manager.Add | internal/exec/manager.go:34-43 | keeps an executor's runner, else starts a new one |
| ExecManager.Manager.Get | internal/exec/manager.go:46-51 | the runner of an executor, if any |
| ExecManager.Manager.Remove | internal/exec/manager.go:54-58 | forgets the runner of an executor |
| ExecManager.Manager.Dispatch | internal/exec/manager.go:61-67 | a whole Enqueue at the executor's runner with its result, or the error that there is none |
| Heartbeat.Evictor.constructor | internal/heartbeat/evictor.go:21-27 | a new evictor over its two tables, nothing evicted yet |
| Heartbeat.Evictor.EvictLease | internal/heartbeat/evictor.go:32-34 | the lease is evicted first; without one the eviction is over |
| Heartbeat.Evictor.ShutdownRunner | internal/heartbeat/evictor.go:35-37 | the executor's runner, if any, is told to shut down, and only the first call waits |
| Heartbeat.Evictor.RemoveRunner | internal/heartbeat/evictor.go:42-43 | the executor is unmapped and the eviction counted |
| Eviction.StepKeepsRunners | internal/heartbeat/evictor.go:31-44 | outside the gap every step of evictor, registrations and runners keeps mapped runners open or under shutdown and unmapped ones released |
| Eviction.StepKeepsSlots | internal/heartbeat/evictor.go:31-44 | without overlap every step keeps slots and mapped runners in agreement |
| Eviction.UnmappedRunnersAreQuiet | internal/heartbeat/evictor.go:29-44 | in every interleaving outside the gap a runner no longer mapped is released and runs nothing |
| Eviction.OneRunnerExecutes | internal/heartbeat/evictor.go:29-44 | two runners of one executor never execute at the same time |
| Eviction.SlotMeansOpenRunner | internal/lease/lease.go:34-81 | an executor with no registration or eviction in progress holds a slot exactly when it is mapped to an open runner of its own |
| Eviction.LeasesAreALeaseRun | internal/heartbeat/evictor.go:31-44 | in every run of the protocol the lease table is that of its Acquires, Renews and Evicts in their order |
| Eviction.AnyOverlapLosesRunner | cmd/jobsched/server.go:159-160 | whenever a registration and an eviction of one executor are both in progress, they end, in whatever order, with a slot and no runner |
| Eviction.GapStrandsRunner | internal/heartbeat/evictor.go:35-42 | an Add between a failed lookup and the removal always leaves an open runner unmapped, whatever runs in between |
| Eviction.TwoRunnersCanExecute | internal/heartbeat/heartbeat.go:50-53 | a run in which a second sweep over an evicted lease leads to two busy runners of one executor |

## Left out

- The HTTP server, console page, startup probe, configuration and wiring: input, output and user interface.
- Wall clocks, timers, tickers and identifiers: times and ids are arguments; `time.After` is a timeout that may happen at any moment. The limiter's results assume call times that never go back and are never the zero time.
- Handler bodies, payloads, creation stamps, logging, metric counters and `store.Cursor`: they decide nothing here.
- The retry planner, `Planner` and `ScheduleWindow`: not wired into the pipeline.
- Store execution records (`RecordTaskExecution`, `TaskRecord`): a plain map beside the log.
- `Dispatcher.Dispatch` and `dispatchBatch` beyond `ordered`, and `CatchUpFrom`: they hand off tasks again by design. The replay window itself, with any sequence of replay writes in it, is part of module RunnerSteps.
- Go's order among waiting senders: any waiting sender may go first. A channel of size zero is not modelled; executions start from a queue size of at least one.
- Rounding of float64, and wrap-around of 64-bit sequences and versions: exact reals and unbounded integers.
- Incarnations after Delete: they start at one again, as the code has it, so they are not fresh across a Delete.
- RunnerSections.Runner.Enqueue: while it waits only the receiver and a shutdown move; all other interleavings are in module RunnerSteps and module Delivery.
- Scheduler.Dispatcher.HandOff: the instant of each limiter call and the ids of new instances are arbitrary.
- Delivery.ExecutedAtMostOnce: replay writes and `Dispatcher.Dispatch` are not part of that system, as they execute tasks again by design; ids of instances are fresh.
- RunnerSections.Runner: the object's sections are proved one by one; their interleaving is in module RunnerSteps, on values, and does not capture aliasing between runner objects.
- Heartbeat.Evictor.ShutdownRunner: ends where the source starts to wait; the wait, its timeout and everything that can happen meanwhile are steps of module Eviction. Evictions come one after another, as the one sweep loop makes them.
