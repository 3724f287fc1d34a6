# mcpkit: a verified model of its stateful core

mcpkit is a Go toolkit for Model Context Protocol servers. This project models the parts of it whose
correctness depends on whole runs rather than on single calls, and proves what those parts promise.

Each component has two layers. The first is a specification over values: steps, an invariant, and theorems
about every run. The second has the source's own form: a class with the same fields, or a loop with its
invariants, proved to take exactly the steps of the first. Concurrency is modelled as interleaving: one step
is one critical section under the source's lock, or one channel operation, and a run is any sequence of
enabled steps. Clocks, hash functions, network answers and tool results are parameters.

| files | component | main results |
|---|---|---|
| `PriorityHeap`, `Groups`, `DispatcherModel`, `DispatcherRuns`, `Dispatcher` | job dispatcher: heap queue, concurrency groups, worker pool | group limits in every state, exactly-once delivery, no lost wake-up, a drain that is bounded and completes, and exactly which pools start jobs in priority order |
| `ConsistentHash`, `AffinityRouter` | session affinity | the ring search finds the nearest virtual node; adding, removing or replacing upstreams moves only the sessions it must |
| `MirrorGroups` | union-find over declared mirrors | equal canonical names exactly for connected repositories, through path compression |
| `FanOut` | parallel stages with a semaphore and fail-fast | concurrency bound that is reached, every slot holds what its stage returned, first error, deadlock freedom within four steps a stage |
| `Federation` | tool discovery across peers | the catalog is exactly the last answers, if and only if no two peers can share a name |
| `TaskModel`, `TaskLifecycle`, `TaskOutcomes`, `TaskReports`, `TaskServer` | A2A task server | states only move forward, which event decides each outcome and its answer, exact transcripts, and exactly when reports come once and in order |
| `ReplayCache` | DPoP replay protection | at most one acceptance, exactly which proofs escape that, and nothing but repeats refused |
| `GridFraming`, `Midi` | device byte streams | chunking does not matter, round trips, exactly which byte streams two MIDI decoders read alike |
| `Pagination` | opaque cursors over base64 | cursor round trip, and walking the cursors returns every item once in order |
| `RateLimit` | token bucket per agent | at most burst + rate × window admissions in any window |
| `UsageTracker`, `BudgetGate`, `BudgetEnforcer`, `BudgetAlerts` | token and cost budgets | exactly which calls are rejected, overshoot bound under concurrency and which calls it needs, conservation between trackers, each alert exactly when its share of the limit is recorded and at most once in every interleaving |

`Prelude.dfy` holds shared types and `Sums.dfy` the finite sums that several invariants count with.

## Where the code and its comments differ

The model follows the code, and where a promise fails it is proved exactly when it holds.

- `dispatcher/dispatcher.go:233-235` reads as if the best eligible job is taken, but the scan follows the heap
  array, not rank order. `TakesBestExactlyWhen` shows that over all runs of a pool the best eligible job is always
  taken exactly if every positive limit is at least the number of workers or the queue holds fewer than three jobs;
  `CrowdSkipsBetterJob` is the failing run. `StartsInOrderExactlyWhen` does the same for the order of starts.
- `finops/enforcement.go:163-190` speaks of the most restrictive policy. The first policy seeds the minimum
  even when its limit is not positive: `UnlimitedFirstPolicyHidesBudget` has limits 0 and 10 and reports nothing
  left at cost 1. `RemainingIsTightest` and `RemainingZeroExactlyWhen` say what is reported.
- `finops/enforcement.go:209` promises ascending alerts. They are marked in ascending order in every interleaving
  (`MarkedFromTheLowest`) and given at most once (`AlertedAtMostOnce`), but callbacks run outside the lock:
  `AlertsAscendExactlyWithoutOverlap` shows that they ascend exactly if calls do not overlap.
- `finops/scope.go:124-166` records scoped and unresolved calls globally without looking at the global budget.
  `GlobalBoundExactlyForGatedCalls` shows that the global bound holds exactly if there are no such calls.
- `auth/dpop.go` remembers an identifier for as long as a proof stays in its window, counted from acceptance. A
  proof accepted before its issue time, or checked and then delayed, outlives its entry. `ReplayableExactlyWhenLate` gives
  the exact condition.
- `device/grid_protocol.go:69-75` frames a payload without looking for the end byte inside it.
  `FrameRoundTripsExactlyWithoutEtx` gives the exact condition.
- `gateway/federation.go:377-404` can give tools of two peers one name: always in flat mode, and in namespaced mode
  when two endpoints reduce to one namespace. `NeverLosesToolsExactlyWhenSeparate` gives the exact condition.
- `a2a/server.go:143-153` accepts a task identifier that is already in use, replaces the task, even a terminal one, and
  starts a second goroutine on it; and `a2a/server.go:478-485` notifies after unlocking. `TerminalExactlyUntilResent`,
  `ReportsOnceExactlyWhenSentOnce`, `ReportsInOrderExactlyWhen` and `QuotesOwnTextExactlyWhenSentOnce` say exactly
  what depends on not reusing identifiers, and that order also depends on not canceling.
- The shared MIDI parser and the Linux read loop are described as the same logic
  (`device/midi_parse.go:8-10`). `AgreeExactlyWhenWhole` shows that, where no channel pressure lacks its value, they
  agree exactly on bytes without a cut-off message, a cut-off SysEx or a broken SysEx. At a pressure without its value
  they continue at different bytes: `StolenStatusShifts`, with `StolenNoteDiffers` and a coincidence,
  `StolenNoteMayAgree`.

## Model

| member | source | states |
|---|---|---|
| `PriorityHeap.RootIsBest` | dispatcher/queue.go:14-19 | in a heap the first element ranks before every other by priority, then submission number |
| `PriorityHeap.AncestorNotAfter` | dispatcher/queue.go:14-19 | no element of a heap ranks before any of its ancestors |
| `PriorityHeap.BestChild` | dispatcher/queue.go:14-19 | the child chosen while sifting down is beaten by no sibling |
| `PriorityHeap.SiftDownStep` | dispatcher/queue.go:14-21 | exchanging a job with its better child leaves order broken at most below that child |
| `PriorityHeap.SiftUpStep` | dispatcher/queue.go:14-21 | exchanging a job with its worse parent leaves order broken at most above that parent |
| `PriorityHeap.RemovalLeavesSinkable` | dispatcher/dispatcher.go:239 | moving the last job into a removed place breaks order only around that place |
| `PriorityHeap.PriorityQueue.Swap` | dispatcher/queue.go:21 | two jobs change places, nothing else moves |
| `PriorityHeap.PriorityQueue.Up` | dispatcher/dispatcher.go:138 | sifting up restores the heap and permutes the first n jobs |
| `PriorityHeap.PriorityQueue.Down` | dispatcher/dispatcher.go:239 | sifting down restores the heap, or reports that nothing had to move |
| `PriorityHeap.PriorityQueue.Push` | dispatcher/queue.go:24-26 | the queue stays a heap and gains exactly the job |
| `PriorityHeap.PriorityQueue.Remove` | dispatcher/dispatcher.go:239 | removing any index keeps the heap and loses exactly that job |
| `PriorityHeap.PriorityQueue.SwapOut` | dispatcher/dispatcher.go:239 | the removed job ends up last and the jobs before it form a heap |
| `PriorityHeap.PriorityQueue.Pop` | dispatcher/queue.go:30-37 | returns the last job of the slice and drops it |
| `Groups.GroupManager.constructor` | dispatcher/groups.go:15-23 | a new manager has the given limits and no active job |
| `Groups.GroupManager.CanStart` | dispatcher/groups.go:30-39 | true without a group, without a positive limit, or below the limit |
| `Groups.GroupManager.Acquire` | dispatcher/groups.go:42-47 | counts one more job of a named group |
| `Groups.GroupManager.Release` | dispatcher/groups.go:50-57 | counts one job less, never below zero |
| `DispatcherModel.Broadcast` | dispatcher/dispatcher.go:140 | a broadcast wakes every waiting worker and touches no other |
| `DispatcherModel.InitEstablishesInv` | dispatcher/dispatcher.go:75-110 | a new dispatcher satisfies the invariant |
| `DispatcherModel.NextKeepsInv` | dispatcher/dispatcher.go:115-244 | every step keeps heap order, exact group counts, job conservation and the wake-up condition |
| `DispatcherModel.SubmitKeepsInv` | dispatcher/dispatcher.go:126-141 | a submission, accepted or refused, keeps the invariant |
| `DispatcherModel.CheckKeepsInv` | dispatcher/dispatcher.go:196-212 | a worker's check, whether it starts, waits or exits, keeps the invariant |
| `DispatcherModel.StartKeepsInv` | dispatcher/dispatcher.go:211-212 | taking a job keeps group counts exact and limits respected |
| `DispatcherModel.IdleKeepsInv` | dispatcher/dispatcher.go:200-208 | a worker that waits or exits leaves no eligible job behind |
| `DispatcherModel.NoWaitersWhenTaking` | dispatcher/dispatcher.go:198-209 | while an eligible job is queued no worker is asleep or gone: no lost wake-up |
| `DispatcherModel.DeliverKeepsInv` | dispatcher/dispatcher.go:214-224 | sending a result moves the job from running to delivered exactly once |
| `DispatcherModel.ReleaseAboveFloor` | dispatcher/groups.go:50-57 | the floor at zero in release is never needed |
| `DispatcherModel.FinishKeepsInv` | dispatcher/dispatcher.go:226-229 | releasing and broadcasting keeps the invariant |
| `DispatcherRuns.InvAlongRun` | dispatcher/dispatcher.go:115-244 | the invariant holds in every reachable state of every run |
| `DispatcherRuns.GroupLimits` | dispatcher/groups.go:30-57 | in every reachable state a group's count equals the workers holding it and stays within its limit if that is positive |
| `DispatcherRuns.HeldBackExactlyWhen` | dispatcher/groups.go:30-39 | in every reachable state a job is held back exactly while as many workers hold its group as the group's positive limit; without one, never |
| `DispatcherRuns.ClosedExactlyAfterClose` | dispatcher/dispatcher.go:153-157 | the dispatcher is closed exactly after a shutdown |
| `DispatcherRuns.SubmitAcceptedExactlyWhen` | dispatcher/dispatcher.go:115-149 | a submission is accepted exactly when there was no shutdown and the queue has room, with its own priority and group and the next number |
| `DispatcherRuns.ExactlyOnce` | dispatcher/dispatcher.go:126-224 | every accepted job is queued, running or delivered, in exactly one place and once; others nowhere |
| `DispatcherRuns.JobsAddUp` | dispatcher/dispatcher.go:126-224 | accepted = queued + running + delivered in every reachable state |
| `DispatcherRuns.BlockedMeansSomeoneRuns` | dispatcher/dispatcher.go:196-229 | a job held back by its group has a worker of that group at work, which will wake the others |
| `DispatcherRuns.CanStepMeansEnabled` | dispatcher/dispatcher.go:192-231 | a worker that is neither parked nor returned has a step to take, whatever the queue |
| `DispatcherRuns.EnabledExactlyWhenCanStep` | dispatcher/dispatcher.go:192-231 | some worker has a step if and only if some worker is neither parked nor returned |
| `DispatcherRuns.DeadlockFree` | dispatcher/dispatcher.go:196-229 | with queued jobs, or after shutdown until all have returned, some worker has a step; a parked worker has nothing it could take |
| `DispatcherRuns.StepLowersPotential` | dispatcher/dispatcher.go:153-231 | after shutdown each worker step lowers a potential and submissions change nothing |
| `DispatcherRuns.DrainBound` | dispatcher/dispatcher.go:153-171 | after shutdown the number of worker steps is bounded by the potential at that moment |
| `DispatcherRuns.DrainedMeansDelivered` | dispatcher/dispatcher.go:153-171 | once all workers have exited the delivered jobs are exactly the accepted ones |
| `DispatcherRuns.ShutdownCompletes` | dispatcher/dispatcher.go:153-171 | a closed run in which no worker has a step left has returned every worker and delivered every accepted job |
| `DispatcherRuns.DrainExists` | dispatcher/dispatcher.go:153-171 | from every closed state worker steps alone lead to the return of every worker |
| `DispatcherRuns.SelectionExists` | dispatcher/dispatcher.go:236-244 | the scan picks one definite job, and none exactly when no job is eligible |
| `DispatcherRuns.SelectionQuality` | dispatcher/dispatcher.go:236-244 | every heap ancestor of the pick is blocked, and an eligible root is the pick and the best job |
| `DispatcherRuns.CrowdSkipsBetterJob` | dispatcher/dispatcher.go:236-244 | for every limit below the pool size, the run in which a free worker starts a job although a better eligible one is queued |
| `DispatcherRuns.TakesBestExactlyWhen` | dispatcher/dispatcher.go:233-244 | over all runs of a pool every started job is the best eligible one if and only if no positive limit is below the pool size or the queue holds fewer than three |
| `DispatcherRuns.StartsInOrderExactlyWhen` | dispatcher/queue.go:14-19 | over all runs of a pool jobs start by priority and then submission if and only if no positive limit is below the pool size or the queue holds one |
| `DispatcherRuns.GreaterJobFollows` | dispatcher/dispatcher.go:196-244 | for every limit below the pool size, a run that starts a job of higher priority, submitted before, after one of lower priority |
| `DispatcherRuns.QueueBounded` | dispatcher/dispatcher.go:131-134 | the queue never holds more than its configured size |
| `Dispatchers.Dispatcher.constructor` | dispatcher/dispatcher.go:75-110 | a dispatcher starts with an empty queue and all workers ready |
| `Dispatchers.Dispatcher.Submit` | dispatcher/dispatcher.go:126-141 | performs a submission step; refused when closed, then when full, else numbered and queued |
| `Dispatchers.Dispatcher.Enqueue` | dispatcher/dispatcher.go:136-140 | numbers the job, pushes it on the heap and wakes everyone |
| `Dispatchers.Dispatcher.Dequeue` | dispatcher/dispatcher.go:236-244 | removes the first eligible job of the array and keeps the heap, or proves there is none |
| `Dispatchers.Dispatcher.StartJob` | dispatcher/dispatcher.go:211-212 | charges the group and puts the worker to work on the selected job |
| `Dispatchers.Dispatcher.WorkerCheck` | dispatcher/dispatcher.go:196-212 | performs one check step and keeps the invariant |
| `Dispatchers.Dispatcher.SendResult` | dispatcher/dispatcher.go:214-224 | performs one delivery step and keeps the invariant |
| `Dispatchers.Dispatcher.ReleaseGroup` | dispatcher/dispatcher.go:226-229 | performs one release step and keeps the invariant |
| `Dispatchers.Dispatcher.Shutdown` | dispatcher/dispatcher.go:154-157 | closes the dispatcher, wakes everyone and keeps the invariant |
| `ConsistentHash.VirtualKey` | gateway/affinity.go:58-68 | the loop that writes the replica number spells the node key |
| `ConsistentHash.NodeKeyInjective` | gateway/affinity.go:58-68 | no two (upstream, replica) pairs share a node key |
| `ConsistentHash.NodeKeySpells` | gateway/affinity.go:58-68 | a virtual node's key is its upstream, a colon, and digits that spell the replica number, lowest first and without padding |
| `ConsistentHash.NearestUnique` | gateway/affinity.go:80-88 | without hash collisions the upstream nearest to a session is unique |
| `ConsistentHash.OnlyNewcomerTakes` | gateway/affinity.go:40-89 | a session whose nearest upstream changes when one is added goes to that one |
| `ConsistentHash.ChangeOfPool` | gateway/affinity.go:40-89 | between any two pools the nearest upstream changes only from one that is gone or to one that is new |
| `ConsistentHash.AppendReplicas` | gateway/affinity.go:56-74 | one upstream adds exactly its replica nodes to the ring |
| `ConsistentHash.BuildRing` | gateway/affinity.go:56-74 | the ring holds the nodes of all upstreams and no others |
| `ConsistentHash.SortRing` | gateway/affinity.go:76-78 | the ring becomes ordered by hash and keeps its nodes |
| `ConsistentHash.FirstAtOrAfter` | gateway/affinity.go:80-82 | binary search finds the boundary between smaller hashes and the rest |
| `ConsistentHash.CutIsNearest` | gateway/affinity.go:80-88 | the node at that boundary, wrapping round, has the least clockwise distance |
| `ConsistentHash.LoneUpstreamIsNearest` | gateway/affinity.go:46-48 | the shortcut for one upstream agrees with the ring |
| `ConsistentHash.Locate` | gateway/affinity.go:40-89 | returns an upstream with a virtual node nearest to the session, with 100 replicas unless a positive number is given, or "" without upstreams |
| `Affinity.RouteDetermined` | gateway/affinity.go:138-154 | the route depends only on the set of upstreams and the session's own pin |
| `Affinity.RouteIsMember` | gateway/affinity.go:138-154 | a route is always a current upstream, even with a stale pin |
| `Affinity.AddMovesOnlyToNewcomer` | gateway/affinity.go:177-186 | adding an upstream moves a session only to it |
| `Affinity.RemoveMovesOnlyItsOwn` | gateway/affinity.go:189-204 | removing an upstream moves only sessions that were on it; what is removed is said by `RemovedIsGone` |
| `Affinity.RemovedIsGone` | gateway/affinity.go:189-204 | removing takes exactly one occurrence, the first, out of the list and keeps the order of the rest; the name is gone exactly if it was there at most once |
| `Affinity.RemovedIsNotRouted` | gateway/affinity.go:138-204 | after a removal no session is routed to a name that was there once |
| `Affinity.AddedIsThere` | gateway/affinity.go:177-186 | adding gives exactly one upstream more to the set, at the end of the list, once however often, and keeps every pin |
| `Affinity.AddAndRemove` | gateway/affinity.go:177-204 | removing undoes adding, and a name removed and added again has no pins |
| `Affinity.ReplacingMovesOnlyWhatItMust` | gateway/affinity.go:158-174 | whatever the new list, a session changes upstream only if its old one left or its new one joined |
| `Affinity.AffinityRouter.constructor` | gateway/affinity.go:119-133 | a router starts with the given upstreams, no pins, and a positive replica count |
| `Affinity.AffinityRouter.Route` | gateway/affinity.go:138-154 | a live pin wins, otherwise the nearest upstream |
| `Affinity.AffinityRouter.SetUpstreams` | gateway/affinity.go:158-174 | installs the upstreams and drops the pins to missing ones |
| `Affinity.AffinityRouter.AddUpstream` | gateway/affinity.go:177-186 | appends an upstream that is not in the list, changes nothing otherwise, and keeps the pins |
| `Affinity.AffinityRouter.RemoveUpstream` | gateway/affinity.go:189-204 | takes one occurrence out of the multiset of upstreams, the first, and drops exactly the pins to it |
| `Affinity.AffinityRouter.CutOut` | gateway/affinity.go:192-197 | the loop cuts out the first occurrence, if there is one |
| `Affinity.AffinityRouter.SetSticky` | gateway/affinity.go:208-212 | pins one session and no other |
| `Affinity.AffinityRouter.RemoveSticky` | gateway/affinity.go:215-219 | unpins one session and no other |
| `MirrorGroups.RepIsReached` | fleetinventory/score.go:453-461 | following parents from any name ends at its representative |
| `MirrorGroups.CompressionKeepsReps` | fleetinventory/score.go:453-461 | path compression changes no representative |
| `MirrorGroups.LinkKeepsForest` | fleetinventory/score.go:462-467 | linking two roots leaves a forest with the two groups merged |
| `MirrorGroups.LabelConstantOnPath` | fleetinventory/score.go:446-489 | representatives equal across every pair are equal along every path |
| `MirrorGroups.MergeAddsPair` | fleetinventory/score.go:462-467 | a merge makes representatives agree with connectivity under one more pair, both directions |
| `MirrorGroups.NoPairsNoGroups` | fleetinventory/score.go:446-452 | before any union every name is its own group |
| `MirrorGroups.ListedMirrorJoins` | fleetinventory/score.go:470-482 | a mirror in the fleet that a repository with a directory lists is in its group |
| `MirrorGroups.UnlistedStayApart` | fleetinventory/score.go:470-482 | names that no listing leads into or out of share no group with the rest |
| `MirrorGroups.Canonicalizer.Find` | fleetinventory/score.go:453-461 | returns the representative, compressing paths without changing any group; unknown names stand for themselves |
| `MirrorGroups.Canonicalizer.Union` | fleetinventory/score.go:462-467 | adds one pair to the relation and nothing else |
| `MirrorGroups.Canonicalizer.constructor` | fleetinventory/score.go:446-482 | the groups are those of exactly the declared mirror pairs within the fleet |
| `MirrorGroups.Canonicalizer.JoinRepo` | fleetinventory/score.go:468-482 | joins a repository to the mirrors of all its files that belong to the fleet |
| `MirrorGroups.Canonicalizer.JoinFile` | fleetinventory/score.go:474-480 | joins a repository to the mirrors of one file that belong to the fleet |
| `MirrorGroups.Canonicalizer.Canon` | fleetinventory/score.go:483-488 | two repositories get one canonical name if and only if declared mirrors connect them |
| `FanOut.Capacity` | orchestrator/fanout.go:111-119 | the semaphore size is positive, at most the stages, and a configured bound that is positive and at most the stages |
| `FanOut.NextKeepsInv` | orchestrator/fanout.go:51-92 | every step keeps tokens equal to holders, slots tied to phases, and the first error tied to the write order |
| `FanOut.InvAlongRun` | orchestrator/fanout.go:18-109 | the invariant holds in every reachable state |
| `FanOut.ConcurrencyBounded` | orchestrator/fanout.go:56-64 | never more stages run at once than configured |
| `FanOut.ConcurrencyReached` | orchestrator/fanout.go:40-64 | a run has as many stages running at once as configured, or all of them without a smaller positive bound |
| `FanOut.OnlyFailureCancels` | orchestrator/fanout.go:66-91 | while the caller does not cancel, stages are cancelled if and only if a first error was kept |
| `FanOut.SomeoneCanStep` | orchestrator/fanout.go:51-92 | until the join some goroutine can proceed without outside help |
| `FanOut.StepTakesOne` | orchestrator/fanout.go:51-92 | each step of a goroutine uses up one of its remaining steps |
| `FanOut.JoinWithinBound` | orchestrator/fanout.go:94-108 | every run joins after at most four steps a stage |
| `FanOut.JoinResult` | orchestrator/fanout.go:94-108 | at the join slot i holds r exactly if stage i returned r and the context error exactly if its goroutine gave up, each written once; the error is that of the first stage to fail, and exists exactly under fail-fast with a failure |
| `FanOut.SlotsTellTheRun` | orchestrator/fanout.go:56-91 | at every point of every run a slot holds r exactly if its stage has returned r, and the context error exactly if its goroutine has given up |
| `FanOut.ErrorIsFirst` | orchestrator/fanout.go:70-90 | at every point the kept error is that of the first stage to fail, under fail-fast only |
| `FanOut.CancelledExactlyWhen` | orchestrator/fanout.go:70-90 | the context is cancelled exactly after the parent ended or a stage failed under fail-fast |
| `FanOut.Call.constructor` | orchestrator/fanout.go:18-49 | a call starts with no stage launched and empty slots |
| `FanOut.Call.LaunchNext` | orchestrator/fanout.go:51-53 | performs a launch step |
| `FanOut.Call.TakeToken` | orchestrator/fanout.go:56-58 | performs an acquire step |
| `FanOut.Call.GiveUp` | orchestrator/fanout.go:59-64 | performs the cancelled branch: the slot receives the cancellation |
| `FanOut.Call.StageReturned` | orchestrator/fanout.go:66-91 | writes what the stage returned into its slot and, on the first failure under fail-fast, keeps the error and cancels |
| `FanOut.Call.Publish` | orchestrator/fanout.go:70-90 | the critical section: the slot holds the stage's own result, and the error is kept if it is the first |
| `FanOut.Call.Exit` | orchestrator/fanout.go:51-58 | gives back the token, if one is held, and leaves |
| `FanOut.Call.ContextDone` | orchestrator/fanout.go:56-64 | the caller's cancellation reaches the stages |
| `Federation.PeerNamespace` | gateway/federation.go:386-404 | a namespace holds only name characters, so never a slash; its value is said by `NamespaceOfUrl` |
| `Federation.NamespaceOfUrl` | gateway/federation.go:386-404 | protocol and path do not matter, and each character of the host stays if it is a letter or digit and becomes an underscore otherwise |
| `Federation.NamespacedNameSplits` | gateway/federation.go:377-404 | equal namespaced names mean equal namespaces and equal tools |
| `Federation.NameDeterminesTool` | gateway/federation.go:377-382 | within one peer a federated name determines the tool |
| `Federation.SeparateWhen` | gateway/federation.go:377-404 | peers cannot share names exactly when namespaces differ, or in flat mode when there is one peer |
| `Federation.PeerToolsAreLastCatalog` | gateway/federation.go:238-323 | after any run a peer's tools are those of its last successful listing |
| `Federation.HealthIsLastReached` | gateway/federation.go:238-280 | after any run a peer is healthy and connected exactly when its last attempt got through |
| `Federation.DiscoveryKeepsExact` | gateway/federation.go:281-318 | one discovery whose listing clashes with nothing keeps the registry equal to local tools plus peers' tools, failed or not |
| `Federation.ExactAfterAnyRun` | gateway/federation.go:238-323 | that equality holds after every sequence of discoveries whose listed names do not clash |
| `Federation.CatalogTheorem` | gateway/federation.go:238-323 | a name is registered if and only if it is local or in a peer's last listing, that peer and tool are unique, and the entry proxies to them |
| `Federation.LocalIsOverwritten` | gateway/federation.go:300-318 | a local tool is lost to a peer that lists its name |
| `Federation.InvokeReachesOwner` | gateway/federation.go:348-372 | invoking a listed tool reaches its own peer, or reports it unavailable exactly when it was last unreachable |
| `Federation.ReachedExactlyWhen` | gateway/federation.go:238-276 | one more discovery reaches its peer exactly if the listing comes over an old or a new connection, and then replaces the catalog; others are as before |
| `Federation.InvokeElsewhere` | gateway/federation.go:287-315 | a local entry is never touched, and a name is unregistered exactly if it is neither local nor listed |
| `Federation.ListedToolIsCallable` | gateway/federation.go:346-382 | a listed tool is reached under its own name in flat mode, and under namespace, slash and name otherwise |
| `Federation.SharedNameIsLost` | gateway/federation.go:281-318 | for any two tools of two peers with one name, two polling rounds after which a still listed tool is gone |
| `Federation.NeverLosesToolsExactlyWhenSeparate` | gateway/federation.go:281-404 | no run loses a listed tool if and only if no two peers can share a name |
| `Federation.Gateway.constructor` | gateway/federation.go:107-116 | a gateway starts with its local tools and no peer |
| `Federation.Gateway.FederatedNames` | gateway/federation.go:281-292 | the loop collects the federated names of a listing |
| `Federation.Gateway.DiscoverPeer` | gateway/federation.go:238-323 | performs one discovery, including both failure branches |
| `Federation.Gateway.RemoveTools` | gateway/federation.go:293-298 | unregisters exactly the names no longer listed |
| `Federation.Gateway.AddTools` | gateway/federation.go:300-318 | registers exactly the names not known before |
| `Federation.Gateway.RouteCall` | gateway/federation.go:178-195 | finds a peer that owns the name, and finds none only when no peer does |
| `TaskLifecycle.StepKeepsInv` | a2a/server.go:107-265 | every step, repeated sends and late notifications included, keeps transcripts, goroutine progress and the order of changes |
| `TaskLifecycle.ChangeKeepsInv` | a2a/server.go:471-481 | changing one task, with messages and goroutines that fit its new state, keeps the invariant for all tasks |
| `TaskLifecycle.NotifyKeepsInv` | a2a/server.go:483-485 | notifying after unlocking, at any later time, keeps the invariant |
| `TaskLifecycle.StepAdvances` | a2a/server.go:107-265 | a step other than sending its identifier again moves a task only forward and only appends to its messages |
| `TaskLifecycle.TerminalExactlyUntilResent` | a2a/server.go:143-150 | a step leaves a terminal task alone if and only if it does not send the identifier again |
| `TaskLifecycle.Lifecycle` | a2a/types.go:21-23 | over any stretch of any run without a repeated send, a task moves only forward and a terminal one never changes |
| `TaskLifecycle.TranscriptExact` | a2a/server.go:207-265 | a task holds what was last sent, plus one agent message exactly when completed or failed; unless terminal it has a goroutine still to update it. Which event that was, and its text, is said by `OutcomeExactly` and `OutcomeAnswer` |
| `TaskOutcomes.OutcomeExactly` | a2a/server.go:143-264 | exactly one event made a task what it is: it is failed exactly if that was a tool search without result, completed exactly if one with a tool, and likewise for canceled, working and submitted |
| `TaskOutcomes.OutcomeAnswer` | a2a/server.go:232-264 | the answer added then says that no tool was found, or names the tool that was found and the text read at the start |
| `TaskOutcomes.TextWasRead` | a2a/server.go:207-230 | the text a goroutine works with is that of its task when it began |
| `TaskOutcomes.TextOfOnePart` | a2a/server.go:220-230 | a text part of a user message adds its text and a blank to what is read; any other part and any other role add nothing |
| `TaskOutcomes.ChangeIsReported` | a2a/server.go:471-487 | every change of a task other than sending it leaves one report with the new state for the configurations of that moment, if there are any |
| `TaskOutcomes.OnlyChangesAreReported` | a2a/server.go:471-530 | nothing else leaves a report, and notifying hands on exactly the report it was called for |
| `TaskOutcomes.ConfigsAfter` | a2a/server.go:399-559 | what every event makes of the push configurations of every task |
| `TaskReports.ReportsOnceExactlyWhenSentOnce` | a2a/server.go:471-530 | in all runs with at most n sends of a task, being worked on and having ended are each notified at most once, if and only if n is at most one |
| `TaskReports.ReportsInOrderExactlyWhen` | a2a/server.go:478-485 | in all runs notify calls about a task come in order, nothing after the end, if and only if it is sent at most once and not canceled |
| `TaskReports.ResentIsReportedTwice` | a2a/server.go:107-218 | a run in which two goroutines of one identifier both report the working state |
| `TaskReports.CanceledIsReportedFirst` | a2a/server.go:182-218 | a run with one send in which the end is notified before the beginning |
| `TaskReports.QuotesOwnTextExactlyWhenSentOnce` | a2a/server.go:220-264 | a completed task quotes its own text in all runs with at most n sends of it if and only if n is at most one |
| `TaskReports.ResentQuotesOldText` | a2a/server.go:107-264 | a run in which a task is completed with the text of an earlier send |
| `TaskServer.Server.constructor` | a2a/server.go:46-58 | a server starts without tasks |
| `TaskServer.Server.UpdateTask` | a2a/server.go:471-481 | the critical section: applies a change and reads the configurations to notify, only if the task exists and the change was made; answers the current task |
| `TaskServer.Server.NotifyTaskUpdate` | a2a/server.go:509-525 | notifies what was read in the critical section, once |
| `TaskServer.Server.ClearPushConfigs` | a2a/server.go:526-559 | after notifying a terminal state, drops all configurations the task has by then |
| `TaskServer.Server.HandleSend` | a2a/server.go:143-153 | installs a submitted task, replacing one of the same identifier, stores its push configuration and starts a goroutine |
| `TaskServer.Server.HandleCancel` | a2a/server.go:182-204 | cancels a task unless it is terminal and answers its current state |
| `TaskServer.Server.DispatchBegin` | a2a/server.go:207-230 | a goroutine starts work on its task, unless that is already terminal |
| `TaskServer.Server.CollectText` | a2a/server.go:220-230 | the loop joins the text parts of the user messages in order |
| `TaskServer.Server.DispatchConclude` | a2a/server.go:232-264 | unless the task became terminal meanwhile, it is failed or completed as the search went, with the answer that says so |
| `TaskServer.Server.CreatePushConfig` | a2a/server.go:399-413 | stores a configuration of an existing task and reports whether it exists |
| `TaskServer.Server.DeletePushConfig` | a2a/server.go:453-469 | drops one configuration of an existing task and reports whether it exists |
| `ReplayCache.SizeBounded` | auth/dpop_cache.go:27-77 | one validation keeps the cache within its size |
| `ReplayCache.NeverOverfull` | auth/dpop_cache.go:27-77 | the cache stays within its size along every history of validations |
| `ReplayCache.EmptyIdentifierBreaksBound` | auth/dpop_cache.go:63-77 | for every size, a full cache that must outgrow its bound because its oldest entry has the empty identifier |
| `ReplayCache.LiveEntrySurvives` | auth/dpop_cache.go:27-61 | with room for the live entries, no validation forgets one of them and its repeat is refused |
| `ReplayCache.EntryStays` | auth/dpop_cache.go:27-61 | an accepted identifier stays remembered for the whole retention time |
| `ReplayCache.SingleAcceptance` | auth/dpop.go:133-167 | a proof accepted no earlier than its issue time plus the check latency is never accepted again |
| `ReplayCache.LateProofIsReplayable` | auth/dpop.go:133-167 | for every other proof, a run that accepts it twice |
| `ReplayCache.ReplayableExactlyWhenLate` | auth/dpop.go:133-167 | a proof can be accepted twice if and only if it is first accepted before issue time plus latency |
| `ReplayCache.AcceptedExactlyWhen` | auth/dpop.go:133-167 | accepted exactly if the checks hold, the proof is at most maximal age plus skew old and at most the skew from the future, and its identifier is not on record or just swept out for its age |
| `ReplayCache.DropsOnlyOld` | auth/dpop_cache.go:27-77 | an entry disappears only for its age, or as an oldest one of a cache full of younger entries |
| `ReplayCache.EntryWasAccepted` | auth/dpop_cache.go:27-53 | what is on record was accepted before, at the time on record |
| `ReplayCache.OnlyRepeatsAreRefused` | auth/dpop.go:133-167 | in every history a genuine proof in its window is refused only if its identifier was accepted before |
| `ReplayCache.Validator.constructor` | auth/dpop.go:41-52 | zero settings become 120 and 60 seconds, with room for 10000 identifiers |
| `ReplayCache.Validator.Cleanup` | auth/dpop_cache.go:55-61 | drops exactly the expired entries |
| `ReplayCache.Validator.EvictOldest` | auth/dpop_cache.go:63-77 | drops an entry no other is older than, unless the identifier it finds is empty |
| `ReplayCache.Validator.Check` | auth/dpop_cache.go:27-53 | refuses a remembered identifier and otherwise makes room and remembers it |
| `ReplayCache.Validator.ValidateProof` | auth/dpop.go:118-167 | accepts or reports a replay exactly for proofs whose checks hold, at most age plus skew old and at most the skew from the future; reports expiry exactly past age plus skew; touches the cache for no other |
| `GridFraming.ScanFrame` | device/grid_protocol.go:127-151 | a byte-by-byte reading yields one message for each frame and skips what is before it |
| `GridFraming.IndexByte` | device/grid_protocol.go:127-151 | finds the first position of a byte, or -1 |
| `GridFraming.ParseFrames` | device/grid_protocol.go:127-151 | the search for start and end bytes agrees with the byte-by-byte reading |
| `GridFraming.SplitAnywhere` | device/grid_protocol.go:127-151 | parsing in two pieces with the remainder carried over gives the messages of the whole |
| `GridFraming.ChunkingIrrelevant` | device/provider_serial_linux.go:251-256 | any division into reads gives the messages and remainder of the whole stream |
| `GridFraming.RoundTrip` | device/grid_protocol.go:69-75 | payloads between 0x02 and 0x03 with noise around them come back in order, raw and unwrapped, with nothing left over |
| `GridFraming.CutAtFirstEtx` | device/grid_protocol.go:127-151 | a payload holding the end byte comes back cut at its first occurrence |
| `GridFraming.FrameRoundTripsExactlyWithoutEtx` | device/grid_protocol.go:69-75 | a frame is 0x02, the payload and 0x03, and round-trips if and only if the payload has no 0x03 |
| `GridFraming.Connection.constructor` | device/provider_serial_linux.go:236-250 | a connection starts with nothing received |
| `GridFraming.Connection.OnRead` | device/provider_serial_linux.go:251-256 | after every read the messages delivered are those of all bytes received so far |
| `Midi.MasksAreRemainders` | device/midi_parse.go:29-40 | the masks take a status byte apart into kind and channel, and data to seven bits |
| `Midi.OrIsSum` | device/midi_parse.go:101 | or-ing disjoint bit ranges adds them |
| `Midi.PitchBendValue` | device/midi_parse.go:94-111 | a pitch bend is the signed 14-bit value, between -8192 and 8191 |
| `Midi.ParseTurn` | device/midi_parse.go:20-149 | one turn of the loop emits and consumes what the decoder defines |
| `Midi.ParseSysEx` | device/midi_parse.go:113-140 | collects a system exclusive message to its end, the next status byte or the buffer's end |
| `Midi.ParseBytes` | device/midi_parse.go:17-152 | the loop over a buffer computes the recursive decoder on its valid bytes |
| `Midi.SysExEnd` | device/midi_parse.go:116-132 | the index behind a SysEx: past its data, and past the terminator if that comes next |
| `Midi.SkipData` | device/midi_parse.go:118-120 | stops at the first byte that is not data |
| `Midi.MessageDecodes` | device/midi_parse.go:17-152 | both decoders turn one well-formed message into its events, then go on with the rest |
| `Midi.BothDecodersAgree` | device/provider_linux.go:783-918 | on every stream of well-formed messages both decoders give exactly the messages' events |
| `Midi.AgreeExactlyWhenWhole` | device/provider_linux.go:783-918 | on arbitrary bytes in which no channel pressure lacks its value, both decoders report the same events if and only if no turn starts at a fragment |
| `Midi.TurnAgrees` | device/provider_linux.go:783-918 | a turn at no fragment reports the same event in both decoders and leaves them at the same byte; stray data and status bytes inside data included |
| `Midi.FragmentDiffers` | device/midi_parse.go:33-140 | at every fragment the two results differ, whatever follows and whatever the buffer held |
| `Midi.CutOffDiffers` | device/provider_linux.go:807-867 | a two-byte message cut off after one data byte is dropped by one decoder and completed with a stale byte by the other |
| `Midi.OpenSysExDiffers` | device/provider_linux.go:880-890 | a SysEx cut off by the end is reported by one decoder and dropped by the other |
| `Midi.BrokenSysExDiffers` | device/provider_linux.go:880-905 | the status byte that breaks a SysEx, after any data, is left to be decoded by one decoder and swallowed by the other |
| `Midi.StolenStatusShifts` | device/midi_parse.go:91-92 | at a channel pressure without its value one decoder drops the next status byte and the other decodes from it |
| `Midi.StolenNoteDiffers` | device/midi_parse.go:91-92 | a note after such a pressure is lost to one decoder and heard by the other |
| `Midi.StolenNoteMayAgree` | device/midi_parse.go:91-92 | five bytes for which the results then still coincide |
| `Midi.Reader.constructor` | device/provider_linux.go:777-783 | a reader starts with a cleared three-byte buffer |
| `Midi.Reader.Fill` | device/provider_linux.go:783-918 | a read takes available bytes, fails only at the end and leaves the rest of the buffer stale |
| `Midi.Reader.CollectSysEx` | device/provider_linux.go:880-905 | reads through the first byte that is not data, which it includes |
| `Midi.Reader.OnePass` | device/provider_linux.go:783-918 | one pass emits and consumes what the stream reading defines |
| `Midi.Reader.ReadLoop` | device/provider_linux.go:777-919 | the loop computes the recursive stream reading |
| `Pagination.SextetsRoundTrip` | handler/pagination.go:36-48 | regrouping bytes into six-bit values and back is the identity |
| `Pagination.Base64RoundTrip` | handler/pagination.go:36-48 | unpadded URL base64 decodes to what was encoded |
| `Pagination.SpreadKeepsNumber` | handler/pagination.go:36-39 | four six-bit values are the same number as the three bytes they come from |
| `Pagination.FoobarText` | handler/pagination.go:36-39 | the long vector of section 10 of RFC 4648 |
| `Pagination.UrlText` | handler/pagination.go:36-39 | a short last group is unpadded and uses the URL alphabet |
| `Pagination.ScanFormatted` | handler/pagination.go:37-55 | scanning a formatted offset returns it, negative ones included |
| `Pagination.CursorRoundTrip` | handler/pagination.go:36-60 | a cursor decodes to its offset if that is not negative, and is refused otherwise |
| `Pagination.DefaultNextCursor` | handler/pagination.go:36-39 | the cursor of offset 50 as clients see it |
| `Pagination.ForeignCursorIsRefused` | handler/pagination.go:44-60 | a cursor is accepted only if it decodes to the tag and more |
| `Pagination.NextLeadsOn` | handler/pagination.go:88-99 | the next cursor starts where the page ended |
| `Pagination.PageThenNext` | handler/pagination.go:79-101 | a page is the slice at its start, and has a next cursor exactly when items remain |
| `Pagination.PageHoldsLimit` | handler/pagination.go:79-101 | a page holds the limit, or 50 if that is not positive, unless fewer items are left; it names the whole length, and its cursor is that of the next item |
| `Pagination.BadCursorStartsOver` | handler/pagination.go:79-90 | a malformed cursor and one past the end give the first page |
| `Pagination.CutCovers` | handler/pagination.go:70-75 | consecutive slices of the limit's size hold every item once, all but the last full |
| `Pagination.WalkCuts` | handler/pagination.go:70-101 | following next cursors ends, and produces exactly those slices |
| `Pagination.WalkCovers` | handler/pagination.go:70-101 | following next cursors from any cursor returns every item from its start, once and in order, in pages of the limit, or of 50 if that is not positive |
| `RateLimit.CallKeepsSound` | a2a/ratelimit_interceptor.go:156-173 | tokens stay between zero and burst; a call is admitted exactly if those there plus elapsed time × rate, capped at burst, come to one, and one is then taken |
| `RateLimit.TokensStayInRange` | a2a/ratelimit_interceptor.go:156-173 | tokens stay between zero and burst through any sequence of calls |
| `RateLimit.WindowBound` | a2a/ratelimit_interceptor.go:156-173 | any window admits at most burst + length × rate, whatever the calls |
| `RateLimit.BurstIsAdmitted` | a2a/ratelimit_interceptor.go:147-173 | a full bucket admits a whole burst |
| `RateLimit.SpacedCallsAreAdmitted` | a2a/ratelimit_interceptor.go:156-173 | calls whose distance times the rate is at least one are always admitted |
| `RateLimit.WithDefaults` | a2a/ratelimit_interceptor.go:27-38 | a positive rate and burst are taken as given; without them the rate is 10 and the burst 20 |
| `RateLimit.AgentsAreIsolated` | a2a/ratelimit_interceptor.go:42-69 | an agent's bucket and admissions depend only on its own calls since it got its bucket, by first use or by setting its rate |
| `RateLimit.PerAgentBound` | a2a/ratelimit_interceptor.go:42-69 | burst + length × rate bounds each agent with the rate and burst it has, in any mix of calls and rate changes of others |
| `RateLimit.TokenBucket.constructor` | a2a/ratelimit_interceptor.go:147-154 | a new bucket is full |
| `RateLimit.TokenBucket.Allow` | a2a/ratelimit_interceptor.go:156-173 | admits exactly if the tokens there plus elapsed time × rate, capped at burst, come to one, and takes one |
| `RateLimit.Interceptor.constructor` | a2a/ratelimit_interceptor.go:27-38 | starts with defaults applied and no bucket |
| `RateLimit.Interceptor.Allow` | a2a/ratelimit_interceptor.go:42-62 | charges the caller's own bucket, created on first use, and no other |
| `RateLimit.Interceptor.SetAgentRate` | a2a/ratelimit_interceptor.go:65-69 | gives one agent a new bucket of that rate and burst, full |
| `UsageTracker.SharesAddUp` | finops/tracker.go:31-48 | amounts grouped by label add up to the whole |
| `UsageTracker.BumpExtendsBreakdown` | finops/tracker.go:40-46 | adding an entry to its line gives the breakdown of the longer log |
| `UsageTracker.SummaryExtends` | finops/tracker.go:31-48 | one turn of the loop keeps the input total, the output total, the count and both breakdowns right |
| `UsageTracker.BreakdownAddsUp` | finops/tracker.go:31-48 | lines by tool, lines by category, and input plus output all equal the log's total |
| `UsageTracker.LinesByName` | finops/tracker.go:31-48 | there is a line for exactly the tools and the categories used, and it holds the tokens of their own entries |
| `UsageTracker.Tracker.constructor` | finops/tracker.go:14-20 | a tracker starts empty |
| `UsageTracker.Tracker.Record` | finops/tracker.go:23-28 | appends the entry and keeps the running total equal to the log's |
| `UsageTracker.Tracker.Summarise` | finops/tracker.go:31-48 | input total, output total, count and both breakdowns agree with the log, and the totals with the running total |
| `UsageTracker.Tracker.Reset` | finops/tracker.go:51-56 | forgets the log and the running total together |
| `UsageTracker.Tracker.Total` | finops/tracker.go:59-63 | the running total is the sum over the log |
| `BudgetGate.BoundAlongRun` | finops/scope.go:112-189 | recorded plus claimed tokens stay within the bound, plus what passed no global gate, in every reachable state |
| `BudgetGate.Overshoot` | finops/finops.go:69-110 | with at most k calls past a gate of at most m tokens each, the total never exceeds budget - 1 + k × m, for the global tracker plus what calls without a global gate recorded |
| `BudgetGate.UngatedExceedsAnything` | finops/scope.go:124-166 | a single scoped or unresolved call takes the global total to any height |
| `BudgetGate.GlobalBoundExactlyForGatedCalls` | finops/scope.go:124-166 | the global total stays within budget - 1 + k × m in all runs with calls of given kinds if and only if all of them pass the global gate |
| `BudgetGate.BalanceAlongRun` | finops/scope.go:165-189 | a scope's total plus what is recorded only globally equals the scope's share of the global log |
| `BudgetGate.Conservation` | finops/scope.go:165-189 | when no call is half recorded, the global total is the unscoped share plus all scope totals |
| `BudgetGate.Gate.constructor` | finops/scope.go:41-47 | a gate starts with empty trackers |
| `BudgetGate.Gate.Begin` | finops/scope.go:124-142 | admits a call exactly when the gate of its own tracker is open: a plain one exactly if there is no positive budget or the tokens counted are below it |
| `BudgetGate.GlobalTotalIsRecorded` | finops/finops.go:101-110 | along every run the global total is the tokens of all entries recorded |
| `BudgetGate.PlainRejectedExactlyWhen` | finops/finops.go:75-86 | along every run a plain call is rejected exactly if there is a positive budget and what was recorded has reached it |
| `BudgetGate.ScopedRejectedExactlyWhen` | finops/scope.go:124-142 | along every run a scoped call is rejected exactly if its scope has a positive budget that its tracker has reached; unresolved ones never |
| `BudgetGate.Gate.EndGlobal` | finops/finops.go:101-110 | performs the global record of a running call |
| `BudgetGate.Gate.EndScoped` | finops/scope.go:168-189 | performs the scoped record and reports whether the budget is now exceeded |
| `BudgetEnforcement.AscendingIsSorted` | finops/enforcement.go:209-212 | thresholds are visited in ascending order |
| `BudgetEnforcement.FireOneEffect` | finops/enforcement.go:202-238 | one threshold fires exactly if reached and not fired before |
| `BudgetEnforcement.FireKeepsInv` | finops/enforcement.go:202-238 | firing keeps the log free of repeats, in threshold order and only of thresholds reached |
| `BudgetEnforcement.RecordMakesExact` | finops/enforcement.go:134-155 | after a recorded cost the alerts are exactly the thresholds reached |
| `BudgetEnforcement.AlertsExact` | finops/enforcement.go:80-238 | along every run of calls that do not overlap each alert is given once and in order, and after a cost exactly those due have been given |
| `BudgetEnforcement.StateTellsTheRun` | finops/enforcement.go:80-155 | along every run the cost is the sum of what was recorded, and the policies are those that were added |
| `BudgetEnforcement.AlertedExactlyWhen` | finops/enforcement.go:134-238 | after a recording an alert has been sent exactly if what was recorded comes to threshold times limit for an added policy with that threshold |
| `BudgetEnforcement.AlertTellsItsCost` | finops/enforcement.go:202-238 | no alert is taken back, and a new one names an added policy, its limit, one of its thresholds, and as cost all that was recorded |
| `BudgetEnforcement.CheckAlertsUpToBlock` | finops/enforcement.go:96-130 | after a check every threshold that the cost has reached was alerted, for each policy with no blocking one before it |
| `BudgetEnforcement.SilentWithoutCallback` | finops/enforcement.go:202-206 | without a callback nothing is sent or marked, and a recording only adds to the cost |
| `BudgetEnforcement.AddKeepsLogExactlyForNewNames` | finops/enforcement.go:80-91 | adding a policy keeps fired marks in line with the alerts sent if and only if no alert was sent under its name |
| `BudgetEnforcement.ReaddedNameAlertsAgain` | finops/enforcement.go:80-91 | a policy added under a name whose alert was sent has it sent again by the next recording, even of nothing |
| `BudgetEnforcement.VerdictGeneral` | finops/enforcement.go:96-130 | any exceeded blocking policy blocks, else any exceeded downgrading one downgrades |
| `BudgetEnforcement.VerdictIgnoresOrder` | finops/enforcement.go:96-130 | the verdict does not depend on the order of the policies |
| `BudgetEnforcement.VerdictExactlyWhen` | finops/enforcement.go:96-130 | a check blocks exactly from the positive limit of a blocking policy on, the limit itself included, and otherwise downgrades exactly from that of a downgrading one on |
| `BudgetEnforcement.VisitedUntilBlocked` | finops/enforcement.go:96-130 | a check goes through the policies in order, up to and including the first that blocks |
| `BudgetEnforcement.RemainingZeroExactlyWhen` | finops/enforcement.go:167-190 | nothing remains exactly without policies, at the first limit, or at another positive limit |
| `BudgetEnforcement.RemainingZeroWhenPositive` | finops/enforcement.go:167-190 | with positive limits, nothing remains if and only if some limit is reached |
| `BudgetEnforcement.RemainingIsTightest` | finops/enforcement.go:167-190 | what remains is measured against the least of the first limit and all positive ones, down to zero |
| `BudgetEnforcement.UnlimitedFirstPolicyHidesBudget` | finops/enforcement.go:167-190 | limits 0 and 10 at cost 1 report nothing left, and nine in the other order |
| `BudgetEnforcement.Enforcer.constructor` | finops/enforcement.go:67-77 | an enforcer starts without policies, cost or alerts |
| `BudgetEnforcement.Enforcer.AddOne` | finops/enforcement.go:80-91 | appends the policy and clears the fired marks of its name |
| `BudgetEnforcement.Enforcer.FireAlerts` | finops/enforcement.go:202-238 | the loop over thresholds performs the specified firing |
| `BudgetEnforcement.Enforcer.Record` | finops/enforcement.go:134-155 | adds the cost and fires for every policy |
| `BudgetEnforcement.Enforcer.Evaluate` | finops/enforcement.go:96-130 | the early-exit loop computes the verdict, which blocks exactly from the limit of a blocking policy on, and fires for the policies it visits |
| `BudgetEnforcement.Enforcer.RemainingBudget` | finops/enforcement.go:167-190 | the loop computes what remains under the tightest limit it considers |
| `BudgetAlerts.StepKeepsInv` | finops/enforcement.go:134-238 | adding, reading, marking and calling back, interleaved at will, keep every marked threshold in one place and every reached one marked or awaited |
| `BudgetAlerts.AlertedAtMostOnce` | finops/enforcement.go:202-238 | in every interleaving no alert is given twice and none before its threshold is reached |
| `BudgetAlerts.ExactWhenQuiet` | finops/enforcement.go:134-155 | whenever no call is in progress, the alerts of a policy that a recording has seen are exactly its reached thresholds |
| `BudgetAlerts.GivenExactlyWhen` | finops/enforcement.go:134-238 | however calls overlapped, once none is in progress an alert has been given exactly if all that was recorded comes to threshold times limit, for every policy added before some recording read the total |
| `BudgetAlerts.AlertsAreTruthful` | finops/enforcement.go:202-238 | in every interleaving an alert names an added policy, its limit, one of its thresholds, and a cost that comes to threshold times limit and is covered by what was recorded |
| `BudgetAlerts.CheckLooksUpToBlock` | finops/enforcement.go:96-130 | a check looks at exactly the thresholds of limited policies up to the first that blocks |
| `BudgetAlerts.CallProceeds` | finops/enforcement.go:134-238 | a call that is not done can always go on and has boundedly many steps left |
| `BudgetAlerts.MarkedFromTheLowest` | finops/enforcement.go:209-226 | in every interleaving, with every marked threshold all lower ones of its policy are marked |
| `BudgetAlerts.AlertsAscendExactlyWithoutOverlap` | finops/enforcement.go:209-235 | in all runs the alerts of a policy are given in ascending order if and only if calls do not overlap |
| `BudgetAlerts.OverlapReversesAlerts` | finops/enforcement.go:214-235 | a run of two overlapping calls that gives a higher threshold before a lower one |

## Left out

- Dispatchers.Dispatcher.Submit: does not model the choice of priority and group by configuration functions, or a caller that stops waiting; both happen outside the lock and do not touch the queue.
- Dispatchers.Dispatcher.Shutdown: does not model the context deadline on the wait; the drain itself is proved.
- Dispatcher statistics counters and a handler that panics.
- ConsistentHash.NearestUnique: assumes that the virtual nodes' hashes do not collide, because CRC-32 is a parameter here; `Locate` itself assumes nothing.
- Affinity.AddMovesOnlyToNewcomer: assumes collision-free hashes, as `NearestUnique` does.
- Affinity.RemoveMovesOnlyItsOwn: assumes collision-free hashes, as `NearestUnique` does.
- Affinity.ReplacingMovesOnlyWhatItMust: assumes collision-free hashes, as `NearestUnique` does.
- MirrorGroups.Canonicalizer.constructor: the parity manifest of each repository is given as data; the rest of the scorer is not modelled.
- FanOut.JoinResult: merge functions, durations and a stage that panics are not modelled.
- Federation.Gateway.DiscoverPeer: one discovery is one step, so interleaving inside it is not modelled; tool descriptions, the polling loop and shutdown are not either.
- Federation.CatalogTheorem: assumes that no listed tool has the name of a local one or of another peer's; `LocalIsOverwritten` and `SharedNameIsLost` show what happens otherwise.
- Federation.NamespaceOfUrl: gives the value for endpoints with a protocol; after "https://" a further "http://" is stripped too, so a host that reads "http:" is excepted.
- TaskReports.ReportsInOrderExactlyWhen: orders the notify calls; each of them hands its requests to further goroutines, whose arrival at the receiver is not modelled.
- TaskLifecycle.TranscriptExact: counts messages against what was sent, since a client may itself send messages in the agent's role.
- A2A request parsing, the choice of the best tool (an answer given to the model), refusal of requests without identifiers, task listing, push URL checks and the delivery of notifications over HTTP.
- ReplayCache.SingleAcceptance: assumes that fewer identifiers are live than the cache holds and that clock readings do not go back; beyond that capacity the source evicts live entries by design.
- ReplayCache.Validator.ValidateProof: format, key, signature, method and URI checks are one boolean and token hash and nonce another, since they do not touch the cache.
- Midi.Reader.Fill: a read returns fewer bytes than asked only at the end of the stream.
- MIDI event timestamps, source labels and normalised values; the grid text protocol inside a frame.
- Pagination.WalkCovers: covers result sets up to the largest 64-bit integer; overflow of offset plus limit is not modelled, and scanning treats only plain blanks as white space.
- RateLimit.WindowBound: uses real numbers, so floating-point rounding is not modelled.
- RateLimit.PerAgentBound: counts an agent's calls since its rate was last set, since setting it refills the bucket.
- BudgetGate.Overshoot: budgets are fixed during a run.
- BudgetAlerts.ExactWhenQuiet: assumes distinct policy names and costs that are not negative; a policy added since the total was last read by a recording is excepted, because nothing has looked at it.
- BudgetEnforcement.AlertsExact: takes each call as one step, with `BudgetAlerts` for overlapping calls; policies have distinct names (two lemmas say what a reused name does), costs are not negative and a callback is set; an external cost tracker is not modelled.
- Dollar budgets, cost policies, usage windows and the enforcement middleware around the enforcer.
- Integer widths of counters and totals, which are unbounded here.
- All other packages: HTTP transports, OAuth flows, registries, workflow graphs, prompts, device drivers and the command-line tools would add mostly input and output.
