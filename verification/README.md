# The Inferna control plane, modelled and proved

Inferna's control plane decides where model replicas run, tells workers what to start and stop, routes
requests to replicas, accounts for usage and scales deployments. This project models those decisions in Dafny
and proves what they keep over whole runs, for every input.

Each module follows one source file. Code that changes rows, dictionaries or buffers step by step is a class or
a method with loops, proved against a specification function or predicate; the properties are then lemmas about
that specification, and the operations say what they do to rows and columns besides, without naming the functions
they compute with. Runs are sequences of states related by a `Next` predicate: every `await` outside a lock is a
point where another step may come in between, and a database transaction is one step.

| file | module | models |
|---|---|---|
| `common.dfy`, `models.dfy` | `Common`, `Sets`, `Sorting`, `Models` | identifiers, a stable sort, the rows |
| `scheduler.dfy` | `Scheduler` | single-node allocation in three anti-affinity passes |
| `parallel.dfy`, `rendezvous.dfy` | `ParallelScheduler`, `Rendezvous` | group placement, the rendezvous text |
| `manual.dfy` | `ManualScheduler` | allocation on GPUs the user names |
| `placement.dfy` | `PlacementRuns` | what stays true of the instance table over runs: ports, rendezvous ports, hosts |
| `vram.dfy` | `Vram` | GPU memory over the same runs |
| `restarts.dfy` | `RestartRuns` | three runs that a restart spoils |
| `instances.dfy` | `Instances` | deploy, stop, restart and delete |
| `scaling.dfy` | `Scaling` | `apply_scale` |
| `workers_svc.dfy`, `manager.dfy`, `protocol.dfy` | `WorkersSvc`, `Manager`, `Protocol` | the desired-state protocol, server, worker and both together |
| `registration.dfy` | `Registration` | identity of registering workers |
| `gateway.dfy`, `prefix_cache.dfy` | `Gateway`, `PrefixCache` | routing slots, prefix residency |
| `usage.dfy` | `Usage` | usage buffer, flushes, quota |
| `autoscaling.dfy` | `Autoscaling` | quantile, policy, cooldown |
| `migration.dfy` | `Migration` | worker deduplication and port repair |

## What is proved, and where the code does something else

* **Allocation.** The three passes place `count` replicas exactly when any placement could, overcommit no GPU,
  and reach as many fresh hosts and fresh GPUs as any placement of the same size. The group allocator succeeds
  exactly when a group exists and its head's host has ports left, and no other group is heavier or has a larger
  minimum.
* **Placement over runs.** A run starts from an empty table; its steps are deploys and scale-outs as the three
  allocators grant them, changes in place (stops, restarts, status reports), which the unique index may refuse,
  and deletes. Active (worker, port) pairs, rendezvous ports of active heads, one rank per host and the
  consistency of groups hold over the whole run exactly when no step makes a head active again whose instance
  port is free while its rendezvous port is not (`RunWellPlacedIff`). The port alone is protected by the index
  and is free exactly as `ChangeKeepsPortsIff` says (`RestartTakesPort` is a run in which the index has to
  refuse); the rendezvous port is protected by nothing, and `RestartTakesRendezvous` is a run in which a restart
  commits and two active heads of one host share it.
* **GPU memory over runs.** No GPU is ever overcommitted exactly when no row goes live again where the room it
  gave up is taken (`RunWithinVramIff`); allocation, scaling, stops and deletes never overcommit one.
  `RestartOverfills` is a run in which a restarted instance does.
* **Protocol.** Convergence from any rows and any registry, generation safety, and coalescing that drops only
  superseded commands. A comment in `_apply_batch` says starts keep the server's order; they are sorted by
  tracked rank too, and `StartsKeepOrderIff` says when the order survives. After a worker restart ranks are
  unknown, so the teardown order is only the one in which commands were sent (`RestartForgetsRanks`). A row that
  is wanted stopped while its instance is in error calls for no command; `NoCommandsIffSettled` counts it as
  settled.
* **Scaling.** Exactly the target afterwards, units stopped whole, the rest untouched, repetition a no-op. A
  wanted unit with a member observed `stopped` is neither serving, pending nor broken and stays on top of the
  target (`OverlookedOnTop`). A failed allocation leaves the session changed but with whole units only
  (`AbandonedKeepsUnits`), which matters because the autoscaler goes on with that session.
* **Autoscaler.** Its module documentation says a tick moves at most one replica. The policy counts wanted units
  and proposes one more or one fewer; `apply_scale` clamps the proposal to the window and counts capacity. So a
  tick starts one unit more per broken or overlooked one, and several at once when the wanted units lie outside
  the window, which stops and restarts do not look at. `TickMoves` gives both numbers for every deployment and
  says in each direction exactly when they are at most one; `OutsideTheWindow` shows the two ways out of the
  window. A scale that fails leaves its changes in the session, and the next deployment that scales successfully
  in the same tick commits them (`FailedScaleCommitted`). With a fixed signal the policy settles exactly when the
  signal is not busy and idle at once; such a signal exists exactly when the scale-down ratio is above 1
  (`PolicyConverges`, `TornIffRatio`).
* **Quantiles.** The server and the bench compute the same p95 exactly when there are no more counts than buckets
  or nothing was observed beyond the listed ones (`CopiesAgreeIff`).
* **Quota and usage.** Nothing accepted is lost or counted twice, and a user below both limits is never rejected.
  A failed flush can take the buffer over its limit (`BufferBound`); `FailedFlushOverfills` is such a run.

## Model

| member | source | states |
|---|---|---|
| Scheduler.GpuUsage | server/inferna_server/services/scheduler.py:43-48 | the VRAM each GPU index is charged, summed over all rows and repeated indexes |
| Scheduler.AllocPort | server/inferna_server/services/scheduler.py:51-57 | the lowest port of the range that no reserved row holds and this call has not handed out; none only if every free one was handed out |
| Scheduler.ConnectedAre | server/inferna_server/services/scheduler.py:60-67 | the workers considered are exactly the connected ones of the cluster, by name |
| Scheduler.NameLeqIff | server/inferna_server/services/scheduler.py:65 | names are ordered by their first difference, a beginning first |
| Scheduler.LoadIsUsage | server/inferna_server/services/scheduler.py:24-48 | the load of a GPU, summed over all rows, is what the allocators subtract from its VRAM |
| Scheduler.ScanIs | server/inferna_server/services/scheduler.py:157-182 | the scan shows exactly the GPUs of a vendor the engine supports on these workers, each with its VRAM less the live rows' claims |
| Scheduler.ScanOrder | server/inferna_server/services/scheduler.py:171-182 | worker by worker, and each worker's GPUs in their order |
| Scheduler.PickIsBestFit | server/inferna_server/services/scheduler.py:169-195 | the strongest pass with a candidate wins; in it the least sufficient free VRAM, first in scan order; nothing only if nothing fits |
| Scheduler.PlanSize | server/inferna_server/services/scheduler.py:184-204 | the loop places min(count, sum of what each GPU holds) replicas, each fitting in what earlier ones left |
| Scheduler.AllocationComplete | server/inferna_server/services/scheduler.py:184-204 | all replicas are placed iff any placement of that many exists, iff count is within the capacity |
| Scheduler.SpreadsOverWorkers | server/inferna_server/services/scheduler.py:186-201 | exactly min(placed, fitting fresh hosts) unused hosts are used |
| Scheduler.SpreadsOverGpus | server/inferna_server/services/scheduler.py:186-201 | exactly min(placed, fitting fresh GPUs) unused GPUs are used |
| Scheduler.NoPlacementSpreadsWider | server/inferna_server/services/scheduler.py:149-151 | no valid placement of the same count reaches more fresh hosts or GPUs |
| Scheduler.RescanSeesDrain | server/inferna_server/services/scheduler.py:165-168 | scanning the database again after inserting the rows shows the VRAM the loop had planned |
| Scheduler.AllocationSafe | server/inferna_server/services/scheduler.py:175-182 | afterwards no chosen GPU has negative free VRAM and no other GPU changed |
| Scheduler.PlaceAll | server/inferna_server/services/scheduler.py:166-204 | the loop returns the plan, each replica on the lowest port its host has free and the call has not handed out, or the first replica without a GPU, or a host without a free port |
| Scheduler.PlannedSpread | server/inferna_server/services/scheduler.py:149-204 | in rows: replicas are on usable GPUs and reach min(count, open) hosts and GPUs of those with room that were not used |
| Scheduler.AllocateReplicas | server/inferna_server/services/scheduler.py:141-204 | no workers iff none of the cluster is connected; replicas only on usable GPUs, spread over as many unused hosts and GPUs as possible; with enough ports success iff count is within the capacity |
| ParallelScheduler.LargestIsLargest | server/inferna_server/services/scheduler.py:258-272 | a host offers its largest fitting GPU of a supported vendor, or has none that fits |
| ParallelScheduler.FittingAre | server/inferna_server/services/scheduler.py:258-309 | the fitting hosts are exactly the eligible workers with a usable GPU that has room, each with its roomiest GPU, the first on ties, and that GPU's free VRAM |
| ParallelScheduler.FeasibleIff | server/inferna_server/services/scheduler.py:311-324 | a group of n hosts with an addressed member exists iff an addressed host fits and at least n hosts fit |
| ParallelScheduler.ChosenIsGroup | server/inferna_server/services/scheduler.py:330-332 | the chosen hosts are n different ones, the head addressed |
| ParallelScheduler.ChosenOptimal | server/inferna_server/services/scheduler.py:326-332 | no other group has more free VRAM in total or a larger minimum |
| ParallelScheduler.GroupExistsIff | server/inferna_server/services/scheduler.py:311-324 | the same over GPUs: offered GPUs on n different hosts, one of them addressed, exist iff the allocator finds them |
| ParallelScheduler.RanksAreBest | server/inferna_server/services/scheduler.py:326-347 | the free VRAM of the ranks' GPUs is at least that of any n offered GPUs on different hosts with an addressed one, in total and in its minimum; the head is ahead of all that could lead, the others ahead of all hosts not taken, by free VRAM and then name |
| ParallelScheduler.AllocateParallelReplicas | server/inferna_server/services/scheduler.py:275-347 | it fails exactly for want of connected workers, of free ones, of a group of offered GPUs, or of a port of the head's host; otherwise the ranks sit on the best group, with the lowest free ports on the head only |
| ManualScheduler.AscendingIsSortedSet | server/inferna_server/services/scheduler.py:138 | the granted list holds every named index once, in ascending order |
| ManualScheduler.CheckGpus | server/inferna_server/services/scheduler.py:115-134 | nothing is objected to iff every named GPU exists, is supported and has room; otherwise the kind of the objection and a GPU it is true of |
| ManualScheduler.AllocateManual | server/inferna_server/services/scheduler.py:95-138 | succeeds iff the named worker is connected, in the cluster, accepts all named GPUs and has a port; then the lowest free port |
| Rendezvous.EncodeDecode | server/inferna_server/services/scaling.py:118-122 | the text written for a group is read back as exactly its host and port, by the ranks and by the scheduler |
| Rendezvous.DigitAt | server/inferna_server/services/scaling.py:118-122 | the port is written in decimal |
| PlacementRuns.AllocatorGrants | server/inferna_server/services/scheduler.py:334-347 | what the group allocator returns meets what the run invariant needs |
| PlacementRuns.GroupDecodes | server/inferna_server/services/workers_svc.py:59-90 | every rank of a created group decodes its own rank, the group's size and the head's address |
| PlacementRuns.ReplicasFit | server/inferna_server/api/instances.py:155-176 | new replicas on granted ports keep all placement invariants |
| PlacementRuns.GroupFits | server/inferna_server/api/instances.py:111-143 | so does a new group, including one rank per host of a deployment |
| PlacementRuns.UpdatesFit | server/inferna_server/services/scheduler.py:18-21 | so does any change that makes no released row reserved again |
| PlacementRuns.ChangeKeepsPortsIff | server/inferna_server/api/instances.py:232-235 | a change in place keeps active ports unique iff the row is released, or still held its port, or nobody took it |
| PlacementRuns.ChangeFitsIff | server/inferna_server/api/instances.py:232-235 | it keeps all placement invariants iff, besides, nobody active took the rendezvous port of a revived head |
| PlacementRuns.RunWellPlaced | server/inferna_server/services/scheduler.py:18-21 | over any run up to a step that takes a rendezvous port: active (worker, port) pairs unique, active heads' rendezvous ports distinct per host, groups consistent, one rank of a deployment per host |
| PlacementRuns.RunWellPlacedIff | server/inferna_server/services/scheduler.py:18-21 | all of it holds at every table of a run iff no step takes a rendezvous port |
| PlacementRuns.RendezvousClearOfInstances | server/inferna_server/services/scheduler.py:242-255 | with disjoint ranges no instance port is a head's rendezvous port |
| Vram.ReplicasWithin | server/inferna_server/services/scheduler.py:166-204 | planned replicas overcommit no GPU |
| Vram.ManualWithin | server/inferna_server/services/scheduler.py:128-138 | nor does a manual selection, each named GPU charged once |
| Vram.GroupWithin | server/inferna_server/services/scheduler.py:258-272 | nor do the ranks of a group, on different hosts |
| Vram.ChangeWithinIff | server/inferna_server/services/workers_svc.py:310-315 | a change keeps every GPU within its VRAM iff the row does not go live where there is no room for it |
| Vram.RunWithinVram | server/inferna_server/services/scheduler.py:24-30 | over any run up to a step that overfills a GPU none is overcommitted |
| Vram.RunWithinVramIff | server/inferna_server/services/scheduler.py:24-30 | no table of a run overcommits a GPU iff no row goes live again without room |
| RestartRuns.RestartTakesPort | server/inferna_server/api/instances.py:214-239 | a run after which a restart would leave two active rows on one port |
| RestartRuns.RestartTakesRendezvous | server/inferna_server/api/instances.py:232-235 | a run whose last restart finds its port free, commits, and leaves two active heads of a host on one rendezvous port |
| RestartRuns.RestartOverfills | server/inferna_server/api/instances.py:232-235 | a run in which a restarted instance overcommits its GPU |
| Instances.InstanceTable.Deploy | server/inferna_server/api/instances.py:64-183 | when each check refuses; otherwise, for a group, a manual selection and replicas, exactly when it succeeds; all instances or none, as one step of the runs above |
| Instances.InstanceTable.DeployManual | server/inferna_server/api/instances.py:144-154 | one instance on exactly the named GPUs, iff the named worker takes it |
| Instances.InstanceTable.DeployReplicas | server/inferna_server/api/instances.py:155-179 | replicas are exactly what the allocator plans on an empty set of used GPUs |
| Instances.InstanceTable.Stop | server/inferna_server/api/instances.py:184-211 | the row is stopped with its generation raised, once; a step of the runs above |
| Instances.InstanceTable.Restart | server/inferna_server/api/instances.py:214-239 | the index lets it commit iff the port is still free; a commit keeps the placement invariants iff a head's rendezvous port is free too; a step of the runs above |
| Instances.InstanceTable.Delete | server/inferna_server/api/instances.py:242-262 | one row goes, and the deployment with the last one |
| Instances.StopIsProtocolStep | server/inferna_server/api/instances.py:202-206 | a stop is the protocol's stop step |
| Scaling.Deployment.ReplicaUnits | server/inferna_server/services/scaling.py:31-38 | the unit keys in dictionary order |
| Scaling.KeysInOrder | server/inferna_server/services/scaling.py:31-38 | which is the order of the units' first rows |
| Scaling.Deployment.StopUnits | server/inferna_server/services/scaling.py:90-94 | every row of the units is stopped with its generation raised once, no other row changes |
| Scaling.Deployment.GrowGroups | server/inferna_server/services/scaling.py:107-144 | whole groups only, each as the allocator plans it on hosts the deployment is not on; all of them, or those before the first for which no group is possible; invariants kept |
| Scaling.HeldIs | server/inferna_server/services/scaling.py:97-105 | the GPUs kept apart from are those listed by rows of wanted instances that serve or come up |
| Scaling.Deployment.ApplyScale | server/inferna_server/services/scaling.py:41-202 | clamping, the outcome of success, of a failed allocation, which was impossible, and of a rejected commit; new replicas reach as many hosts and GPUs not held before as they can, new groups are the allocator's; placement invariants and the bound on GPU memory kept in all cases |
| Scaling.StopsInOrder | server/inferna_server/services/scaling.py:173-182 | no serving unit is stopped while a pending one is kept, and within each kind the unit with the oldest row goes first |
| Scaling.ScaledExactly | server/inferna_server/services/scaling.py:77-95 | afterwards serving plus pending units are the target and no wanted unit holds a failed member |
| Scaling.ReplicatedSafely | server/inferna_server/services/scaling.py:145-168 | single-node replicas added by a scale overcommit no GPU |
| Scaling.OverlookedOnTop | server/inferna_server/services/scaling.py:77-84 | wanted units are the target plus those with a stopped and no failed member |
| Scaling.ScaledTwice | server/inferna_server/services/scaling.py:95-97 | repeating the call changes no instance |
| Scaling.AbandonedKeepsUnits | server/inferna_server/services/autoscaling.py:226-231 | after a failed allocation: too few units, none broken, none on track stopped |
| WorkersSvc.SyncServer.SyncWorker | server/inferna_server/services/workers_svc.py:310-375 | each reported row of this worker has the state and detail of the last report about it and the last port reported, every other row is unchanged, and the commands sent are exactly those the rows then call for |
| WorkersSvc.CommandsAreSent | server/inferna_server/services/workers_svc.py:335-375 | in columns: who is started, with which generation, port and topology, who is stopped and who is deleted |
| WorkersSvc.RefreshKeepsIdentity | server/inferna_server/services/workers_svc.py:310-319 | reports never touch desired state, generation or assignment |
| WorkersSvc.CommandsAreDue | server/inferna_server/services/workers_svc.py:336-372 | a Sync answers exactly the commands that are due, at most one per instance |
| WorkersSvc.NoCommandsIffSettled | server/inferna_server/services/workers_svc.py:336-372 | no commands iff every row is satisfied and every tracked id is assigned here |
| Manager.InstanceManager.Reconcile | worker/inferna_worker/engines/manager.py:158-165 | start an ordered batch, or coalesce behind the running one |
| Manager.InstanceManager.ReconcileMock | worker/inferna_worker/engines/manager.py:146-157 | mock mode applies every command at once: what each instance is tracked as afterwards |
| Manager.InstanceManager.ApplyNext | worker/inferna_worker/engines/manager.py:179-193 | one command of the batch is applied: every other instance keeps its entry, and what becomes of the one it names |
| Manager.InstanceManager.FinishBatch | worker/inferna_worker/engines/manager.py:198-203 | the coalesced commands become the next batch |
| Manager.InstanceManager.Statuses | worker/inferna_worker/engines/manager.py:582-609 | one report per tracked instance |
| Manager.TeardownOrder | worker/inferna_worker/engines/manager.py:168-177 | a batch applies every command once, starts first, and no teardown before one of a higher tracked rank |
| Manager.StartsKeepOrderIff | worker/inferna_worker/engines/manager.py:169-177 | starts keep the server's order iff tracked ranks do not increase along it |
| Manager.StartsReordered | worker/inferna_worker/engines/manager.py:172-177 | a batch of starts for tracked ranks, with their topologies, that is reordered |
| Manager.PutAllKeepsLast | worker/inferna_worker/engines/manager.py:159-161 | coalescing keeps the last command per instance |
| Manager.PutKeepsPlace | worker/inferna_worker/engines/manager.py:159-161 | in the place of the one it replaces |
| Protocol.SyncAnswers | server/inferna_server/services/workers_svc.py:335-375 | what sync_worker computes is, instance by instance, what the protocol steps assume |
| Protocol.PlacesStep | worker/inferna_worker/engines/manager.py:143-203 | where an instance's command is after each step |
| Protocol.GenerationSafety | worker/inferna_worker/engines/manager.py:322-345 | over any run the worker's generation never exceeds the row's, and never falls while tracked except at a worker restart |
| Protocol.RestartForgetsRanks | worker/inferna_worker/engines/manager.py:82-137 | after adopting containers teardowns run in the order they were sent |
| Protocol.LastReceivedIsLastApplied | worker/inferna_worker/engines/manager.py:158-203 | over any run, whenever no batch runs, the last command received per instance is the last applied |
| Protocol.Converges | server/inferna_server/services/workers_svc.py:335-372 | from any rows and registry, one delivered Sync and an idle worker again: the next Sync says nothing |
| Protocol.BacklogShrinks | worker/inferna_worker/engines/manager.py:179-203 | applying shortens the backlog, so the worker does become idle |
| Protocol.MockConverges | worker/inferna_worker/engines/manager.py:146-157 | the mock engine settles in one round |
| Registration.Workers.Register | server/inferna_server/services/workers_svc.py:139-239 | the machine's row first, then the one with its name, then a new one; that row's columns afterwards, all others unchanged; the commit never fails sequentially |
| Registration.RunKeepsKeys | server/inferna_server/services/workers_svc.py:141-144 | over any run of registrations and Syncs both keys stay unique, each answer's row carries the requested hostname, and a Sync is refused iff its hostname is taken |
| Registration.RegisterAgain | server/inferna_server/services/workers_svc.py:197-217 | repeating a registration finds the same row and changes nothing |
| Registration.SyncHostnameIff | server/inferna_server/services/workers_svc.py:262 | a Sync's hostname keeps the keys unique iff no other worker of the cluster has it |
| Gateway.Router.Reserve | server/inferna_server/api/gateway.py:408-434 | the row with the longest overlap, then least loaded, least recent and oldest is stamped and reserved; an unroutable one is refused without a reservation |
| Gateway.Router.Release | server/inferna_server/api/gateway.py:674-683 | the count goes down by one and disappears at zero |
| Gateway.SlotsAccounted | server/inferna_server/api/gateway.py:742-807 | in every interleaving counts equal holders, slots are released exactly once, and nothing is left when all requests are done |
| Gateway.FairRotation | server/inferna_server/api/gateway.py:417-431 | n consecutive sequential requests over n candidates go to n instances |
| Gateway.ArrivalsStayLevel | server/inferna_server/api/gateway.py:417-433 | from idle, arrivals keep active counts within one of each other |
| PrefixCache.Blocks | server/inferna_server/services/prefix_cache.py:53-69 | the chained digests of the text's blocks |
| PrefixCache.ChunksAre | server/inferna_server/services/prefix_cache.py:62-66 | how many blocks a text has, and the characters of each |
| PrefixCache.RunIsCommonPrefix | server/inferna_server/services/prefix_cache.py:111-115 | the leading run in a set of chained digests is the longest common prefix of the block lists |
| PrefixCache.OverlapMeansSamePrefix | server/inferna_server/services/prefix_cache.py:56-58 | overlap k: the texts agree on k blocks, and the next blocks differ |
| PrefixCache.PrefixCacheIndex.Record | server/inferna_server/services/prefix_cache.py:91-96 | appends to the bounded ring of the instance |
| PrefixCache.PrefixCacheIndex.Overlap | server/inferna_server/services/prefix_cache.py:98-120 | the longest leading run in what is left after expiry |
| PrefixCache.PrefixCacheIndex.BestInstance | server/inferna_server/services/prefix_cache.py:122-133 | the first candidate with the largest overlap, none when all are zero |
| PrefixCache.UnexpiredRunIsMaximum | server/inferna_server/services/prefix_cache.py:109-120 | the reference answer is a maximum over exactly the unexpired entries |
| PrefixCache.RingIsSuffix | server/inferna_server/services/prefix_cache.py:91-110 | the ring is a suffix of the history, bounded, with every unexpired entry of the last N |
| PrefixCache.RingAnswersHistory | server/inferna_server/services/prefix_cache.py:98-120 | after any records and overlaps the ring's answer is the one from the full history |
| Usage.Meter.RecordRequest | server/inferna_server/services/usage.py:80-106 | adds one request with its non-negative measurements under its key, or drops a new key when the buffer is full |
| Usage.RecordTotals | server/inferna_server/services/usage.py:170-186 | a request counts for exactly its user's day, its input and output as tokens |
| Usage.Fold | server/inferna_server/services/usage.py:127-156 | adds a batch into rows key by key |
| Usage.Meter.BeginFlush | server/inferna_server/services/usage.py:120-123 | the whole buffer is swapped out, or nothing happens |
| Usage.Meter.CommitFlush | server/inferna_server/services/usage.py:126-157 | every aggregate of the batch is in its row |
| Usage.Meter.FailFlush | server/inferna_server/services/usage.py:158-166 | the swapped-out aggregates return to the buffer |
| Usage.Meter.UsageToday | server/inferna_server/services/usage.py:170-186 | stored sums plus the user's share of the buffer |
| Usage.UsageConserved | server/inferna_server/services/usage.py:120-167 | over every interleaving accepted events are in rows, batch or buffer, once |
| Usage.MeasuredAtMostTrue | server/inferna_server/services/usage.py:170-186 | what is measured never exceeds the truth, and when it is equal |
| Usage.ExactWithoutFlush | server/inferna_server/services/usage.py:170-186 | it is exact when no flush overlaps |
| Usage.QuotaNeverTooStrict | server/inferna_server/services/usage.py:189-198 | a user below both limits is never rejected; without an overlapping flush exactly the others are |
| Usage.BufferBound | server/inferna_server/services/usage.py:96-100 | the buffer stays within its limit iff a step is not a failed flush with too many keys together |
| Usage.FailedFlushOverfills | server/inferna_server/services/usage.py:158-166 | a run from an empty meter in which a failed flush leaves the buffer over its limit |
| Autoscaling.HistP95 | server/inferna_server/services/autoscaling.py:53-72 | the interpolated quantile in milliseconds, none without observations |
| Autoscaling.BenchHistP95 | bench/bench/metrics.py:35-57 | the bench copy, with the total taken from the pairs |
| Autoscaling.QuantileInBucket | server/inferna_server/services/autoscaling.py:61-71 | the quantile lies in the bucket where 95 % is first reached; the other two returns are unreachable |
| Autoscaling.QuantileIsLinear | server/inferna_server/services/autoscaling.py:61-70 | as far into it as 95 % is into its observations |
| Autoscaling.QuantileMonotone | server/inferna_server/services/autoscaling.py:61-71 | pointwise larger counts at the same total never give a larger quantile |
| Autoscaling.QuantileRises | server/inferna_server/services/autoscaling.py:61-71 | observations beyond the listed buckets always raise the quantile |
| Autoscaling.CopiesAgreeIff | bench/bench/metrics.py:41-47 | both copies agree iff there are no more counts than buckets, or nothing was observed beyond the listed ones; answers of none included |
| Autoscaling.PolicyConverges | server/inferna_server/services/autoscaling.py:170-187 | for every policy and fixed signal the count stays in the window and is fixed after max - min ticks iff the signal does not tear or the window is a point; until then it is monotone |
| Autoscaling.StepIs | server/inferna_server/services/autoscaling.py:170-187 | when a signal moves the count up, down or not at all |
| Autoscaling.IterateIs | server/inferna_server/services/autoscaling.py:170-187 | the count after any number of ticks, in closed form |
| Autoscaling.TornIffRatio | server/inferna_server/services/autoscaling.py:178-182 | a signal that is busy and idle at once exists iff the ratio is above 1 |
| Autoscaling.Autoscaler.Tick | server/inferna_server/services/autoscaling.py:209-245 | one pass over the deployments: exactly which are moved and to what, which times the cooldown remembers, and what is committed |
| Autoscaling.TickCommits | server/inferna_server/services/autoscaling.py:219-245 | what each deployment's rows are after the pass: a success commits everything the session holds |
| Autoscaling.FailedScaleCommitted | server/inferna_server/services/autoscaling.py:226-231 | a failed scale is visible after the tick iff a later deployment scales successfully, and then with whole units, nothing broken and less than the target |
| Autoscaling.CooldownHolds | server/inferna_server/services/autoscaling.py:219-232 | over any run two successful moves of a deployment are at least the cooldown apart |
| Autoscaling.UnitCountIsLive | server/inferna_server/services/autoscaling.py:248-253 | _unit_count is the number of wanted units |
| Autoscaling.CountsDiffer | server/inferna_server/services/scaling.py:21-28 | how the three counts called "current" differ, and when they are equal |
| Autoscaling.TickMoves | server/inferna_server/services/autoscaling.py:5-6 | how many units a tick starts and stops for any wanted count, and in each direction exactly when that is at most one |
| Autoscaling.OutsideTheWindow | server/inferna_server/services/autoscaling.py:5-6 | two ticks from outside the window that start three and stop two units of a healthy deployment |
| Migration.MergeMovesPairs | server/alembic/versions/d88ae166a92a_phase0_production_readiness.py:112-127 | merging a worker moves its active pairs and loses none |
| Migration.FollowStays | server/alembic/versions/d88ae166a92a_phase0_production_readiness.py:89-164 | every worker's instances end up on a surviving worker of its cluster |
| Migration.Upgrade.MergeInto | server/alembic/versions/d88ae166a92a_phase0_production_readiness.py:106-127 | one duplicate: ports freed, instances moved, worker deleted |
| Migration.KeptIsNewest | server/alembic/versions/d88ae166a92a_phase0_production_readiness.py:95-105 | every worker's instances end on the one worker left of its group, and nobody in the group was seen later, or as late and created later, or as late with a larger id |
| Migration.Upgrade.Deduplicate | server/alembic/versions/d88ae166a92a_phase0_production_readiness.py:89-127 | the key is unique afterwards and each group was merged into its newest worker |
| Migration.Upgrade.RepairPorts | server/alembic/versions/d88ae166a92a_phase0_production_readiness.py:173-194 | exactly the active rows that are not the earliest on their port give it up |
| Migration.Upgrade.Run | server/alembic/versions/d88ae166a92a_phase0_production_readiness.py:88-194 | both keys unique, orphans detected iff there were any, and the whole effect on the rows |
| Migration.UpgradeKeepsRows | server/alembic/versions/d88ae166a92a_phase0_production_readiness.py:106-194 | every instance row survives on the worker its own was merged into |
| Migration.UpgradeKeepsPairs | server/alembic/versions/d88ae166a92a_phase0_production_readiness.py:108-194 | the active pairs are exactly the image of the original ones |
| Migration.UpgradePortsUnique | server/alembic/versions/d88ae166a92a_phase0_production_readiness.py:171-204 | no two active rows share a worker and port, so the index can be created |

## Left out

- allocate_auto: only tests call it; it is one pass of `allocate_replicas`.
- `rendezvous_host`: cleaning an address into a bare host is a parameter of the model; its result is any text.
- Unicode digits: `str.isdigit` is modelled on ASCII digits only.
- The nested scan over hosts and GPUs is one list of slots in scan order, taken once, as the snapshots are.
- Rows are values in a sequence that methods reassign; that two ORM references alias one row is not modelled.
- Concurrent transactions: row locks make each allocation and each scale one atomic step; the IntegrityError of a truly concurrent deploy, scale or registration is not a step.
- Protocol.Converges: assumes that starts, stops and probes end; Docker, images and health checks are nondeterministic outcomes, and a probe that reports after its instance was stopped or restarted is not a step.
- A Sync that reports several instances is one step per row in the placement runs; that a refused commit rolls all of them back is not modelled.
- Vram.RunWithinVramIff: a GPU keeps the size it was first reported with.
- Status reports that carry another port than the row's: the placement runs keep ports as allocated, as the manager reports back the port it was given.
- Deletion of a worker row while instances refer to it, and the reaper that marks workers disconnected.
- Log tails, timestamps, versions, GPU upserts and worker tokens of a Sync or a registration.
- Hash collisions: a digest is a free constructor of the previous digest and the block, so the 64-bit truncation of SHA-256 is not modelled.
- Floating point: bounds, counts, ratios and times are exact reals.
- Usage.UsageConserved: a flush that is cancelled between the swap and its transaction loses its batch in the source; cancellation of a flush is not a step.
- The UTC day changing inside one `usage_today` call.
- Autoscaling.Autoscaler.Tick: an exception from the database itself (a refused commit, a lost connection), after which the session needs a rollback that the loop does not do, is not an outcome.
- Gateway.SlotsAccounted: the background task of a handed-off response is a step that the environment takes; that it is always taken is the web framework's promise, and the lock is only ever held without an await in it, so taking it never suspends.
- Prometheus gauges and histograms, except the bucket counts `hist_p95` reads.
- GPU occupancy sampling, API keys, authentication, address validation and the proxying itself.
- The other migrations, and the schema statements of this one; times are compared as numbers where the migration compares their text.
