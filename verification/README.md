# Verified model of the Solr Operator's decisions

The Solr Operator restarts, moves and removes stateful Solr pods while the shards on them must stay
available. This project models the parts of it that decide, and proves what those decisions guarantee
for every cluster status, every failure of a call and every run of reconciles. Nothing here runs the
operator: `dafny verify dfyconfig.toml` checks the proofs.

| file | what it models |
|---|---|
| `Prelude.dfy` | an option type, counter maps as Go reads them, sizes of sets |
| `Naming.dfy` | pod, node, claim and shard names, and the clean-up of orphan claims |
| `ClusterState.dfy` | the aggregation of a cluster status into counters for nodes and shards |
| `PodSelection.dfy` | limits, the safety order of pods, and the greedy selection with its counters |
| `SelectionSafety.dfy` | what a selection does to the shards |
| `SelectionProgress.dfy` | maximality, the overseer, no deadlock, and the whole decision |
| `SelectionOrder.dfy` | when the selection does not depend on how the pods were listed |
| `SelectionExact.dfy` | the selection in terms of the cluster status alone, as the greedy walk that the status defines |
| `AsyncRequests.dfy` | eviction and balancing as steps against Solr's store of asynchronous requests |
| `PvcExpansion.dfy` | growing the data claims |
| `ClusterOps.dfy` | the lock, the retry queue and the operations, as functions of one reconcile |
| `ClusterOpsController.dfy` | the same as methods that patch a StatefulSet object |
| `ClusterOpsSafety.dfy`, `ClusterOpsProgress.dfy` | what every reconcile and every run keeps |
| `ClusterOpsExact.dfy` | what one reconcile locks, patches, ends and puts back, on the fields that it observes |
| `ClusterOpsRequests.dfy` | cluster operations together with Solr's store of requests |
| `PodLifecycle.dfy` | readiness conditions, the deletion of one pod for an update, and the runs of one pod |
| `PodDeletion.dfy` | the deletions of one step of an update, and which of them move a pod forward |
| `RollingUpdate.dfy` | the segments of the pods and the selection from a cluster status |
| `UpdatePhases.dfy` | a rolling update on phases of the pods |
| `UpdateSteps.dfy` | one whole step of a rolling update on the pods, which is a step on phases |
| `UpdateTargets.dfy` | exactly which pods a step of a rolling update works on, on the fields of the pods |
| `UpdateRuns.dfy` | availability, deletions and progress over whole updates |
| `StatefulSetFields.dfy` | regenerating the StatefulSet and merging host aliases |
| `Backup.dfy` | collection, backup and history status of backups |
| `BackupRuns.dfy` | when a recurring backup rotates, what it schedules, and where its results come from |

Code that changes things in place is a class or a method with loops, and each method is proved equal to
a function; the properties are lemmas about these functions. The main decisions are also stated a second time,
on the raw fields of what the operator observes and without these functions, mostly in lemmas whose names end in
`Exactly`. Calls to Kubernetes and Solr are parameters that say how the call went, so a lemma about all inputs
covers every failure. A run is a sequence of states joined by steps, with spec changes and failures left open. Map
iteration is a loop that takes an arbitrary key, so every result that a method pins down does not depend on Go's
map order.

## Properties that do not hold as written

Each has a concrete input or a failing family in a lemma, and the exact condition beside it.

- The selection must be the same for the same state, says the comment on `DeterminePodsSafeToUpdate`. For up
  to twenty running pods it does not depend on how the pods were listed exactly if at most one of them is
  missing from the cluster state (`SelectionIgnoresListOrder`, `TwoMissingDisagree`). Beyond twenty Go's sort
  also merges blocks; with at most one missing pod every sort gives the same list (`SortedUnique`), and with more
  the model says nothing.
- A step of a rolling update does not always move a pod forward, even with all calls accepted. It does exactly if it
  works on a pod that is not stuck (`StepForwardExactly`). A healthy step works on the pods it selects
  (`HealthyStepExactly`); with room for one pod it stalls exactly if the pod that is the safest to stop is stuck
  (`HealthyFirstDecides`). It selects nothing exactly with a negative percentage for
  `maxPodsUnavailable` (`HealthyChoice`). A pod is stuck exactly if it has ephemeral storage, holds replicas, and is
  the `-0` pod of a cloud that asks for fewer than two: permission to delete is given at once, no move is ever
  submitted, and the deletion is refused because the pod holds replicas (`ForwardUnlessStuck`, `StuckStaysPut`,
  `OnlyPodIsNotUpdated`).
- Shard keys do not always tell shards apart. Two collections have shards with one key exactly if the name of one,
  followed by `|`, begins the name of the other (`ShardKeysCollideExactly`, `ShardKeyCollides`), so never if no
  collection name holds a `|` (`ShardKeyInjective`). The operator does not look at collection names; whether Solr
  accepts such a name is outside this model.
- Every claim at or above the replica count is an orphan up to ordinal 2^31 - 1; the conversion to 32
  bits keeps the next one (`PvcOrphanMeansOrdinalBeyondReplicas`, `PvcOrphanWrapsBeyondInt32`). For every ordinal
  the test is exactly the comparison of the converted number (`PvcOrphanExact`).
- A reconcile without a lock fails with a nil dereference exactly if both a scale up and a scale down
  are queued, a scaling is needed and nothing else takes the lock (`PanicExactly`). No run from an empty
  queue gets there (`RunOneEach`).
- The lock, queue and storage annotations cannot be set by the user, says the comment on
  `MaintainPreservedStatefulSetFields`. They can be as long as the StatefulSet does not have them
  (`OperatorStateKeptExactly`).
- A merge of host aliases compares first hostnames only. It keeps all hostnames exactly if those of
  every replaced alias are named elsewhere (`HostnamesKeptExactly`, `SecondHostnameLost`), which the
  generated aliases, of one hostname each, always meet (`HostnamesNeverLost`). A second merge of the
  same aliases is silent exactly if no first hostname has more than one alias that differs from the new one
  (`SecondMergeExactly`, `DuplicatesChangeTwice`).
- A backup finishes without a requested collection exactly if none of its reconciles got an answer to
  the start call of that collection (`FinishedHoldsExactly`, `FinishedTooEarly`).

Node names are different for different pods of every resource that is accepted: the one addressing for which no
host name is built, an advertised load balancer, is refused by the validation of the resource
(`SolrNodeNameInjective`).

Where the documentation and the code differ, the model follows the code. The order of pods in
`docs/modules/solr-cloud/pages/managed-updates.adoc` differs from the comparison in the code, which looks at
live nodes before leaders, and a live pod without replicas is in the cluster state of the code.
`docs/modules/solr-cloud/pages/cluster-operations.adoc` speaks of a scale up that undoes a scale down; the
code locks a balancing. A pod that is already gone counts as success in a comment of `DeletePodForUpdate`, which
still returns the error. A queue that was brought up to date is not stored if another operation takes the lock in the
same reconcile, since then only the lock is patched.

## Model

| member | source | states |
|---|---|---|
| Naming.AtoiItoa | controllers/util/common.go:143-155 | printing an ordinal and parsing it back is exact for everything that fits in 64 bits, and fails beyond |
| Naming.ShardKeyInjective | controllers/util/solr_update_util.go:429 | the key of a shard determines collection and shard if collection names hold no separator |
| Naming.ShardKeysCollideExactly | controllers/util/solr_update_util.go:429 | two collections have shards with one key exactly if the name of one and the separator begin the name of the other |
| Naming.ShardKeyCollides | controllers/util/solr_update_util.go:429 | such a pair of shards |
| Naming.GetSolrPodNames | api/v1beta1/solrcloud_types.go:1237-1244 | fills an array with one name for each ordinal below the replica count, all different |
| Naming.PodNameInjective | api/v1beta1/solrcloud_types.go:1254-1256 | two ordinals have the same pod name exactly if they are equal |
| Naming.OrdinalZeroSuffix | controllers/util/solr_update_util.go:556 | the suffix test for the only pod finds ordinal zero and no other, such as 10 |
| Naming.SolrNodeNameInjective | controllers/util/solr_update_util.go:527-529 | under every accepted addressing, two pods share a node name exactly if they are the same |
| Naming.PvcOrphanExact | controllers/util/common.go:143-155 | for every base name, dashes and digits included, the orphan test is the comparison of the converted ordinal |
| Naming.PvcOrphanMeansOrdinalBeyondReplicas | controllers/util/common.go:143-155 | an orphan claim has an ordinal at or above the replicas, and in the int32 range the converse holds |
| Naming.PvcOrphanWrapsBeyondInt32 | controllers/util/common.go:150-152 | the first ordinal past int32 is not seen as an orphan |
| Naming.CleanupOrphanPvcs | controllers/solrcloud_controller.go:1263-1286 | deletes exactly the orphans among more claims than replicas of a cloud that is fully ready, and never the claim of an ordinal below the StatefulSet's replicas |
| ClusterState.FindSolrNodeContents | controllers/util/solr_update_util.go:402-489 | in any iteration order, every counter is the number of replicas it describes, known nodes are exactly the live ones, those with replicas and the overseer, and shard totals are shard sizes |
| ClusterState.RecordContents | controllers/util/solr_update_util.go:445-463 | the contents of a node after one more of its replicas |
| ClusterState.NodeReplicaState.AddLiveNodes | controllers/util/solr_update_util.go:406-425 | after the live nodes were added, known nodes and all counters are right for no replica at all |
| ClusterState.NodeReplicaState.AddReplica | controllers/util/solr_update_util.go:431-466 | recording one replica keeps every counter equal to the number of replicas recorded |
| ClusterState.NodeReplicaState.MarkOverseer | controllers/util/solr_update_util.go:470-486 | marks the overseer leader, known or not, and disturbs no counter |
| ClusterState.AggregationIgnoresMapOrder | controllers/util/solr_update_util.go:426-468 | two aggregations of one status are equal, whatever the iteration order |
| ClusterState.ActivePlusDownWithinHosted | controllers/util/solr_update_util.go:449-463 | on each node the active and the down replicas of a shard are disjoint parts of those hosted |
| ClusterState.ShardSize | controllers/util/solr_update_util.go:429-430 | the replicas counted under the key of a shard are those of the shard and no others |
| ClusterState.StoppingOneMore | controllers/util/solr_update_util.go:291-298 | stopping a live node makes exactly its active replicas of a shard unavailable, and stopping a dead one none |
| ClusterState.PodHasReplicasExactly | controllers/util/solr_update_util.go:113-122 | the aggregated state says that a pod holds replicas exactly if the cluster status places one on its node |
| PodSelection.LimitAllowsOnePod | controllers/util/solr_update_util.go:356-371 | the resolved limit is at least one exactly if it is not a negative percentage |
| PodSelection.InsertInPlace | controllers/util/solr_update_util.go:315 | moves one element into the sorted prefix of the array and leaves the rest |
| PodSelection.SortInPlace | controllers/util/solr_update_util.go:315-352 | sorts the array in place to the arrangement that the specification describes |
| PodSelection.AddReplicaCounts | controllers/util/solr_update_util.go:224-229 | adds the counts of a node key by key, for any key order |
| PodSelection.FindsOverload | controllers/util/solr_update_util.go:263-283 | finds whether some shard forbids stopping the node, for any key order; what forbids it is `SelectionExact.ShardForbids` on the cluster status |
| PodSelection.IsSafeToStop | controllers/util/solr_update_util.go:236-286 | decides the safety of one pod against the current counters; `SelectionExact.CheckedExactly` says what that is in the cluster status |
| PodSelection.PickGreedily | controllers/util/solr_update_util.go:232-311 | the walk with its in-place counters computes the greedy selection |
| PodSelection.PickPodsToUpdate | controllers/util/solr_update_util.go:209-312 | sorts the running pods, counts the scheduled ones and picks, with both the picks and the final counters as specified; `SelectionExact.SelectionIsGreedy` says which pods these are in the cluster status |
| SelectionSafety.SelectionRespectsShards | controllers/util/solr_update_util.go:209-312 | for every status, segmentation and limit, the unavailable replicas of each shard stay unchanged, or within its limit, or were zero and are all on one selected pod |
| SelectionSafety.SelectionAccounting | controllers/util/solr_update_util.go:221-298 | the final counter of each shard is the number of replicas unavailable with the scheduled and selected pods stopped, and the rest of the shard serves |
| SelectionSafety.NodeAddsUp | controllers/util/solr_update_util.go:449-463 | in aggregated contents, active plus down never exceeds what the node hosts of a shard |
| SelectionSafety.SafePodKeepsLimit | controllers/util/solr_update_util.go:263-283 | a pod that passes the check is the first to touch a shard or keeps it in its limit |
| SelectionProgress.RefusedStaysRefused | controllers/util/solr_update_util.go:236-286 | a refused pod stays refused while the counters grow |
| SelectionProgress.LeftOutIsUnsafe | controllers/util/solr_update_util.go:232-311 | with fewer picks than allowed, every running pod left out fails the check against the final counters |
| SelectionProgress.OverseerGoesLast | controllers/util/solr_update_util.go:243-256 | the overseer is picked only as the last out-of-date pod and with all managed nodes live |
| SelectionProgress.HealthyClusterPicksSomething | controllers/util/solr_update_util.go:232-311 | in a healthy cluster a pod is picked, whatever the order and the shard limit |
| SelectionProgress.DeterminePodsSafeToUpdate | controllers/util/solr_update_util.go:163-207 | the whole decision with its retry flag; available pods after the selection are at least the total minus the limit |
| SelectionProgress.HealthySelectionExactly | controllers/util/solr_update_util.go:163-207 | in a healthy cluster a pod is selected exactly if the pod limit is not a negative percentage |
| SelectionOrder.SortPermutes | controllers/util/solr_update_util.go:315 | sorting keeps the pods, whatever the comparison |
| SelectionOrder.SortSorts | controllers/util/solr_update_util.go:315 | with a transitive comparison that orders any two pods the result is sorted |
| SelectionOrder.SaferOrdersAll | controllers/util/solr_update_util.go:315-352 | the safety comparison is such a one, however many pods are missing |
| SelectionOrder.SaferIsTotal | controllers/util/solr_update_util.go:315-352 | on aggregated nodes the safety comparison is a strict total order if at most one pod is missing |
| SelectionOrder.CanonicalOrder | controllers/util/solr_update_util.go:314-353 | then every listing of the pods sorts to the same order |
| SelectionOrder.SelectionIgnoresListOrder | controllers/util/solr_update_util.go:154-156 | the selected list is the same for all listings exactly if at most one running pod is missing from the node map |
| SelectionOrder.TwoMissingDisagree | controllers/util/solr_update_util.go:317-319 | with two missing pods two listings give different selections |
| SelectionOrder.OverseerSortsLast | controllers/util/solr_update_util.go:320-328 | the pod of the overseer sorts last, wherever it was listed and whatever else is missing |
| SelectionOrder.HealthyFirstIsPicked | controllers/util/solr_update_util.go:232-311 | in a healthy cluster the first pod of the safety order is always selected, and alone if there is room for one |
| SelectionExact.PodLimitExactly | controllers/util/solr_update_util.go:356-371 | the limit on pods as arithmetic: a quarter by default, all pods for a number of zero or less, a percentage rounded down, and never none |
| SelectionExact.ShardLimitExactly | controllers/util/solr_update_util.go:373-392 | the limit on replicas of a shard as arithmetic: one by default, the whole shard for a number of zero or less |
| SelectionExact.StringLessIsAlphabetical | controllers/util/solr_update_util.go:351 | the comparison of names is the order of their first different character, or of a prefix |
| SelectionExact.SafetyOrderExactly | controllers/util/solr_update_util.go:315-352 | which of two known pods is stopped first, counted in the cluster status: the overseer last, dead nodes first, then fewer leaders, fewer replicas that are not down, fewer replicas, the later name |
| SelectionExact.CheckedExactly | controllers/util/solr_update_util.go:236-286 | whatever was stopped before, a pod is refused exactly if it leads the overseer and may not go yet, or is live and hosts a replica, not down, of a shard that has unavailable replicas and would go past its limit |
| SelectionExact.SelectionIsGreedy | controllers/util/solr_update_util.go:232-311 | the selection takes each pod of the safety order exactly if the cluster status does not refuse it with the scheduled and the taken pods stopped, up to the maximum |
| SelectionExact.SelectionIsMaximal | controllers/util/solr_update_util.go:232-311 | with fewer picks than allowed, every running pod left out is refused by the cluster status once the scheduled and the selected pods are stopped |
| SelectionExact.SortedForStopping | controllers/util/solr_update_util.go:314-353 | after sorting, pods that the status does not know come first and all others in the order of safety |
| SelectionExact.StepSelectionExactly | controllers/util/solr_update_util.go:163-207 | the whole selection of a step for every status: how much room there is, the greedy walk over the safety order, and exactly when to retry |
| AsyncRequests.RequestIdsDiffer | controllers/util/solr_update_util.go:563 | move requests of different pods and balance requests never share an id |
| AsyncRequests.SolrRequests.EvictReplicasForPodIfNecessary | controllers/util/solr_update_util.go:552-623 | one step of an eviction against Solr's store, with its answer, as specified |
| AsyncRequests.SolrRequests.BalanceReplicasForCluster | controllers/util/solr_scale_util.go:35-104 | one step of a balancing against Solr's store, with its answer, as specified; `BalancingExactly` says what that is on the requests and the calls |
| AsyncRequests.EvictionExactly | controllers/util/solr_update_util.go:552-623 | exactly when the pod may go, when a step fails or waits, and what it leaves in Solr: a failed move is cleared and never lets the pod go |
| AsyncRequests.BalancingExactly | controllers/util/solr_scale_util.go:43-102 | exactly when balancing is finished, fails or waits, and what it leaves in Solr: a failed balancing is cleared and is not finished |
| AsyncRequests.RunSubmitsAndPermitsCleanly | controllers/util/solr_update_util.go:552-623 | in every interleaving with Solr, a move is submitted only without a request of that id, and a permitted deletion leaves none |
| AsyncRequests.FailedRequestClearedBeforeRetry | controllers/util/solr_update_util.go:603-619 | in every interleaving, a step takes a failed move out of the store before the same move is submitted again |
| AsyncRequests.EvictionIsCheckThenAct | controllers/util/solr_update_util.go:552-623 | the interleaved protocol without interference is one step of the eviction |
| PvcExpansion.FindControllerSideDone | controllers/solrcloud_controller.go:1152-1164 | finds a pending file system resize among the conditions or in the resize status |
| PvcExpansion.ExpandPvc | controllers/solrcloud_controller.go:1103-1143 | requests the size exactly where it is still needed and reports what happened |
| PvcExpansion.ExpandPvcs | controllers/solrcloud_controller.go:1071-1093 | complete exactly if every claim is expanded, and changes nothing but the requests that are needed and accepted |
| PvcExpansion.GrownExactly | controllers/solrcloud_controller.go:1103-1164 | a claim counts as expanded exactly if its capacity has the size, a file system resize is pending, or only the resize on its node is left |
| PvcExpansion.ClaimExactly | controllers/solrcloud_controller.go:1103-1143 | on the fields of a claim, exactly when the size is asked for and when an infeasible resize is reported |
| ClusterOpsController.GetReplicasForPod | controllers/solr_cluster_ops_util.go:701-724 | finds replicas exactly if the status places one on the node |
| ClusterOpsController.EvictPod | controllers/solr_cluster_ops_util.go:658-699 | empties the pod of one ordinal as specified, with the requests left in Solr |
| ClusterOpsController.FindQueued | controllers/solrcloud_controller.go:590-593 | the last position of each kind of operation in the queue |
| ClusterOpsController.StatefulSetObject.ClearLockWithPatch | controllers/solr_cluster_ops_util.go:561-571 | removes the lock if the patch is accepted, and touches nothing else |
| ClusterOpsController.StatefulSetObject.SetNextLockWithPatch | controllers/solr_cluster_ops_util.go:573-587 | puts the next operation into the lock, stamped with the time |
| ClusterOpsController.StatefulSetObject.EnqueueCurrentForRetryWithPatch | controllers/solr_cluster_ops_util.go:589-603 | moves the locked operation to the back of the queue in one patch, or does nothing |
| ClusterOpsController.StatefulSetObject.RetryNextWithPatch | controllers/solr_cluster_ops_util.go:605-617 | moves the head of the given queue into the lock in one patch |
| ClusterOpsController.StatefulSetObject.HandleManagedCloudScaleDown | controllers/solr_cluster_ops_util.go:307-361 | one step of a managed scale down, with the requests left in Solr and a patch that may take effect and still report an error; `ScaleDownExactly` and `ScaleDownMovesExactly` say what it patches and submits |
| ClusterOpsController.StatefulSetObject.HandleManagedCloudRollingUpdate | controllers/solr_cluster_ops_util.go:449-526 | one step of a managed rolling update on the pods, with its flags computed from the deletions and the requests left in Solr |
| ClusterOpsController.StatefulSetObject.HandleManagedCloudScaleUp | controllers/solr_cluster_ops_util.go:388-415 | one step of a managed scale up, with the balancing that follows |
| ClusterOpsController.StatefulSetObject.HandleGrowth | controllers/solr_cluster_ops_util.go:203-243 | one step of growing the claims, recording the size when all are expanded |
| ClusterOpsController.StatefulSetObject.RunLockedOp | controllers/solrcloud_controller.go:494-584 | runs the locked operation, clears, replaces, queues or keeps its lock, and leaves the requests as specified |
| ClusterOpsController.StatefulSetObject.StartOrRetryOp | controllers/solrcloud_controller.go:585-656 | starts what is needed in order of priority, or brings the queue up to date and retries its head |
| ClusterOpsController.StatefulSetObject.ReconcileClusterOp | controllers/solrcloud_controller.go:490-666 | the cluster operation part of a reconcile is the step on lock, queue and requests that the lemmas are about |
| ClusterOpsSafety.ReconcileOneEach | controllers/solrcloud_controller.go:490-666 | one reconcile keeps at most one update, one growth and one scaling in lock and queue, and does not panic |
| ClusterOpsSafety.PanicExactly | controllers/solrcloud_controller.go:612-630 | a reconcile dereferences a cleared operation exactly if nothing is locked, both scalings are queued, a scaling is needed and neither an update nor a growth starts |
| ClusterOpsSafety.RunOneEach | controllers/solrcloud_controller.go:585-648 | the same in every state of every run from an empty lock and queue, under all failures and spec changes |
| ClusterOpsSafety.OperationsAreNotLost | controllers/solrcloud_controller.go:517-576 | a locked operation is kept, queued at the back when its time is up, replaced by the successor it names on completion, or ended for good; lock plus queue shrink only in the last case, and the queue is first in, first out |
| ClusterOpsSafety.StartPriority | controllers/solrcloud_controller.go:585-648 | what takes a free lock: an update that is needed and not queued, then a growth, then a scaling, then the queue |
| ClusterOpsSafety.RetryUsesCurrentValues | controllers/solrcloud_controller.go:594-648 | a retry replaces each queued operation by what is needed now, and changes no other |
| ClusterOpsSafety.BalancingFollows | controllers/solr_cluster_ops_util.go:388-415 | only a completed scale up or update is followed by a balancing, and exactly when |
| ClusterOpsSafety.PausesAfterTimeout | controllers/solrcloud_controller.go:544-576 | an operation that neither is complete nor waits for Solr goes to the back of the queue after one minute, or ten for an update or growth without an error, and not earlier |
| ClusterOpsExact.VacatedExactly | controllers/solr_cluster_ops_util.go:658-699 | a pod counts as emptied exactly if it is listed, its readiness was patched, the status places nothing on its node, and its move is absent or completed and cleared |
| ClusterOpsExact.ScaleDownExactly | controllers/solr_cluster_ops_util.go:307-361 | a locked scale down takes the replicas to its target exactly if it is one pod away, that pod is emptied and the patch takes effect; otherwise they stay |
| ClusterOpsExact.ScaleDownMovesExactly | controllers/solr_cluster_ops_util.go:658-699 | which request a locked scale down submits or clears, and exactly when |
| ClusterOpsExact.ScaleUpExactly | controllers/solr_cluster_ops_util.go:388-415 | a locked scale up patches the replicas to its target exactly if that is above them and the patch takes effect |
| ClusterOpsExact.GrowthRecordsExactly | controllers/solr_cluster_ops_util.go:203-243 | a locked growth records its size exactly if every claim has grown and the patch takes effect |
| ClusterOpsExact.LockedExactly | controllers/solrcloud_controller.go:494-584 | what one reconcile does with any locked operation, on the observed fields: exactly when it is done and what follows it, when it waits for Solr, when its patience is over and it is put back, and when it keeps the lock |
| ClusterOpsExact.FailedBalancingIsRetried | controllers/util/solr_scale_util.go:80-97 | with more than one replica a balancing whose request failed keeps the lock or is put back, and its request is cleared unless a call is lost |
| ClusterOpsExact.NeededExactly | controllers/solr_cluster_ops_util.go:156-447 | which update, growth or scaling the spec and the pods call for, with its target, and when scaling needs no operation |
| ClusterOpsExact.StartsExactly | controllers/solrcloud_controller.go:585-648 | what takes a free lock, on the spec, the pods and the queue, and that otherwise the head of the queue is retried with every entry brought up to date |
| ClusterOpsExact.UnmanagedScalesExactly | controllers/solr_cluster_ops_util.go:245-303 | with nothing locked the replicas become those asked for exactly if no replica is to be moved, nothing goes first and the patch takes effect |
| ClusterOpsRequests.WorkingRequestKeepsLock | controllers/solrcloud_controller.go:517-576 | while Solr works on a request that the locked update, scale down or balancing looks at, lock, queue and request stay |
| ClusterOpsRequests.ReconcileMay | controllers/solr_cluster_ops_util.go:307-361 | one reconcile submits only requests that Solr does not have and clears only ended ones, for all pods of an update |
| ClusterOpsRequests.WorkingEndsBeforeItLeaves | controllers/util/solr_update_util.go:552-623 | in every run of the operator and Solr, a request that Solr works on ends before anything takes it out of the store |
| ClusterOpsRequests.RunKeepsLockWhileSolrWorks | controllers/util/solr_scale_util.go:43-102 | in every run an operation keeps its lock for as long as Solr works on a request that it looks at |
| ClusterOpsProgress.ReplicasChangeOnlyWithReason | controllers/solr_cluster_ops_util.go:245-361 | the replica count changes by one down with the highest pod shown empty by that step's status, up as locked, or at once where replicas are not moved |
| ClusterOpsProgress.ReconcileApproaches | controllers/solr_cluster_ops_util.go:245-303 | one reconcile moves the replica count towards the target and never past it |
| ClusterOpsProgress.RunApproachesTarget | controllers/solr_cluster_ops_util.go:245-361 | with a fixed target the same holds between any two states of every run |
| ClusterOpsProgress.ScalingTerminates | controllers/solr_cluster_ops_util.go:307-361 | patches of the replica count plus the distance left never exceed the distance at the start |
| ClusterOpsProgress.ReconcileStorage | controllers/solr_cluster_ops_util.go:203-243 | the recorded size changes only to a size that every listed claim has or only the node side is left for |
| ClusterOpsProgress.RunStorageNeverShrinks | controllers/solr_cluster_ops_util.go:156-243 | in every run the recorded size never decreases, and each raise had all claims expanded |
| PodLifecycle.SolrPod.Initialize | controllers/solrcloud_controller.go:829-852 | gives every gating condition without a reason its initial value, in one patch |
| PodLifecycle.SolrPod.EnsureReadinessConditions | controllers/solr_pod_lifecycle_util.go:130-160 | applies the changes to the gating conditions in one patch, and fails exactly if a needed patch is rejected |
| PodLifecycle.InitializeCondition | controllers/solr_pod_lifecycle_util.go:193-228 | sets, appends or leaves the first condition of a type |
| PodLifecycle.HasReason | controllers/solr_pod_lifecycle_util.go:271-279 | whether the first condition of a type has the reason |
| PodLifecycle.SolrPod.DeleteForUpdate | controllers/solr_pod_lifecycle_util.go:50-128 | the conditions, the requests in Solr and the flags after one attempt to delete a pod, and when it is gone |
| PodLifecycle.DeletionNeedsEmptyPod | controllers/solr_pod_lifecycle_util.go:50-128 | a settled pod with ephemeral storage is deleted only if it counts as empty and no move of its replicas is left, except for the only pod |
| PodLifecycle.InitializationSettles | controllers/solr_pod_lifecycle_util.go:178-228 | initialization leaves each condition at most once and with an allowed value |
| PodLifecycle.ChangeSettles | controllers/solr_pod_lifecycle_util.go:231-268 | every change the operator makes keeps it so |
| PodLifecycle.RunSettled | controllers/solr_pod_lifecycle_util.go:193-268 | in every state after initialization each condition appears at most once with one of the allowed reason and status pairs |
| PodLifecycle.RunStatusNeverOverrides | controllers/solr_pod_lifecycle_util.go:231-268 | in every run, the status of a gating condition never overrides a change that waits for a reason |
| PodLifecycle.RunDeletesOnlyEmptyPods | controllers/solr_pod_lifecycle_util.go:50-128 | in every run of a pod with ephemeral storage, a step that fetched the cluster state deletes it only if that status places no replica on its node |
| PodLifecycle.StoppingMarksEviction | controllers/solr_pod_lifecycle_util.go:50-67 | stopping a settled pod forces its eviction reason, whatever it was before |
| PodLifecycle.ChangesExactly | controllers/solr_cluster_ops_util.go:333-386 | what stopping and restarting a settled pod for an update or a scale down makes of each of its conditions |
| PodLifecycle.RestartUndoesStop | controllers/solr_cluster_ops_util.go:530-558 | cleaning up a paused update restores the conditions of a started pod |
| RollingUpdate.Classify | controllers/solrcloud_controller.go:888-940 | the segment of one pod, which its fields fit: revision, last conditions, last Solr container |
| RollingUpdate.SegmentExactly | controllers/solrcloud_controller.go:924-942 | each segment on the fields of a pod; one has never started exactly if its revision is old, it was not stopped for the update, it is not ready, and its last Solr container, if any, has not started |
| RollingUpdate.CreateCloudStatus | controllers/solrcloud_controller.go:888-943 | each segment lists exactly the pods whose fields fit it, in list order, and the ready and updated pods are counted |
| RollingUpdate.SelectPods | controllers/util/solr_update_util.go:124-194 | aggregation and selection together: for every status the selection respects every shard and the promised number of pods |
| PodDeletion.DeletePods | controllers/solr_cluster_ops_util.go:508-520 | the attempts of one step, each with the requests that the last one left, and the flags they add up to |
| PodDeletion.PodsToUpdate | controllers/solr_cluster_ops_util.go:476-506 | the pods of a step: not started, then stopped, then selected, as far as the state allows |
| PodDeletion.UpdatePods | controllers/solr_cluster_ops_util.go:476-520 | one step with and without the cluster state: what it does to the pods it works on, its answer, and that all others are left alone |
| PodDeletion.AttemptExactly | controllers/solr_pod_lifecycle_util.go:50-128 | an attempt asks for the deletion of a settled pod exactly if it is or can be stopped and, if it has to be emptied, holds no replica and its move is over |
| PodDeletion.AttemptReports | controllers/solr_pod_lifecycle_util.go:50-128 | exactly when an attempt on a settled pod fails and when it is in progress |
| PodDeletion.AttemptStops | controllers/solr_pod_lifecycle_util.go:50-67 | every condition of a settled pod after an attempt: those that gate it say that it is stopped, and no other changes |
| PodDeletion.AnsweredExactly | controllers/solr_cluster_ops_util.go:476-520 | a step fails or is in progress exactly if fetching the state failed or one of its attempts is so |
| PodDeletion.StepMovesExactly | controllers/solr_cluster_ops_util.go:508-520 | what a step leaves in Solr of the move of each pod: submitted exactly if the pod has to be emptied, cleared exactly if it ended, and independent of the other pods |
| PodDeletion.ForwardUnlessStuck | controllers/solr_pod_lifecycle_util.go:75-100 | with all calls accepted, an attempt deletes a settled pod or submits, awaits or clears its move exactly unless it is the only pod, needs eviction and holds replicas |
| PodDeletion.StuckStaysPut | controllers/solr_pod_lifecycle_util.go:83-92 | whatever the calls do, an attempt on such a pod neither deletes it nor touches a request |
| PodDeletion.OnlyPodIsNotUpdated | controllers/util/solr_update_util.go:556-561 | a cloud of one pod with a replica on ephemeral storage, on which repeated attempts change nothing |
| PodDeletion.OnlyPodNeverUpdated | controllers/util/solr_update_util.go:556-561 | in every run, an attempt on such a pod whose status places a replica on it leaves it in place |
| PodDeletion.OthersKeepRequest | controllers/solr_cluster_ops_util.go:508-520 | attempts on other pods leave the request of a pod as it was |
| UpdatePhases.RoomFromSegments | controllers/util/solr_update_util.go:197-207 | the room computed from the segment sizes is the room in terms of phases |
| UpdatePhases.RoomIsServingAboveFloor | controllers/util/solr_update_util.go:197-207 | the maximum of the selection is how far the available pods are above total minus limit |
| UpdateSteps.StepRefines | controllers/solr_cluster_ops_util.go:449-526 | segmentation, selection and deletions of a step are a step on phases, with a selection of running pods within the room |
| UpdateSteps.StoppedSegment | controllers/solrcloud_controller.go:888-940 | stopping a pod leaves it in its segment or moves it to those scheduled for deletion |
| UpdateSteps.AfterWellFormed | controllers/solr_pod_lifecycle_util.go:50-128 | a step keeps pod names apart and conditions settled |
| UpdateSteps.WorkedDistinct | controllers/solr_cluster_ops_util.go:476-520 | a step comes to each pod at most once |
| UpdateSteps.StepIsUpdatePods | controllers/solr_cluster_ops_util.go:508-520 | what the attempts leave of the pod objects is what the step makes of the pods |
| UpdateTargets.SegmentInOrder | controllers/solrcloud_controller.go:924-942 | a segment lists its pods in the order of the list, each as often as it was listed |
| UpdateTargets.WorkedOnExactly | controllers/solr_cluster_ops_util.go:476-520 | a step works on a pod of an old revision exactly if it never started and the state could be asked for, or the state is there and the pod is stopped for the update or selected |
| UpdateTargets.StartedPodsAreLeftAlone | controllers/solrcloud_controller.go:924-942 | a step neither stops nor deletes a pod that is ready or whose Solr container has started, unless it was stopped for the update before or is selected |
| UpdateRuns.UpdateKeepsPodsAvailable | controllers/solr_cluster_ops_util.go:449-526 | in every run of steps in which pods do not fail on their own, the available pods never fall below total minus limit |
| UpdateRuns.UpdateTerminates | controllers/solr_cluster_ops_util.go:449-526 | in every run with a fixed revision, deletions plus the pods still out of date never exceed those at the start |
| UpdateRuns.UpdateDeletesOnlyEmptyPods | controllers/solr_cluster_ops_util.go:508-520 | in every run, a step that fetched the state deletes a pod with ephemeral storage only if that cluster status places no replica on its node |
| UpdateRuns.SomeRunDeletes | controllers/solr_cluster_ops_util.go:508-520 | a run whose one step fetches the state and deletes a pod with ephemeral storage |
| UpdateRuns.StepForwardExactly | controllers/solr_cluster_ops_util.go:449-526 | any step whose calls are accepted moves a pod forward exactly if it works on a pod that is not stuck |
| UpdateRuns.RunForwardExactly | controllers/solr_cluster_ops_util.go:449-526 | the same for each such step of every run |
| UpdateRuns.HealthyChoice | controllers/util/solr_update_util.go:163-207 | a healthy step selects pods exactly if the limit is not a negative percentage |
| UpdateRuns.HealthyStepExactly | controllers/solr_cluster_ops_util.go:449-526 | a healthy step moves a pod forward exactly if it selects a pod that is not stuck |
| UpdateRuns.HealthyUpdateProgresses | controllers/solr_cluster_ops_util.go:449-526 | without stuck pods a healthy step moves a pod forward exactly if the limit is not a negative percentage, and never if all running pods are stuck |
| UpdateRuns.HealthyFirstDecides | controllers/util/solr_update_util.go:232-311 | with room for one pod a healthy step stalls exactly if the running pod that is the safest to stop is stuck, and with more room it goes on if that pod is not |
| UpdateRuns.HealthyRunProgresses | controllers/solr_cluster_ops_util.go:449-526 | the same for each healthy step of every run |
| StatefulSetFields.CopyMap | controllers/util/common.go:59-83 | overlays labels or annotations in any key order, and reports a change exactly if a value differs |
| StatefulSetFields.PutAlias | controllers/util/common.go:458-475 | merges one alias with the early exit of the loop, and reports exactly whether it changed the list |
| StatefulSetFields.MergeHostAliases | controllers/util/common.go:449-479 | merges a list of aliases into another, with an exact report of changes |
| StatefulSetFields.MergedElements | controllers/util/common.go:449-479 | with unique first hostnames the result is the new aliases and the old ones they do not replace |
| StatefulSetFields.SecondMergeExactly | controllers/util/common.go:449-479 | merging the same aliases again changes nothing and reports nothing exactly if no first hostname has more than one alias that differs from the new one |
| StatefulSetFields.SecondMergeChangesNothing | controllers/util/common.go:449-479 | so with one alias for each first hostname |
| StatefulSetFields.DuplicatesChangeTwice | controllers/util/common.go:458-470 | two aliases for one hostname that a second merge changes again |
| StatefulSetFields.HostnamesKeptExactly | controllers/util/common.go:455-475 | no hostname is dropped exactly if those of replaced aliases are named by a new or a surviving alias |
| StatefulSetFields.SecondHostnameLost | controllers/util/common.go:460-466 | an alias whose second hostname is dropped |
| StatefulSetFields.HostnamesNeverLost | controllers/util/solr_util.go:297-318 | over all merges of generated aliases, every hostname keeps the address it got last |
| StatefulSetFields.StatefulSet.MaintainPreserved | controllers/util/solr_util.go:690-728 | writes the preserved annotations and the replicas into the expected StatefulSet |
| StatefulSetFields.StatefulSet.CopyFields | controllers/util/common.go:331-345 | copies the owned fields, and reports a change exactly if there is one |
| StatefulSetFields.StatefulSet.Regenerate | controllers/solrcloud_controller.go:379-391 | preserving and copying together |
| StatefulSetFields.AnnotationAfter | controllers/util/solr_util.go:690-728 | what every annotation is after a regeneration |
| StatefulSetFields.OperatorStateKeptExactly | controllers/util/solr_util.go:690-728 | lock, queue, storage size and replicas are untouched exactly if none of the three annotations is generated while absent |
| StatefulSetFields.SecondRegenerationExactly | controllers/util/common.go:331-402 | regenerating again from the same spec finds nothing to update exactly if a second merge of the host aliases is silent |
| StatefulSetFields.RegenerationReportsExactly | controllers/util/common.go:331-402 | a regeneration asks for an update exactly if it changes one of the fields |
| StatefulSetFields.TemplateAfter | controllers/util/solr_util.go:690-728 | what labels and template annotations are after a regeneration; a storage size in the template stays |
| StatefulSetFields.RunKeepsOperatorState | controllers/util/solr_util.go:690-721 | under any sequence of specs an existing lock, queue or storage size stays |
| StatefulSetFields.RunKeepsReplicas | controllers/util/solr_util.go:725-727 | under any sequence of specs the replicas stay |
| Backup.SolrBackup.UpdateStatusOfCollectionBackups | controllers/util/backup_util.go:60-76 | finished exactly if there are collections and all are, with the result set once |
| Backup.SolrBackup.ReconcileCollection | controllers/solrbackup_controller.go:272-332 | one visit to a collection, with the last matching status and all failures |
| Backup.SolrBackup.ReconcileCloudBackup | controllers/solrbackup_controller.go:186-270 | the work on a backup, with the loop that stops at the first error |
| Backup.SolrBackup.Reconcile | controllers/solrbackup_controller.go:91-176 | rotation, work, finish time and scheduling of one reconcile; `RotationExactly` and `NextExactly` say what these are on the fields |
| Backup.VisitForward | controllers/solrbackup_controller.go:272-332 | one visit moves its collection forward, touches no other, and records it unless the start fails |
| Backup.AdvancedForward | controllers/solrbackup_controller.go:186-270 | one reconcile keeps a backup consistent, moves every collection forward, and records exactly those it gets to |
| Backup.RunConsistent | controllers/util/backup_util.go:60-76 | in every run collections are unique, finished means all are, and the result says whether all succeeded |
| Backup.CollectionsMoveForward | controllers/solrbackup_controller.go:272-332 | until rotation each collection only goes from not started to in progress to finished, and what is finished never changes |
| Backup.HistoryIsDone | controllers/solrbackup_controller.go:97-127 | whatever the limits, every backup in the history is finished and consistent |
| Backup.HistoryIsNewest | controllers/solrbackup_controller.go:97-127 | with a fixed limit the history is the first of all rotated backups, newest first, where a backup rotates if it is finished, recurrence is enabled and the scheduled time is over |
| Backup.FinishedHoldsExactly | controllers/solrbackup_controller.go:256-270 | a finished backup holds a collection exactly if one of its reconciles got an answer to its start call |
| Backup.FinishedAfterCleanPass | controllers/solrbackup_controller.go:256-270 | after one pass without an error a finished backup holds every requested collection |
| Backup.FinishedTooEarly | controllers/solrbackup_controller.go:256-270 | two reconciles that finish, as successful and without a finish time, a backup that lacks a requested collection |
| BackupRuns.RotationExactly | controllers/solrbackup_controller.go:97-127 | a finished backup is put at the head of the history and replaced by what the reconcile makes of an empty one exactly if the patch is accepted, recurrence is enabled and the scheduled time is over; otherwise it stays |
| BackupRuns.RunRotatesExactly | controllers/solrbackup_controller.go:97-127 | in every run, a finished backup is replaced exactly then |
| BackupRuns.NextExactly | controllers/solrbackup_controller.go:102-176 | after every accepted reconcile, the next time is the schedule of the start time of a finished recurring backup, nothing once it was used or recurrence is off, and the old one otherwise |
| BackupRuns.StartsOnSchedule | controllers/solrbackup_controller.go:91-176 | in every run with one schedule and a clock that does not go back, a backup starts later than the schedule says for the one before it |
| BackupRuns.VisitExactly | controllers/solrbackup_controller.go:272-332 | exactly when a visit finishes, starts or fails a collection, and that it leaves all others alone |
| BackupRuns.FinishTimeExactly | controllers/solrbackup_controller.go:130-144 | a backup gets its finish time from the reconcile that finishes it, unless a call of that one fails |
| BackupRuns.RunResultExactly | controllers/util/backup_util.go:60-76 | in every run, a backup is finished exactly if it has collections and all are, and successful exactly if all of them are |
| BackupRuns.ResultsComeFromSolr | controllers/solrbackup_controller.go:300-322 | in every run, the result and the finish time of a finished collection are those of a reconcile to which Solr reported it completed or failed |

## Left out

- The Kubernetes client, HTTP calls, TLS, JSON and authentication: calls are parameters that say how they went.
- Object generators for StatefulSets, services, ingresses, ZooKeeper, the Prometheus exporter, security and TLS: long field assembly with shallow properties.
- Field-by-field copy functions other than labels, annotations, replicas and host aliases of a StatefulSet: repetitive.
- Scheduled restarts, cron parsing and the syntax of quantities: schedules are a function, sizes and times are integers.
- Events, logging, requeue durations, watches and finalizers: plumbing without a decision of its own.
- Stale reads from the client's cache: a reconcile reads the stored StatefulSet, and a patch changes it exactly if it is accepted.
- Annotations that do not parse: lock and queue are values, and unreadable metadata is one of its cases.
- Readiness patches of pods that take effect and still report an error: they count as rejected.
- Users who write the lock or the queue by hand, other than removing the lock as the documentation describes: not a step of the runs.
- `evictAllPods`, the disruption budget for shards and `retryNextQueuedClusterOp`: unused or duplicate code.
- PodSelection.SortInPlace: sorts by insertion, which is Go's stable sort for up to twenty pods; beyond that Go also merges blocks, which gives the same list for a total order and may differ with several pods missing from the cluster state.
- SelectionOrder.SelectionIgnoresListOrder: for more than twenty running pods of which several are missing it is about the insertion sort and not about Go's merging.
- SelectionOrder.TwoMissingDisagree: the same bound of twenty pods holds for what it says about Go.
- Pointers to node contents: the aggregation replaces the contents of a node as a value where the source changes them through a pointer.
- Host aliases without any hostname, on which the source would index out of range: an alias has at least one.
- UpdateRuns.HealthyRunProgresses: covers healthy steps; `RunForwardExactly` covers every step with accepted calls.
- UpdateRuns.UpdateKeepsPodsAvailable: pods that fail on their own are not steps of the run, since then no bound can hold; an out-of-date running pod counts as available even if it is not ready, as in the source.
- StatefulSetFields.StatefulSet.CopyFields: covers labels, annotations, template annotations, replicas and host aliases, because the other fields are compared and copied one by one in the same way.
- StatefulSetFields.StatefulSet.Regenerate: covers the same fields.
- StatefulSetFields.SecondRegenerationExactly: says so of these fields.
- StatefulSetFields.MergeHostAliases: an empty list of aliases is treated like a missing one, for which the source takes the new list as it is; it would add the new aliases to an empty list one by one, which is the same for unique first hostnames.
- UpdateRuns.UpdateTerminates: bounds the deletions of an update and does not say that it ends, which needs Solr to finish moves and pods to become ready.
- UpdateRuns.HealthyUpdateProgresses: leaves the case of some stuck and some free running pods to `HealthyFirstDecides` and `HealthyStepExactly`, and says that a step moves a pod forward, not that Solr ever finishes a move.
- PvcExpansion.ExpandPvcs: the list of claims is taken as given; that it lists the claims of every pod is up to the API server.
