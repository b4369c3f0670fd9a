/**
  The reconcile of cluster operations as the operator performs it: handlers that change the
  StatefulSet and Solr step by step, proved to do what `ClusterOps` says.

  A `StatefulSetObject` is the object in the API server. A method that patches it is told whether the
  patch is accepted, and leaves it unchanged if not.
 */
module ClusterOpsController {
  import opened Prelude
  import opened Naming
  import opened ClusterState
  import opened AsyncRequests
  import opened PvcExpansion
  import opened ClusterOps
  import PodDeletion
  import PodLifecycle

  /** The names of the replicas that the status places on a node, gathered in any order. */
  method GetReplicasForPod(cluster: ClusterStatus, node: string) returns (replicas: seq<string>)
    ensures |replicas| > 0 <==> HostsReplicas(cluster, node)
  {
    replicas := [];
    var collections := cluster.collections.Keys;
    while collections != {}
      invariant collections <= cluster.collections.Keys
      invariant |replicas| > 0 <==>
                  exists c :: && c in cluster.collections && c !in collections
                              && CollectionHosts(cluster.collections[c], node)
      decreases collections
    {
      var c :| c in collections;
      var found := GetReplicasInCollection(cluster.collections[c], node);
      replicas := replicas + found;
      collections := collections - {c};
    }
  }

  method GetReplicasInCollection(shards: Shards, node: string) returns (replicas: seq<string>)
    ensures |replicas| > 0 <==> CollectionHosts(shards, node)
  {
    replicas := [];
    var names := shards.Keys;
    while names != {}
      invariant names <= shards.Keys
      invariant |replicas| > 0 <==> exists s :: s in shards && s !in names && ShardHosts(shards[s], node)
      decreases names
    {
      var s :| s in names;
      var found := GetReplicasInShard(shards[s], node);
      replicas := replicas + found;
      names := names - {s};
    }
  }

  method GetReplicasInShard(shard: map<string, Replica>, node: string) returns (replicas: seq<string>)
    ensures |replicas| > 0 <==> ShardHosts(shard, node)
  {
    replicas := [];
    var names := shard.Keys;
    while names != {}
      invariant names <= shard.Keys
      invariant |replicas| > 0 <==> exists r :: r in shard && r !in names && shard[r].node == node
      decreases names
    {
      var r :| r in names;
      if shard[r].node == node {
        replicas := replicas + [r];
      }
      names := names - {r};
    }
  }

  method FindPod(pods: seq<string>, name: string) returns (found: bool)
    ensures found <==> name in pods
  {
    for i := 0 to |pods|
      invariant name !in pods[..i]
    {
      if pods[i] == name {
        return true;
      }
    }
    assert pods[..|pods|] == pods;
    found := false;
  }

  /** Empties the pod that a scale down is about to remove. */
  method EvictPod(obs: Observation, ordinal: int, solr: SolrRequests) returns (e: Eviction)
    requires solr.requests == obs.requests
    modifies solr
    ensures e == EvictOrdinal(obs, ordinal) && solr.requests == e.requests
  {
    if ordinal < 0 {
      return Eviction(false, false, true, solr.requests);  // there is no such pod
    }
    var name := PodName(obs.spec.cloud, ordinal);
    var exists' := FindPod(obs.pods, name);
    if obs.status.None? {
      return Eviction(false, false, true, solr.requests);
    }
    var replicas := GetReplicasForPod(obs.status.value, SolrNodeName(obs.spec.cloud, name));
    var podHasReplicas := |replicas| > 0;
    if !exists' {
      return Eviction(!podHasReplicas, false, true, solr.requests);
    }
    if obs.readinessPatchFails {
      return Eviction(false, false, true, solr.requests);
    }
    var failed, canDeletePod, inProgress :=
      solr.EvictReplicasForPodIfNecessary(Some(obs.spec.replicas), name, podHasReplicas, obs.io);
    e := Eviction(false, inProgress, failed, solr.requests);
    if !failed && canDeletePod {
      e := e.(podIsEmpty := !podHasReplicas);
    }
  }

  /** The last position of each kind of operation in the queue. */
  method FindQueued(queue: seq<Op>) returns (queuedAt: map<OpKind, nat>)
    ensures queuedAt == QueuedAt(queue)
  {
    queuedAt := map[];
    for i := 0 to |queue|
      invariant queuedAt == QueuedAt(queue[..i])
    {
      queuedAt := queuedAt[queue[i].kind := i];
      assert queue[..i + 1][..i] == queue[..i];
    }
    assert queue[..|queue|] == queue;
  }

  class StatefulSetObject {
    var lock: Option<Op>
    var queue: seq<Op>
    var replicas: int
    var minStorage: Option<int>

    constructor (replicas: int)
      ensures Record() == SetRecord(None, [], replicas, None)
    {
      lock, queue, this.replicas, minStorage := None, [], replicas, None;
    }

    function Record(): SetRecord
      reads this
    {
      SetRecord(lock, queue, replicas, minStorage)
    }

    method ClearLockWithPatch(ok: bool)
      modifies this`lock
      ensures lock == if ok then None else old(lock)
    {
      if ok {
        lock := None;
      }
    }

    method SetNextLockWithPatch(next: Op, now: int, ok: bool)
      modifies this`lock
      ensures lock == if ok then Some(Locked(next, now)) else old(lock)
    {
      if ok {
        lock := Some(next.(startTime := now));
      }
    }

    /** Moves the locked operation to the back of the queue, in one patch. */
    method EnqueueCurrentForRetryWithPatch(ok: bool)
      modifies this`lock, this`queue
      ensures if ok && old(lock).Some? then lock == None && queue == old(queue) + [old(lock).value]
              else lock == old(lock) && queue == old(queue)
    {
      if lock.Some? && ok {
        queue := queue + [lock.value];
        lock := None;
      }
    }

    /** Moves the head of the given queue into the lock and stores the rest, in one patch. */
    method RetryNextWithPatch(newQueue: seq<Op>, obs: Observation)
      modifies this`lock, this`queue
      ensures Record() == RetryNext(old(Record()), newQueue, obs)
    {
      if |newQueue| > 0 && obs.lockPatchOk {
        lock := Some(newQueue[0].(startTime := obs.now));
        queue := newQueue[1..];
      }
    }

    method PatchReplicas(to: int, patch: CallOutcome) returns (failed: bool)
      modifies this`replicas
      ensures Record() == WithReplicas(old(Record()), to, patch) && failed == !patch.Done?
    {
      if TookEffect(patch) {
        replicas := to;
      }
      failed := !patch.Done?;
    }

    method HandleManagedCloudScaleDown(op: Op, obs: Observation, solr: SolrRequests)
      returns (complete: bool, inProgress: bool, failed: bool)
      requires solr.requests == obs.requests
      modifies this`replicas, solr
      ensures Report(Record(), complete, inProgress, failed, None) == HandleScaleDown(old(Record()), op, obs)
      ensures solr.requests ==
              if EmptiesPod(old(Record()), op, obs) then EvictOrdinal(obs, op.metadata.n).requests else obs.requests
    {
      hide EvictOrdinal;
      complete, inProgress, failed := false, false, false;
      if !op.metadata.Pods? {
        return false, false, true;
      }
      var scaleDownTo := op.metadata.n;
      if |obs.pods| <= scaleDownTo {
        return true, false, false;
      }
      if replicas <= scaleDownTo {
        return false, false, false;
      }
      if replicas > scaleDownTo + 1 {
        return true, false, false;
      }
      var e := EvictPod(obs, scaleDownTo, solr);
      inProgress, failed := e.inProgress, e.failed;
      if !failed && e.podIsEmpty {
        failed := PatchReplicas(scaleDownTo, obs.fieldPatch);
      }
    }

    method HandleManagedCloudScaleUp(op: Op, obs: Observation)
      returns (complete: bool, failed: bool, next: Option<Op>)
      modifies this`replicas
      ensures Report(Record(), complete, false, failed, next) == HandleScaleUp(old(Record()), op, obs)
    {
      complete, failed, next := false, false, None;
      if !op.metadata.Pods? {
        return false, true, None;
      }
      var desired := op.metadata.n;
      if replicas < desired {
        failed := PatchReplicas(desired, obs.fieldPatch);
      } else if |obs.pods| >= replicas {
        next := Some(NewOp(Balance, Reason("ScaleUp")));
        complete := true;
      }
    }

    method HandleGrowth(op: Op, obs: Observation) returns (complete: bool, failed: bool)
      modifies this`minStorage
      ensures Report(Record(), complete, false, failed, None) == HandlePvcGrowth(old(Record()), op, obs)
    {
      if !op.metadata.Size? || obs.claims.None? {
        return false, true;
      }
      var listed, size := obs.claims.value, op.metadata.bytes;
      var claims := new Pvc[|listed|](i requires 0 <= i < |listed| => listed[i]);
      assert claims[..] == listed;
      var infeasible;
      complete, infeasible, failed := ExpandPvcs(claims, size, seq(|listed|, i => obs.claimPatchFails(i)));
      if !failed && complete {
        if TookEffect(obs.fieldPatch) {
          minStorage := Some(size);
        }
        if !obs.fieldPatch.Done? {
          complete, failed := false, true;
        }
      }
    }

    /** One step of a managed rolling update, on the pods of each segment and those selected. */
    method HandleManagedCloudRollingUpdate(
      op: Op, obs: Observation, solr: SolrRequests, notStarted: seq<PodLifecycle.SolrPod>,
      scheduled: seq<PodLifecycle.SolrPod>, selected: seq<PodLifecycle.SolrPod>)
      returns (complete: bool, inProgress: bool, failed: bool, next: Option<Op>)
      requires solr.requests == obs.requests && PodDeletion.DescribeAll(obs.update, notStarted, scheduled, selected)
      modifies solr, notStarted, scheduled, selected
      ensures Report(Record(), complete, inProgress, failed, next) == HandleUpdate(Record(), op, obs)
      ensures solr.requests == if UpdatesPods(Record(), obs)
                               then PodDeletion.Answered(obs.requests, Some(obs.spec.replicas), obs.update).requests
                               else obs.requests
    {
      hide PodDeletion.Answered;
      complete, inProgress, failed, next := false, false, false, None;
      if replicas == obs.availableUpdated {
        var migrated := false;
        if op.metadata.Migration? {
          migrated := op.metadata.required;
        } else if op.metadata != Reason("") {
          failed := true;
        }
        complete := true;
        if migrated && obs.spec.replicas <= replicas {
          next := Some(NewOp(Balance, Reason("RollingUpdateComplete")));
        }
      } else if obs.outOfDate {
        inProgress, failed :=
          PodDeletion.UpdatePods(notStarted, scheduled, selected, obs.update, Some(obs.spec.replicas), solr);
      }
    }

    /** Runs the locked operation and decides what becomes of its lock. */
    method RunLockedOp(
      obs: Observation, solr: SolrRequests, notStarted: seq<PodLifecycle.SolrPod>,
      scheduled: seq<PodLifecycle.SolrPod>, selected: seq<PodLifecycle.SolrPod>)
      requires lock.Some? && solr.requests == obs.requests
      requires PodDeletion.DescribeAll(obs.update, notStarted, scheduled, selected)
      modifies this, solr, notStarted, scheduled, selected
      ensures Record() == RunLocked(old(Record()), old(lock).value, obs)
      ensures solr.requests == RequestsLeft(old(Record()), obs)
    {
      hide HandleUpdate, HandleScaleDown, HandleScaleUp, HandlePvcGrowth, PodDeletion.Answered, EvictOrdinal;
      hide BalanceReplicas;
      var op := lock.value;
      var complete, inProgress, failed, next := false, false, false, None;
      match op.kind {
        case Update =>
          complete, inProgress, failed, next :=
            HandleManagedCloudRollingUpdate(op, obs, solr, notStarted, scheduled, selected);
        case ScaleDown =>
          complete, inProgress, failed := HandleManagedCloudScaleDown(op, obs, solr);
        case ScaleUp =>
          complete, failed, next := HandleManagedCloudScaleUp(op, obs);
        case Balance =>
          failed, complete, inProgress :=
            solr.BalanceReplicasForCluster(replicas, obs.readyReplicas, BalanceReason(op), obs.io,
                                           obs.balanceUnsupported);
        case PvcGrowth =>
          complete, failed := HandleGrowth(op, obs);
        case Unsupported(_) =>
          ClearLockWithPatch(obs.lockPatchOk);
          return;
      }
      FinishOrPause(op, complete, inProgress, failed, next, obs);
    }

    /** What becomes of the lock after its operation ran. */
    method FinishOrPause(op: Op, complete: bool, inProgress: bool, failed: bool, next: Option<Op>, obs: Observation)
      requires lock == Some(op)
      modifies this`lock, this`queue
      ensures Record() ==
              if complete then
                if obs.lockPatchOk then old(Record()).(lock := LockNext(next, obs.now)) else old(Record())
              else if inProgress || !TimedOut(op, failed, obs.now)
                      || (CleansUp(op.kind) && obs.cleanupFails) || !obs.lockPatchOk then
                old(Record())
              else
                old(Record()).(lock := None, queue := old(queue) + [op])
    {
      if complete {
        if next.None? {
          ClearLockWithPatch(obs.lockPatchOk);
        } else {
          SetNextLockWithPatch(next.value, obs.now, obs.lockPatchOk);
        }
      } else if !inProgress {
        var runtime := obs.now - op.startTime;
        var short := op.kind != Update && op.kind != PvcGrowth;
        var queueForLater := false;
        if failed && runtime > MINUTE {
          queueForLater := true;
        } else if short && runtime > MINUTE {
          queueForLater := true;
        } else if runtime > 10 * MINUTE {
          queueForLater := true;
        }
        if queueForLater {
          var cleanupFailed := (op.kind == Update || op.kind == ScaleDown) && obs.cleanupFails;
          if !cleanupFailed {
            EnqueueCurrentForRetryWithPatch(obs.lockPatchOk);
          }
        }
      }
    }

    /**
      Looks for an operation to start while nothing is locked. `panicked` tells that the code would
      have read an operation that is not there.
     */
    method StartOrRetryOp(obs: Observation) returns (panicked: bool)
      requires lock.None?
      modifies this
      ensures StartOrRetry(old(Record()), obs) == if panicked then Panic else Next(Record())
    {
      panicked := false;
      var newQueue := queue;
      var queuedAt := FindQueued(queue);
      var op := UpdateNeeded(obs);
      if op.Some? && Update in queuedAt {
        newQueue := newQueue[queuedAt[Update] := op.value];
        op := None;
      }
      if op.None? {
        op := PvcGrowthNeeded(Record(), obs);
        if op.Some? && PvcGrowth in queuedAt {
          newQueue := newQueue[queuedAt[PvcGrowth] := op.value];
          op := None;
        }
      }
      if op.Some? {
        SetNextLockWithPatch(op.value, obs.now, obs.lockPatchOk);
      } else {
        assert newQueue == Refresh(Refresh(queue, queuedAt, Update, UpdateNeeded(obs)),
                                   queuedAt, PvcGrowth, PvcGrowthNeeded(Record(), obs));
        panicked := StartScaleOrRetryOp(newQueue, queuedAt, obs);
      }
    }

    method StartScaleOrRetryOp(queue0: seq<Op>, queuedAt: map<OpKind, nat>, obs: Observation) returns (panicked: bool)
      requires lock.None? && forall kind :: kind in queuedAt ==> queuedAt[kind] < |queue0|
      modifies this
      ensures StartScaleOrRetry(old(Record()), queue0, queuedAt, obs) == if panicked then Panic else Next(Record())
    {
      panicked := false;
      var newQueue := queue0;
      var op := ScaleNeeded(Record(), obs, ScaleDown in queuedAt);
      if ScalesUnmanaged(Record(), obs.spec) {
        var failed := PatchReplicas(obs.spec.replicas, obs.fieldPatch);
      }
      if op.Some? {
        if ScaleDown in queuedAt {
          newQueue := newQueue[queuedAt[ScaleDown] := op.value];
          op := None;
        }
        if ScaleUp in queuedAt {
          if op.None? {
            return true;
          }
          newQueue := newQueue[queuedAt[ScaleUp] := op.value];
          op := None;
        }
      }
      if op.Some? {
        SetNextLockWithPatch(op.value, obs.now, obs.lockPatchOk);
      } else {
        RetryNextWithPatch(newQueue, obs);
      }
    }

    /** The cluster operation part of one reconcile. */
    method ReconcileClusterOp(
      obs: Observation, solr: SolrRequests, notStarted: seq<PodLifecycle.SolrPod>,
      scheduled: seq<PodLifecycle.SolrPod>, selected: seq<PodLifecycle.SolrPod>)
      returns (panicked: bool)
      requires solr.requests == obs.requests
      requires PodDeletion.DescribeAll(obs.update, notStarted, scheduled, selected)
      modifies this, solr, notStarted, scheduled, selected
      ensures Reconcile(old(Record()), obs) == if panicked then Panic else Next(Record())
      ensures solr.requests == RequestsLeft(old(Record()), obs)
    {
      if lock.Some? {
        RunLockedOp(obs, solr, notStarted, scheduled, selected);
        panicked := false;
      } else {
        panicked := StartOrRetryOp(obs);
      }
    }
  }
}
