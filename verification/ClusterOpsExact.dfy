/**
  One reconcile of the cluster operations on the fields that it observes: when a locked operation ends,
  waits, fails or is put back, what it patches, and what is started when nothing is locked.
 */
module ClusterOpsExact {
  import opened Prelude
  import opened Naming
  import opened ClusterState
  import opened AsyncRequests
  import opened PvcExpansion
  import opened ClusterOps
  import opened ClusterOpsSafety
  import PodDeletion

  // ----- emptying a pod -----

  /** The status was fetched and places no replica on the node of the pod. */
  ghost predicate PlacesNothing(obs: Observation, pod: string) {
    && obs.status.Some?
    && forall id :: Listed(obs.status.value, id) ==>
         Lookup(obs.status.value, id).node != SolrNodeName(obs.spec.cloud, pod)
  }

  lemma NothingHosted(cluster: ClusterStatus, node: string)
    ensures HostsReplicas(cluster, node) <==> exists id :: Listed(cluster, id) && Lookup(cluster, id).node == node
  {
    HostsIsCounted(cluster, node);
    hide HostsReplicas;
    var found := Matching(cluster, AllIds(cluster), Hosts(node));
    if |found| > 0 {
      var id :| id in found;
      assert Listed(cluster, id) && Lookup(cluster, id).node == node;
    }
    if id :| Listed(cluster, id) && Lookup(cluster, id).node == node {
      assert id in found;
    }
  }

  /** Nothing of the move is left to do: there is nowhere to move to, or Solr knows of no move, or it cleared one. */
  ghost predicate MoveIsOver(obs: Observation, ordinal: nat) {
    var id := "move-replicas-" + PodName(obs.spec.cloud, ordinal);
    || (ordinal == 0 && obs.spec.replicas <= 1)
    || (!obs.io.checkFails && (id !in obs.requests || (obs.requests[id] == Completed && obs.io.clear == Done)))
  }

  /** The pod is listed, its readiness was patched, it holds nothing, and its move is over. */
  ghost predicate IsVacated(obs: Observation, ordinal: nat) {
    var pod := PodName(obs.spec.cloud, ordinal);
    pod in obs.pods && PlacesNothing(obs, pod) && !obs.readinessPatchFails && MoveIsOver(obs, ordinal)
  }

  /** Solr works on the move, or the operator has to ask again for clearing it. */
  ghost predicate IsMoving(obs: Observation, ordinal: nat) {
    var pod := PodName(obs.spec.cloud, ordinal);
    var id := "move-replicas-" + pod;
    && obs.status.Some? && pod in obs.pods && !obs.readinessPatchFails
    && !(ordinal == 0 && obs.spec.replicas <= 1) && !obs.io.checkFails
    && if id in obs.requests then obs.requests[id] in {Submitted, Running} || obs.io.clear != Done
       else !PlacesNothing(obs, pod) && obs.io.submit == Done
  }

  lemma VacatedExactly(obs: Observation, ordinal: nat)
    ensures var e := EvictSinglePod(obs, ordinal);
            && (!e.failed && e.podIsEmpty <==> IsVacated(obs, ordinal))
            && (e.inProgress <==> IsMoving(obs, ordinal))
  {
    var pod := PodName(obs.spec.cloud, ordinal);
    if obs.status.Some? {
      var node := SolrNodeName(obs.spec.cloud, pod);
      NothingHosted(obs.status.value, node);
      OrdinalZeroSuffix(obs.spec.cloud, ordinal);
      EvictionExactly(obs.requests, Some(obs.spec.replicas), pod, HostsReplicas(obs.status.value, node), obs.io);
    }
    hide EvictReplicas, HostsReplicas, SolrNodeName, PodName, Lookup, Listed;
  }

  // ----- what a locked scaling patches -----

  /**
    A locked scaling down takes the replica count to its target exactly if it is one pod away, that pod
    still exists and is vacated, and the patch takes effect. In every other case the count stays.
   */
  lemma ScaleDownExactly(r: SetRecord, obs: Observation, n: int)
    requires r.lock.Some? && r.lock.value.kind == ScaleDown && r.lock.value.metadata == Pods(n)
    ensures Reconcile(r, obs).Next?
    ensures var r' := Reconcile(r, obs).set';
            && (r'.replicas == n != r.replicas <==>
                  && r.replicas == n + 1 && n >= 0 && |obs.pods| > n
                  && IsVacated(obs, n) && obs.fieldPatch != LostCall)
            && (r'.replicas == n || r'.replicas == r.replicas)
  {
    hide EvictSinglePod, IsVacated, IsMoving;
    if n >= 0 {
      VacatedExactly(obs, n);
    }
  }

  /**
    A locked scaling down submits the move of the replicas on its pod exactly if it gets to the pod, the pod
    holds replicas, Solr knows no move of it and the call takes effect. It clears the move exactly if it ended.
   */
  lemma ScaleDownMovesExactly(r: SetRecord, obs: Observation, n: nat)
    requires r.lock.Some? && r.lock.value.kind == ScaleDown && r.lock.value.metadata == Pods(n)
    ensures var pod := PodName(obs.spec.cloud, n);
            var id := "move-replicas-" + pod;
            var reached := && r.replicas == n + 1 && |obs.pods| > n && obs.status.Some? && pod in obs.pods
                           && !obs.readinessPatchFails && !(n == 0 && obs.spec.replicas <= 1) && !obs.io.checkFails;
            if reached && id !in obs.requests && !PlacesNothing(obs, pod) && obs.io.submit != LostCall then
              ChangesOnly(obs.requests, RequestsLeft(r, obs), id, Some(Submitted))
            else if reached && id in obs.requests && obs.requests[id] in {Completed, Failed}
                    && obs.io.clear != LostCall then
              ChangesOnly(obs.requests, RequestsLeft(r, obs), id, None)
            else
              RequestsLeft(r, obs) == obs.requests
  {
    var pod := PodName(obs.spec.cloud, n);
    if obs.status.Some? {
      var node := SolrNodeName(obs.spec.cloud, pod);
      NothingHosted(obs.status.value, node);
      OrdinalZeroSuffix(obs.spec.cloud, n);
      EvictionExactly(obs.requests, Some(obs.spec.replicas), pod, HostsReplicas(obs.status.value, node), obs.io);
    }
    hide EvictReplicas, HostsReplicas, SolrNodeName, PodName, Lookup, Listed, ChangesOnly, BalanceReplicas;
  }

  /** A locked scaling up patches the replica count to its target exactly if that is above the count. */
  lemma ScaleUpExactly(r: SetRecord, obs: Observation, n: int)
    requires r.lock.Some? && r.lock.value.kind == ScaleUp && r.lock.value.metadata == Pods(n)
    ensures Reconcile(r, obs).Next?
    ensures Reconcile(r, obs).set'.replicas ==
            if n > r.replicas && obs.fieldPatch != LostCall then n else r.replicas
  {
  }

  // ----- what a claim growth records -----

  ghost predicate AllGrown(claims: seq<Pvc>, size: int) {
    forall i :: 0 <= i < |claims| ==> HasGrown(claims[i], size)
  }

  /** Some claim has not grown, does not ask for the size yet, and its request is rejected. */
  ghost predicate SomeRejected(obs: Observation, claims: seq<Pvc>, size: int) {
    exists i :: && 0 <= i < |claims| && !HasGrown(claims[i], size)
                && claims[i].request != Some(size) && obs.claimPatchFails(i)
  }

  lemma ClaimsExactly(obs: Observation, claims: seq<Pvc>, size: int)
    ensures AllExpanded(claims, size) <==> AllGrown(claims, size)
    ensures SomeRequestFails(claims, size, obs.claimPatchFails) <==> SomeRejected(obs, claims, size)
    ensures AllGrown(claims, size) ==> !SomeRejected(obs, claims, size)
  {
    hide IsExpanded, HasGrown;
    forall i | 0 <= i < |claims| ensures IsExpanded(claims[i], size) <==> HasGrown(claims[i], size) {
      GrownExactly(claims[i], size);
    }
    if SomeRejected(obs, claims, size) {
      var i :| && 0 <= i < |claims| && !HasGrown(claims[i], size)
               && claims[i].request != Some(size) && obs.claimPatchFails(i);
      assert NeedsRequest(claims[i], size);
    }
  }

  /** A locked claim growth records its size exactly if every claim has grown to it and the patch takes effect. */
  lemma GrowthRecordsExactly(r: SetRecord, obs: Observation, size: int)
    requires r.lock.Some? && r.lock.value.kind == PvcGrowth && r.lock.value.metadata == Size(size)
    ensures Reconcile(r, obs).Next?
    ensures Reconcile(r, obs).set'.minStorage ==
            if obs.claims.Some? && AllGrown(obs.claims.value, size) && obs.fieldPatch != LostCall
            then Some(size) else r.minStorage
  {
    hide AllExpanded, SomeRequestFails, AllGrown, SomeRejected;
    if obs.claims.Some? {
      ClaimsExactly(obs, obs.claims.value, size);
    }
  }

  // ----- when a locked operation ends -----

  /** The balancing has nothing left to do. */
  ghost predicate IsBalanced(r: SetRecord, obs: Observation, reason: string) {
    var id := "balance-replicas-" + reason;
    || r.replicas <= 1
    || (!obs.io.checkFails
        && if id in obs.requests then obs.requests[id] == Completed && obs.io.clear == Done
           else r.replicas == obs.readyReplicas && obs.balanceUnsupported)
  }

  ghost function ReasonOf(op: Op): string {
    match op.metadata
    case Reason(text) => text
    case _ => ""
  }

  /** The locked operation is done in this reconcile. */
  ghost predicate IsDone(r: SetRecord, op: Op, obs: Observation) {
    match op.kind
    case Update => r.replicas == obs.availableUpdated
    case ScaleDown =>
      op.metadata.Pods? && (|obs.pods| <= op.metadata.n || r.replicas > op.metadata.n + 1)
    case ScaleUp => op.metadata.Pods? && op.metadata.n <= r.replicas <= |obs.pods|
    case Balance => IsBalanced(r, obs, ReasonOf(op))
    case PvcGrowth =>
      && op.metadata.Size? && obs.claims.Some?
      && AllGrown(obs.claims.value, op.metadata.bytes) && obs.fieldPatch == Done
    case Unsupported(_) => true
  }

  /** What takes over the lock: a balancing after every scaling up, and after updates that moved replicas. */
  ghost function FollowedBy(r: SetRecord, op: Op, obs: Observation): Option<Op> {
    if op.kind == ScaleUp then Some(Op(Balance, Reason("ScaleUp"), obs.now))
    else if op.kind == Update && op.metadata == Migration(true) && obs.spec.replicas <= r.replicas then
      Some(Op(Balance, Reason("RollingUpdateComplete"), obs.now))
    else None
  }

  /** The operation waits for something that Solr does. */
  ghost predicate AwaitsSolr(r: SetRecord, op: Op, obs: Observation) {
    match op.kind
    case Update =>
      && r.replicas != obs.availableUpdated && obs.outOfDate
      && PodDeletion.Answered(obs.requests, Some(obs.spec.replicas), obs.update).inProgress
    case ScaleDown =>
      && op.metadata.Pods? && op.metadata.n >= 0 && |obs.pods| > op.metadata.n && r.replicas == op.metadata.n + 1
      && IsMoving(obs, op.metadata.n)
    case Balance =>
      var id := "balance-replicas-" + ReasonOf(op);
      && r.replicas > 1 && !obs.io.checkFails
      && if id in obs.requests then obs.requests[id] in {Submitted, Running} || obs.io.clear != Done
         else r.replicas == obs.readyReplicas && !obs.balanceUnsupported && obs.io.submit == Done
    case _ => false
  }

  /** A call of an update or a claim growth fails, or its metadata cannot be read. */
  ghost predicate IsFailing(r: SetRecord, op: Op, obs: Observation) {
    match op.kind
    case Update =>
      && r.replicas != obs.availableUpdated && obs.outOfDate
      && PodDeletion.Answered(obs.requests, Some(obs.spec.replicas), obs.update).failed
    case PvcGrowth =>
      || !op.metadata.Size? || obs.claims.None?
      || SomeRejected(obs, obs.claims.value, op.metadata.bytes)
      || (AllGrown(obs.claims.value, op.metadata.bytes) && obs.fieldPatch != Done)
    case _ => false
  }

  /** How long an operation may stay without Solr working for it, in seconds. */
  ghost function Patience(r: SetRecord, op: Op, obs: Observation): int {
    if op.kind in {Update, PvcGrowth} && !IsFailing(r, op, obs) then 600 else 60
  }

  lemma UpdateReport(r: SetRecord, op: Op, obs: Observation)
    requires op.kind == Update
    ensures var h := HandleUpdate(r, op, obs);
            && (h.complete <==> IsDone(r, op, obs)) && (h.inProgress <==> AwaitsSolr(r, op, obs))
            && (!h.complete ==> (h.failed <==> IsFailing(r, op, obs)))
            && (h.complete ==> LockNext(h.next, obs.now) == FollowedBy(r, op, obs))
  {
    hide PodDeletion.Answered;
  }

  lemma ScaleDownReport(r: SetRecord, op: Op, obs: Observation)
    requires op.kind == ScaleDown
    ensures var h := HandleScaleDown(r, op, obs);
            && (h.complete <==> IsDone(r, op, obs)) && (h.inProgress <==> AwaitsSolr(r, op, obs)) && h.next == None
  {
    hide EvictSinglePod, IsVacated, IsMoving;
    if op.metadata.Pods? && op.metadata.n >= 0 {
      VacatedExactly(obs, op.metadata.n);
    }
  }

  lemma BalanceReport(r: SetRecord, op: Op, obs: Observation)
    requires op.kind == Balance
    ensures var h := HandleBalance(r, op, obs);
            && (h.complete <==> IsDone(r, op, obs)) && (h.inProgress <==> AwaitsSolr(r, op, obs)) && h.next == None
  {
    BalancingExactly(obs.requests, r.replicas, obs.readyReplicas, ReasonOf(op), obs.io, obs.balanceUnsupported);
    hide BalanceReplicas;
  }

  lemma GrowthReport(r: SetRecord, op: Op, obs: Observation)
    requires op.kind == PvcGrowth
    ensures var h := HandlePvcGrowth(r, op, obs);
            && (h.complete <==> IsDone(r, op, obs)) && !h.inProgress && h.next == None
            && (h.failed <==> IsFailing(r, op, obs))
  {
    hide AllExpanded, SomeRequestFails, AllGrown, SomeRejected;
    if op.metadata.Size? && obs.claims.Some? {
      ClaimsExactly(obs, obs.claims.value, op.metadata.bytes);
    }
  }

  lemma HandleReport(r: SetRecord, op: Op, obs: Observation)
    requires !op.kind.Unsupported?
    ensures var h := Handle(r, op, obs);
            && (h.complete <==> IsDone(r, op, obs)) && (h.inProgress <==> AwaitsSolr(r, op, obs))
            && (!h.complete && op.kind in {Update, PvcGrowth} ==> (h.failed <==> IsFailing(r, op, obs)))
            && (h.complete ==> LockNext(h.next, obs.now) == FollowedBy(r, op, obs))
  {
    hide HandleUpdate, HandleScaleDown, HandleBalance, HandlePvcGrowth, IsFailing, IsBalanced, AllGrown;
    match op.kind
    case Update => UpdateReport(r, op, obs);
    case ScaleDown => ScaleDownReport(r, op, obs);
    case ScaleUp =>
    case Balance => BalanceReport(r, op, obs);
    case PvcGrowth => GrowthReport(r, op, obs);
  }

  /**
    What one reconcile does with the locked operation, whatever it observes. If the lock cannot be
    patched, lock and queue stay. An operation that is done makes room for the one that follows it. An
    operation that does not wait for Solr and has run out of patience goes to the back of the queue,
    unless restoring the pods of an update or a scaling down fails. All others keep the lock.
   */
  lemma LockedExactly(r: SetRecord, obs: Observation)
    requires r.lock.Some?
    ensures Reconcile(r, obs).Next?
    ensures var op, r' := r.lock.value, Reconcile(r, obs).set';
            if !obs.lockPatchOk then
              r'.lock == r.lock && r'.queue == r.queue
            else if IsDone(r, op, obs) then
              r'.lock == FollowedBy(r, op, obs) && r'.queue == r.queue
            else if && !AwaitsSolr(r, op, obs) && obs.now - op.startTime > Patience(r, op, obs)
                    && !(op.kind in {Update, ScaleDown} && obs.cleanupFails) then
              r'.lock == None && r'.queue == r.queue + [op]
            else
              r'.lock == r.lock && r'.queue == r.queue
  {
    hide Handle, IsDone, AwaitsSolr, IsFailing;
    var op := r.lock.value;
    if op.kind.Unsupported? {
      UnsupportedIsDone(r, op, obs);
    } else {
      HandleReport(r, op, obs);
      HandleFrame(r, op, obs);
    }
  }

  lemma UnsupportedIsDone(r: SetRecord, op: Op, obs: Observation)
    requires op.kind.Unsupported?
    ensures IsDone(r, op, obs) && FollowedBy(r, op, obs) == None
  {
  }

  /**
    A balancing whose request failed in Solr is never given up. With more than one replica it keeps the
    lock or goes back to the queue, and clearing the request lets the next attempt submit it again.
   */
  lemma FailedBalancingIsRetried(r: SetRecord, obs: Observation)
    requires r.lock.Some? && r.lock.value.kind == Balance && r.replicas > 1
    requires var id := "balance-replicas-" + ReasonOf(r.lock.value);
             id in obs.requests && obs.requests[id] == Failed
    ensures Reconcile(r, obs).Next?
    ensures var op, r' := r.lock.value, Reconcile(r, obs).set';
            || (r'.lock == Some(op) && r'.queue == r.queue)
            || (r'.lock == None && r'.queue == r.queue + [op])
    ensures var id := "balance-replicas-" + ReasonOf(r.lock.value);
            id in RequestsLeft(r, obs) <==> obs.io.checkFails || obs.io.clear == LostCall
  {
    LockedExactly(r, obs);
    BalancingExactly(obs.requests, r.replicas, obs.readyReplicas, ReasonOf(r.lock.value), obs.io,
                     obs.balanceUnsupported);
    hide Reconcile, BalanceReplicas;
  }

  // ----- what is started -----

  /** Pods are out of date and the operator manages the update. */
  ghost predicate WantsUpdate(obs: Observation) {
    obs.spec.managedUpdate && obs.outOfDate
  }

  /** The user asks for more storage than is recorded, and the storage class does not rule it out. */
  ghost predicate WantsGrowth(r: SetRecord, obs: Observation) {
    && obs.spec.storage.Some? && r.minStorage.Some? && obs.spec.storage.value > r.minStorage.value
    && !obs.expansionForbidden
  }

  /** Fewer pods are asked for, but not none, their replicas are to be moved, and no pod is left to go. */
  ghost predicate WantsScaleDown(r: SetRecord, obs: Observation) {
    0 < obs.spec.replicas < r.replicas && obs.spec.vacateOnScaleDown && |obs.pods| <= r.replicas
  }

  /** More pods are asked for, replicas are to be moved onto them, and the pods there are know the new hosts. */
  ghost predicate WantsScaleUp(r: SetRecord, obs: Observation) {
    && obs.spec.replicas > r.replicas && obs.spec.populateOnScaleUp
    && |obs.pods| >= r.replicas && obs.hostAliasesReady
  }

  /** What the user asks for can be patched at once. */
  ghost predicate WantsUnmanaged(r: SetRecord, obs: Observation) {
    || (obs.spec.replicas < r.replicas && (obs.spec.replicas <= 0 || !obs.spec.vacateOnScaleDown))
    || (obs.spec.replicas > r.replicas && !obs.spec.populateOnScaleUp)
  }

  /** The operation that brings a queued one up to date, if what it is for is still wanted. */
  ghost function UpToDate(r: SetRecord, obs: Observation, op: Op): Op {
    match op.kind
    case Update => if WantsUpdate(obs) then Op(Update, Migration(obs.migrates), 0) else op
    case PvcGrowth => if WantsGrowth(r, obs) then Op(PvcGrowth, Size(obs.spec.storage.value), 0) else op
    case ScaleDown =>
      if WantsScaleDown(r, obs) then Op(ScaleDown, Pods(r.replicas - 1), 0)
      else if WantsScaleUp(r, obs) then Op(ScaleUp, Pods(obs.spec.replicas), 0)
      else if obs.spec.replicas == r.replicas then Op(Balance, Reason("UndoFailedScaleDown"), 0)
      else op
    case ScaleUp =>
      if WantsScaleDown(r, obs) then Op(ScaleDown, Pods(r.replicas - 1), 0)
      else if WantsScaleUp(r, obs) then Op(ScaleUp, Pods(obs.spec.replicas), 0)
      else op
    case _ => op
  }

  lemma NeededExactly(r: SetRecord, obs: Observation)
    ensures UpdateNeeded(obs) == if WantsUpdate(obs) then Some(Op(Update, Migration(obs.migrates), 0)) else None
    ensures PvcGrowthNeeded(r, obs) ==
            if WantsGrowth(r, obs) then Some(Op(PvcGrowth, Size(obs.spec.storage.value), 0)) else None
    ensures ScaleNeeded(r, obs, false) ==
            if WantsScaleDown(r, obs) then Some(Op(ScaleDown, Pods(r.replicas - 1), 0))
            else if WantsScaleUp(r, obs) then Some(Op(ScaleUp, Pods(obs.spec.replicas), 0))
            else None
    ensures ScalesUnmanaged(r, obs.spec) <==> WantsUnmanaged(r, obs)
  {
  }

  lemma UpToDateExactly(r: SetRecord, obs: Observation, op: Op)
    ensures var current := CurrentValue(r, obs, op);
            UpToDate(r, obs, op) == if current.Some? then current.value else op
  {
  }

  /** The head of the queue takes the lock, and every entry is brought up to date. */
  ghost predicate RetriesHead(r: SetRecord, r': SetRecord, obs: Observation) {
    && |r.queue| == |r'.queue| + 1
    && r'.lock == Some(UpToDate(r, obs, r.queue[0]).(startTime := obs.now))
    && forall i :: 0 <= i < |r'.queue| ==> r'.queue[i] == UpToDate(r, obs, r.queue[i + 1])
  }

  /**
    What one reconcile starts with nothing locked, and with which target. A wanted update goes first, then a
    claim growth, then a scaling, each unless one of its sort is queued. If nothing starts, the head of
    the queue is retried, and the whole queue is brought up to date with what is wanted now.
   */
  lemma StartsExactly(r: SetRecord, obs: Observation)
    requires r.lock.None? && OneEach(r) && obs.lockPatchOk
    ensures Reconcile(r, obs).Next?
    ensures var r' := Reconcile(r, obs).set';
            if WantsUpdate(obs) && !Queued(r.queue, Update) then
              r'.lock == Some(Op(Update, Migration(obs.migrates), obs.now)) && r'.queue == r.queue
            else if WantsGrowth(r, obs) && !Queued(r.queue, PvcGrowth) then
              r'.lock == Some(Op(PvcGrowth, Size(obs.spec.storage.value), obs.now)) && r'.queue == r.queue
            else if WantsScaleDown(r, obs) && !Queued(r.queue, ScaleDown) && !Queued(r.queue, ScaleUp) then
              r'.lock == Some(Op(ScaleDown, Pods(r.replicas - 1), obs.now)) && r'.queue == r.queue
            else if WantsScaleUp(r, obs) && !Queued(r.queue, ScaleDown) && !Queued(r.queue, ScaleUp) then
              r'.lock == Some(Op(ScaleUp, Pods(obs.spec.replicas), obs.now)) && r'.queue == r.queue
            else if r.queue != [] then
              RetriesHead(r, r', obs)
            else
              r'.lock == None && r'.queue == []
  {
    StartPriority(r, obs);
    NeededExactly(r, obs);
    hide Reconcile, UpdateNeeded, PvcGrowthNeeded, ScaleNeeded, Queued, OneEach, WantsUpdate, WantsGrowth,
         WantsScaleDown, WantsScaleUp, RetriesHead, UpToDate;
    if !StartsUpdate(r, obs) && !StartsGrowth(r, obs) && !StartsScale(r, obs) && r.queue != [] {
      RetriesUpToDate(r, obs);
    }
  }

  lemma RetriesUpToDate(r: SetRecord, obs: Observation)
    requires r.lock.None? && OneEach(r) && Reconcile(r, obs).Next? && r.queue != []
    requires Popped(r, Reconcile(r, obs).set')
    ensures RetriesHead(r, Reconcile(r, obs).set', obs)
  {
    hide Reconcile, UpdateNeeded, PvcGrowthNeeded, ScaleNeeded, OneEach, UpToDate, CurrentValue, SameTurn;
    var r' := Reconcile(r, obs).set';
    forall i | 0 <= i < |r.queue|
      ensures InTurn(r', i) == if i == 0 then Locked(UpToDate(r, obs, r.queue[0]), obs.now)
                               else UpToDate(r, obs, r.queue[i])
    {
      RetryUsesCurrentValues(r, obs, i);
      UpToDateExactly(r, obs, r.queue[i]);
    }
    assert InTurn(r', 0) == r'.lock.value;
    assert forall i :: 1 <= i < |r.queue| ==> InTurn(r', i) == r'.queue[i - 1];
  }

  /**
    With nothing locked, the replica count becomes what the user asks for exactly if this needs no moving
    of replicas, nothing that goes first starts, and the patch takes effect. Otherwise it stays.
   */
  lemma UnmanagedScalesExactly(r: SetRecord, obs: Observation)
    requires r.lock.None? && OneEach(r)
    ensures Reconcile(r, obs).Next?
    ensures Reconcile(r, obs).set'.replicas ==
            if && WantsUnmanaged(r, obs) && obs.fieldPatch != LostCall
               && !(WantsUpdate(obs) && !Queued(r.queue, Update))
               && !(WantsGrowth(r, obs) && !Queued(r.queue, PvcGrowth))
            then obs.spec.replicas else r.replicas
  {
    ReconcileOneEach(r, obs);
    NeededExactly(r, obs);
    QueuedAtIsQueued(r.queue, Update);
    QueuedAtIsQueued(r.queue, PvcGrowth);
    hide UpdateNeeded, PvcGrowthNeeded, ScaleNeeded, ScalesUnmanaged, OneEach, QueuedAt, Queued, Refresh,
         WantsUpdate, WantsGrowth, WantsUnmanaged;
  }
}
