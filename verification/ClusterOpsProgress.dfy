/**
  What runs of cluster operations do to the replica count and to the recorded storage size.
 */
module ClusterOpsProgress {
  import opened Prelude
  import opened Naming
  import opened ClusterState
  import opened AsyncRequests
  import opened PvcExpansion
  import opened ClusterOps
  import opened ClusterOpsSafety

  // ----- how the replica count may change -----

  /**
    The patch of a managed scale down: one replica less, in a step whose cluster status shows no
    replica on the pod with the highest ordinal, and whose request to empty that pod is gone.
   */
  ghost predicate ScalesDownByOne(r: SetRecord, r': SetRecord, obs: Observation) {
    && r.lock.Some? && r.lock.value.kind == ScaleDown
    && r.replicas >= 1 && r'.replicas == r.replicas - 1
    && var pod := PodName(obs.spec.cloud, r'.replicas);
       && pod in obs.pods
       && obs.status.Some?
       && !HostsReplicas(obs.status.value, SolrNodeName(obs.spec.cloud, pod))
       && (r'.replicas >= 1 || obs.spec.replicas >= 2 ==>
             MoveRequestId(pod) !in obs.requests || HasEnded(obs.requests[MoveRequestId(pod)]))
  }

  ghost predicate ScalesUpAsLocked(r: SetRecord, r': SetRecord) {
    && r.lock.Some? && r.lock.value.kind == ScaleUp
    && r.lock.value.metadata == Pods(r'.replicas) && r'.replicas > r.replicas
  }

  /** Scaling without moving replicas: only to zero, or where the user opted out of moving them. */
  ghost predicate ScalesAtOnce(r: SetRecord, r': SetRecord, spec: Spec) {
    && r.lock.None? && r'.replicas == spec.replicas
    && (r'.replicas < r.replicas ==> spec.replicas <= 0 || !spec.vacateOnScaleDown)
    && (r'.replicas > r.replicas ==> !spec.populateOnScaleUp)
  }

  lemma EvictedMeansEmpty(obs: Observation, ordinal: nat)
    requires var e := EvictSinglePod(obs, ordinal); e.podIsEmpty && !e.failed
    ensures var pod := PodName(obs.spec.cloud, ordinal);
            && pod in obs.pods
            && obs.status.Some?
            && !HostsReplicas(obs.status.value, SolrNodeName(obs.spec.cloud, pod))
            && (ordinal >= 1 || obs.spec.replicas >= 2 ==>
                  MoveRequestId(pod) !in obs.requests || HasEnded(obs.requests[MoveRequestId(pod)]))
  {
    hide HostsReplicas, SolrNodeName;
    OrdinalZeroSuffix(obs.spec.cloud, ordinal);
    hide PodName, HasSuffix;
  }

  lemma RunLockedReplicas(r: SetRecord, obs: Observation)
    requires r.lock.Some?
    ensures var r' := RunLocked(r, r.lock.value, obs);
            r'.replicas == r.replicas || ScalesDownByOne(r, r', obs) || ScalesUpAsLocked(r, r')
  {
    hide EvictSinglePod, HostsReplicas, SolrNodeName, PodName, BalanceReplicas, AllExpanded, SomeRequestFails;
    var op := r.lock.value;
    if op.kind == ScaleDown && op.metadata.Pods? && op.metadata.n >= 0 {
      var e := EvictSinglePod(obs, op.metadata.n);
      if e.podIsEmpty && !e.failed {
        EvictedMeansEmpty(obs, op.metadata.n);
      }
    }
  }

  lemma StartReplicas(r: SetRecord, obs: Observation)
    requires r.lock.None? && Reconcile(r, obs).Next?
    ensures var r' := Reconcile(r, obs).set';
            r'.replicas == r.replicas || ScalesAtOnce(r, r', obs.spec)
  {
    hide QueuedAt, ScaleNeeded;
  }

  /**
    The replica count changes in three ways only: by one downwards with proof that the pod is empty,
    upwards to the locked target, or at once where replicas are not to be moved.
   */
  lemma ReplicasChangeOnlyWithReason(r: SetRecord, obs: Observation)
    requires Reconcile(r, obs).Next?
    ensures var r' := Reconcile(r, obs).set';
            || r'.replicas == r.replicas
            || ScalesDownByOne(r, r', obs)
            || ScalesUpAsLocked(r, r')
            || ScalesAtOnce(r, r', obs.spec)
  {
    if r.lock.Some? {
      RunLockedReplicas(r, obs);
    } else {
      StartReplicas(r, obs);
    }
  }

  // ----- properties of all held operations -----

  /** The property does not look at when an operation was locked. */
  ghost predicate Timeless(p: Op -> bool) {
    forall op, t :: p(op) ==> p(Locked(op, t))
  }

  ghost predicate AllQueued(queue: seq<Op>, p: Op -> bool) {
    forall i :: 0 <= i < |queue| ==> p(queue[i])
  }

  ghost predicate AllHeld(r: SetRecord, p: Op -> bool) {
    AllQueued(r.queue, p) && (r.lock.Some? ==> p(r.lock.value))
  }

  /** The property holds of every operation that this reconcile may create. */
  ghost predicate HoldsOfNew(r: SetRecord, obs: Observation, p: Op -> bool) {
    && (UpdateNeeded(obs).Some? ==> p(UpdateNeeded(obs).value))
    && (PvcGrowthNeeded(r, obs).Some? ==> p(PvcGrowthNeeded(r, obs).value))
    && (forall q :: ScaleNeeded(r, obs, q).Some? ==> p(ScaleNeeded(r, obs, q).value))
    && (forall reason :: p(NewOp(Balance, Reason(reason))))
  }

  lemma RunLockedHeld(r: SetRecord, obs: Observation, p: Op -> bool)
    requires r.lock.Some? && AllHeld(r, p) && Timeless(p) && HoldsOfNew(r, obs, p)
    ensures AllHeld(RunLocked(r, r.lock.value, obs), p)
  {
    hide UpdateNeeded, PvcGrowthNeeded, ScaleNeeded, EvictSinglePod, BalanceReplicas, AllExpanded, SomeRequestFails;
    assert p(NewOp(Balance, Reason("ScaleUp")));
    assert p(NewOp(Balance, Reason("RollingUpdateComplete")));
  }

  lemma RetryHeld(r: SetRecord, queue: seq<Op>, obs: Observation, p: Op -> bool)
    requires AllHeld(r, p) && AllQueued(queue, p) && Timeless(p)
    ensures AllHeld(RetryNext(r, queue, obs), p)
  {
  }

  lemma RefreshHeld(queue: seq<Op>, queuedAt: map<OpKind, nat>, kind: OpKind, needed: Option<Op>, p: Op -> bool)
    requires AllQueued(queue, p) && (kind in queuedAt ==> queuedAt[kind] < |queue|)
    requires needed.Some? ==> p(needed.value)
    ensures AllQueued(Refresh(queue, queuedAt, kind, needed), p)
  {
  }

  lemma StartScaleHeld(r: SetRecord, queue: seq<Op>, obs: Observation, p: Op -> bool)
    requires r.lock.None? && AllHeld(r, p) && AllQueued(queue, p) && |queue| == |r.queue|
    requires Timeless(p) && HoldsOfNew(r, obs, p)
    requires StartScaleOrRetry(r, queue, QueuedAt(r.queue), obs).Next?
    ensures AllHeld(StartScaleOrRetry(r, queue, QueuedAt(r.queue), obs).set', p)
  {
    hide ScaleNeeded, ScalesUnmanaged, UpdateNeeded, PvcGrowthNeeded, RetryNext;
    var queuedAt := QueuedAt(r.queue);
    var needed := ScaleNeeded(r, obs, ScaleDown in queuedAt);
    assert needed.Some? ==> p(needed.value);
    var r' := if ScalesUnmanaged(r, obs.spec) then WithReplicas(r, obs.spec.replicas, obs.fieldPatch) else r;
    RefreshHeld(queue, queuedAt, ScaleDown, needed, p);
    var queue' := Refresh(queue, queuedAt, ScaleDown, needed);
    RefreshHeld(queue', queuedAt, ScaleUp, needed, p);
    RetryHeld(r', Refresh(queue', queuedAt, ScaleUp, needed), obs, p);
  }

  lemma StartOrRetryHeld(r: SetRecord, obs: Observation, p: Op -> bool)
    requires r.lock.None? && AllHeld(r, p) && Timeless(p) && HoldsOfNew(r, obs, p)
    requires StartOrRetry(r, obs).Next?
    ensures AllHeld(StartOrRetry(r, obs).set', p)
  {
    hide StartScaleOrRetry, ScaleNeeded, UpdateNeeded, PvcGrowthNeeded;
    var queuedAt := QueuedAt(r.queue);
    var update, growth := UpdateNeeded(obs), PvcGrowthNeeded(r, obs);
    if !(update.Some? && Update !in queuedAt) && !(growth.Some? && PvcGrowth !in queuedAt) {
      RefreshHeld(r.queue, queuedAt, Update, update, p);
      var queue := Refresh(r.queue, queuedAt, Update, update);
      RefreshHeld(queue, queuedAt, PvcGrowth, growth, p);
      StartScaleHeld(r, Refresh(queue, queuedAt, PvcGrowth, growth), obs, p);
    }
  }

  lemma ReconcileHeld(r: SetRecord, obs: Observation, p: Op -> bool)
    requires AllHeld(r, p) && Timeless(p) && HoldsOfNew(r, obs, p) && Reconcile(r, obs).Next?
    ensures AllHeld(Reconcile(r, obs).set', p)
  {
    if r.lock.Some? {
      RunLockedHeld(r, obs, p);
    } else {
      StartOrRetryHeld(r, obs, p);
    }
  }

  // ----- scaling towards a fixed target -----

  /** Held scalings do not lead past the target. */
  function AimsAt(target: int): Op -> bool {
    (op: Op) =>
      && (op.kind == ScaleDown ==> op.metadata.Pods? && op.metadata.n >= target)
      && (op.kind == ScaleUp ==> op.metadata == Pods(target))
  }

  /** `b` lies between `a` and the target. */
  predicate Approaches(a: int, b: int, target: int) {
    target <= b <= a || a <= b <= target
  }

  lemma ScaleNeededAims(r: SetRecord, obs: Observation)
    ensures HoldsOfNew(r, obs, AimsAt(obs.spec.replicas))
  {
  }

  lemma ReconcileApproaches(r: SetRecord, obs: Observation)
    requires Reconcile(r, obs).Next? && AllHeld(r, AimsAt(obs.spec.replicas))
    ensures var r' := Reconcile(r, obs).set';
            AllHeld(r', AimsAt(obs.spec.replicas)) && Approaches(r.replicas, r'.replicas, obs.spec.replicas)
  {
    hide Reconcile, HostsReplicas, SolrNodeName, PodName, UpdateNeeded, PvcGrowthNeeded, ScaleNeeded;
    ScaleNeededAims(r, obs);
    ReconcileHeld(r, obs, AimsAt(obs.spec.replicas));
    ReplicasChangeOnlyWithReason(r, obs);
    if r.lock.Some? && r.lock.value.kind == ScaleDown && Reconcile(r, obs).set'.replicas < r.replicas {
      LockedScaleDownTarget(r, obs);
    }
  }

  lemma LockedScaleDownTarget(r: SetRecord, obs: Observation)
    requires r.lock.Some? && r.lock.value.kind == ScaleDown
    requires Reconcile(r, obs).set'.replicas < r.replicas
    ensures r.lock.value.metadata == Pods(r.replicas - 1)
  {
    hide EvictSinglePod;
  }

  /** The user asks for the same number of pods throughout. */
  ghost predicate FixedTarget(events: seq<Event>, target: int) {
    forall i :: 0 <= i < |events| && events[i].Reconciled? ==> events[i].obs.spec.replicas == target
  }

  /**
    With a fixed target, whatever else happens, the replica count only ever moves towards it and
    never past it. So its distance to the target measures the progress of every scaling.
   */
  lemma {:induction false} RunApproachesTarget(states: seq<SetRecord>, events: seq<Event>, target: int, i: nat, j: nat)
    requires OpsRun(states, events) && StartsEmpty(states) && FixedTarget(events, target)
    requires i <= j < |states|
    ensures AllHeld(states[j], AimsAt(target))
    ensures Approaches(states[i].replicas, states[j].replicas, target)
    decreases j
  {
    hide Reconcile, OneEach;
    if j > 0 {
      RunApproachesTarget(states, events, target, if i < j then i else 0, j - 1);
      var e := events[j - 1];
      assert Apply(states[j - 1], e) == Next(states[j]);
      if e.Reconciled? {
        RunOneEach(states, events, j - 1);
        ReconcileApproaches(states[j - 1], e.obs);
      }
    }
  }

  function Distance(a: int, b: int): nat {
    if a <= b then b - a else a - b
  }

  /** How often the replica count was patched. */
  function ReplicaPatches(states: seq<SetRecord>): nat {
    if |states| <= 1 then 0
    else
      ReplicaPatches(states[..|states| - 1]) +
      if states[|states| - 1].replicas != states[|states| - 2].replicas then 1 else 0
  }

  lemma StepCostsDistance(a: int, b: int, target: int)
    requires Approaches(a, b, target)
    ensures Distance(b, target) + (if a != b then 1 else 0) <= Distance(a, target)
  {
  }

  /** With a fixed target there are never more patches of the replica count than pods to go. */
  lemma {:induction false} ScalingTerminates(states: seq<SetRecord>, events: seq<Event>, target: int)
    requires OpsRun(states, events) && StartsEmpty(states) && FixedTarget(events, target)
    ensures ReplicaPatches(states) + Distance(states[|events|].replicas, target) <= Distance(states[0].replicas, target)
  {
    hide Apply, Approaches;
    var n := |events|;
    if n > 0 {
      var states', events' := states[..n], events[..n - 1];
      assert forall i :: 0 <= i < n ==> states'[i] == states[i];
      ScalingTerminates(states', events', target);
      RunApproachesTarget(states, events, target, n - 1, n);
      StepCostsDistance(states[n - 1].replicas, states[n].replicas, target);
    }
  }

  // ----- the recorded storage size -----

  /** Held claim growths are not smaller than the recorded size. */
  function GrowsFrom(size: Option<int>): Op -> bool {
    (op: Op) => op.kind == PvcGrowth ==> op.metadata.Size? && size.Some? && op.metadata.bytes >= size.value
  }

  predicate NotSmaller(a: Option<int>, b: Option<int>) {
    a.Some? ==> b.Some? && b.value >= a.value
  }

  /** The step that records a size: every claim of the cloud is expanded to it. */
  ghost predicate RecordsExpanded(r: SetRecord, r': SetRecord, obs: Observation) {
    && r.lock.Some? && r.lock.value.kind == PvcGrowth && r.lock.value.metadata.Size?
    && r'.minStorage == Some(r.lock.value.metadata.bytes)
    && obs.claims.Some? && AllExpanded(obs.claims.value, r.lock.value.metadata.bytes)
  }

  lemma ReconcileStorage(r: SetRecord, obs: Observation)
    requires Reconcile(r, obs).Next?
    ensures var r' := Reconcile(r, obs).set';
            r'.minStorage == r.minStorage || RecordsExpanded(r, r', obs)
  {
    hide QueuedAt, ScaleNeeded, HandleUpdate, HandleScaleDown, HandleScaleUp, HandleBalance;
    if r.lock.Some? && !r.lock.value.kind.Unsupported? && r.lock.value.kind != PvcGrowth {
      OthersKeepStorage(r, r.lock.value, obs);
    }
  }

  lemma OthersKeepStorage(r: SetRecord, op: Op, obs: Observation)
    requires !op.kind.Unsupported? && op.kind != PvcGrowth
    ensures Handle(r, op, obs).set'.minStorage == r.minStorage
  {
  }

  lemma ReconcileGrows(r: SetRecord, obs: Observation)
    requires OneEach(r) && AllHeld(r, GrowsFrom(r.minStorage))
    ensures Reconcile(r, obs).Next?
    ensures var r' := Reconcile(r, obs).set';
            AllHeld(r', GrowsFrom(r'.minStorage)) && NotSmaller(r.minStorage, r'.minStorage)
  {
    hide Reconcile, UpdateNeeded, ScaleNeeded, OneEach;
    ReconcileOneEach(r, obs);
    GrowthNeededGrows(r, obs);
    ReconcileHeld(r, obs, GrowsFrom(r.minStorage));
    ReconcileStorage(r, obs);
    var r' := Reconcile(r, obs).set';
    if RecordsExpanded(r, r', obs) {
      RecordingLeavesNoOtherGrowth(r, obs);
    }
  }

  lemma GrowthNeededGrows(r: SetRecord, obs: Observation)
    ensures HoldsOfNew(r, obs, GrowsFrom(r.minStorage))
  {
  }

  lemma RecordingLeavesNoOtherGrowth(r: SetRecord, obs: Observation)
    requires OneEach(r) && r.lock.Some? && r.lock.value.kind == PvcGrowth && Reconcile(r, obs).Next?
    ensures var r' := Reconcile(r, obs).set';
            && (r'.lock.Some? ==> r'.lock == r.lock)
            && forall i :: 0 <= i < |r'.queue| ==> r'.queue[i].kind == PvcGrowth ==> r'.queue[i] == r.lock.value
  {
    forall i | 0 <= i < |r.queue| ensures r.queue[i].kind != PvcGrowth {
      assert !Clash(r.lock.value, r.queue[i]);
    }
  }

  lemma {:induction false} RunStorageHeld(states: seq<SetRecord>, events: seq<Event>, j: nat)
    requires OpsRun(states, events) && StartsEmpty(states) && j < |states|
    ensures AllHeld(states[j], GrowsFrom(states[j].minStorage))
  {
    hide Reconcile, OneEach;
    if j > 0 {
      RunStorageHeld(states, events, j - 1);
      var e := events[j - 1];
      assert Apply(states[j - 1], e) == Next(states[j]);
      if e.Reconciled? {
        RunOneEach(states, events, j - 1);
        ReconcileGrows(states[j - 1], e.obs);
      }
    }
  }

  /**
    The recorded minimum storage size never decreases in any run, and whenever it is raised every
    claim listed in that step has the capacity or has only its node-side resize left.
   */
  lemma {:induction false} RunStorageNeverShrinks(states: seq<SetRecord>, events: seq<Event>, i: nat, j: nat)
    requires OpsRun(states, events) && StartsEmpty(states) && i <= j < |states|
    ensures NotSmaller(states[i].minStorage, states[j].minStorage)
    ensures i < j && states[j - 1].minStorage.Some? && states[j].minStorage != states[j - 1].minStorage ==>
              events[j - 1].Reconciled? && RecordsExpanded(states[j - 1], states[j], events[j - 1].obs)
    decreases j
  {
    hide Reconcile, RecordsExpanded, OneEach, AllHeld;
    if i < j {
      RunStorageNeverShrinks(states, events, i, j - 1);
      RunStorageHeld(states, events, j - 1);
      RunOneEach(states, events, j - 1);
      var e := events[j - 1];
      assert Apply(states[j - 1], e) == Next(states[j]);
      if e.Reconciled? {
        ReconcileGrows(states[j - 1], e.obs);
        ReconcileStorage(states[j - 1], e.obs);
      }
    }
  }
}
