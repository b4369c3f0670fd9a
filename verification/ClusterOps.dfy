/**
  The cluster operation lock and its retry queue, kept in annotations of the StatefulSet and advanced
  one reconcile at a time. `Reconcile` is one such step: it runs the locked operation, or looks for
  an operation to start when nothing is locked. Everything outside the operator (the user's resource,
  the pods, Solr's answers, the clock, and which patches the API server accepts) is an `Observation`.
 */
module ClusterOps {
  import opened Prelude
  import opened Naming
  import opened ClusterState
  import opened AsyncRequests
  import opened PvcExpansion
  import PodDeletion

  // ----- operations -----

  datatype OpKind = ScaleDown | ScaleUp | Update | Balance | PvcGrowth | Unsupported(name: string)

  /** The metadata string of an operation, as it is read back. */
  datatype Metadata = Pods(n: int) | Size(bytes: int) | Migration(required: bool) | Reason(text: string) | Unreadable

  datatype Op = Op(kind: OpKind, metadata: Metadata, startTime: int)

  /** An operation that was not locked yet. */
  function NewOp(kind: OpKind, metadata: Metadata): Op {
    Op(kind, metadata, 0)
  }

  /** Taking the lock stamps the operation with the time. */
  function Locked(op: Op, now: int): Op {
    op.(startTime := now)
  }

  /** The fields of the StatefulSet that cluster operations read and write. */
  datatype SetRecord = SetRecord(lock: Option<Op>, queue: seq<Op>, replicas: int, minStorage: Option<int>)

  // ----- the outside world -----

  datatype Spec = Spec(
    cloud: Cloud,
    replicas: int,
    vacateOnScaleDown: bool,
    populateOnScaleUp: bool,
    managedUpdate: bool,
    storage: Option<int>)

  datatype Observation = Observation(
    spec: Spec,
    now: int,                          // seconds
    pods: seq<string>,                 // the pods of the StatefulSet, by name
    readyReplicas: int,
    outOfDate: bool,                   // some pod is out of date
    migrates: bool,                    // some running or scheduled out-of-date pod has ephemeral data
    availableUpdated: int,
    hostAliasesReady: bool,            // every pod knows the hosts of the pods to come, where that matters
    status: Option<ClusterStatus>,     // Solr's cluster status, unless the call fails
    requests: Requests,                // Solr's asynchronous requests
    io: Io,
    balanceUnsupported: bool,
    update: PodDeletion.UpdateWork,    // the pods that a rolling update finds and selects
    readinessPatchFails: bool,
    claims: Option<seq<Pvc>>,
    claimPatchFails: int -> bool,      // whether the request for each listed claim is rejected
    expansionForbidden: bool,          // the storage class rules out expansion
    cleanupFails: bool,
    fieldPatch: CallOutcome,           // how the patch of replicas or storage size goes
    lockPatchOk: bool)                 // the patch of lock and queue takes effect, whatever it answers

  const MINUTE := 60

  // ----- running the locked operation -----

  /** What a handler reports, with the StatefulSet it leaves behind. */
  datatype Report = Report(set': SetRecord, complete: bool, inProgress: bool, failed: bool, next: Option<Op>)

  function Waiting(r: SetRecord): Report {
    Report(r, false, false, false, None)
  }

  function Erring(r: SetRecord): Report {
    Report(r, false, false, true, None)
  }

  /** The StatefulSet after a patch of its replicas, which may take effect and still report an error. */
  function WithReplicas(r: SetRecord, replicas: int, patch: CallOutcome): SetRecord {
    if TookEffect(patch) then r.(replicas := replicas) else r
  }

  function HandleUpdate(r: SetRecord, op: Op, obs: Observation): Report {
    if r.replicas == obs.availableUpdated then
      var migrated := op.metadata.Migration? && op.metadata.required;
      var next := if migrated && obs.spec.replicas <= r.replicas
                  then Some(NewOp(Balance, Reason("RollingUpdateComplete"))) else None;
      Report(r, true, false, !op.metadata.Migration? && op.metadata != Reason(""), next)
    else if !obs.outOfDate then
      Waiting(r)
    else
      var a := PodDeletion.Answered(obs.requests, Some(obs.spec.replicas), obs.update);
      Report(r, false, a.inProgress, a.failed, None)
  }

  /** What became of a pod that is to be emptied, with the requests left in Solr. */
  datatype Eviction = Eviction(podIsEmpty: bool, inProgress: bool, failed: bool, requests: Requests)

  /** Empties the pod with the given ordinal. It counts as empty only if the status shows no replica on it. */
  function EvictSinglePod(obs: Observation, ordinal: nat): Eviction {
    var pod := PodName(obs.spec.cloud, ordinal);
    if obs.status.None? then
      Eviction(false, false, true, obs.requests)
    else
      var has := HostsReplicas(obs.status.value, SolrNodeName(obs.spec.cloud, pod));
      if pod !in obs.pods then
        Eviction(!has, false, true, obs.requests)
      else if obs.readinessPatchFails then
        Eviction(false, false, true, obs.requests)
      else
        var a := EvictReplicas(obs.requests, Some(obs.spec.replicas), pod, has, obs.io);
        Eviction(!a.failed && a.finished && !has, a.inProgress, a.failed, a.requests)
  }

  /** There is no pod with a negative ordinal. */
  function EvictOrdinal(obs: Observation, ordinal: int): Eviction {
    if ordinal < 0 then Eviction(false, false, true, obs.requests) else EvictSinglePod(obs, ordinal)
  }

  function HandleScaleDown(r: SetRecord, op: Op, obs: Observation): Report {
    if !op.metadata.Pods? then
      Erring(r)
    else
      var to := op.metadata.n;
      if |obs.pods| <= to then
        Report(r, true, false, false, None)
      else if r.replicas <= to then
        Waiting(r)
      else if r.replicas > to + 1 then
        Report(r, true, false, false, None)
      else
        var e := EvictOrdinal(obs, to);
        if e.failed || !e.podIsEmpty then
          Report(r, false, e.inProgress, e.failed, None)
        else
          Report(WithReplicas(r, to, obs.fieldPatch), false, e.inProgress, !obs.fieldPatch.Done?, None)
  }

  function HandleScaleUp(r: SetRecord, op: Op, obs: Observation): Report {
    if !op.metadata.Pods? then
      Erring(r)
    else if r.replicas < op.metadata.n then
      Report(WithReplicas(r, op.metadata.n, obs.fieldPatch), false, false, !obs.fieldPatch.Done?, None)
    else if |obs.pods| >= r.replicas then
      Report(r, true, false, false, Some(NewOp(Balance, Reason("ScaleUp"))))
    else
      Waiting(r)
  }

  function HandleBalance(r: SetRecord, op: Op, obs: Observation): Report {
    var a := BalanceReplicas(obs.requests, r.replicas, obs.readyReplicas, BalanceReason(op), obs.io,
                             obs.balanceUnsupported);
    Report(r, a.finished, a.inProgress, a.failed, None)
  }

  predicate AllExpanded(claims: seq<Pvc>, size: int) {
    forall i :: 0 <= i < |claims| ==> IsExpanded(claims[i], size)
  }

  predicate SomeRequestFails(claims: seq<Pvc>, size: int, fails: int -> bool) {
    exists i :: 0 <= i < |claims| && NeedsRequest(claims[i], size) && fails(i)
  }

  function HandlePvcGrowth(r: SetRecord, op: Op, obs: Observation): Report {
    if !op.metadata.Size? || obs.claims.None? then
      Erring(r)
    else if SomeRequestFails(obs.claims.value, op.metadata.bytes, obs.claimPatchFails) then
      Erring(r)
    else if AllExpanded(obs.claims.value, op.metadata.bytes) then
      var r' := if TookEffect(obs.fieldPatch) then r.(minStorage := Some(op.metadata.bytes)) else r;
      Report(r', obs.fieldPatch.Done?, false, !obs.fieldPatch.Done?, None)
    else
      Waiting(r)
  }

  function Handle(r: SetRecord, op: Op, obs: Observation): Report
    requires !op.kind.Unsupported?
  {
    match op.kind
    case Update => HandleUpdate(r, op, obs)
    case ScaleDown => HandleScaleDown(r, op, obs)
    case ScaleUp => HandleScaleUp(r, op, obs)
    case Balance => HandleBalance(r, op, obs)
    case PvcGrowth => HandlePvcGrowth(r, op, obs)
  }

  /** The scale down gets to emptying the pod with the highest ordinal. */
  predicate EmptiesPod(r: SetRecord, op: Op, obs: Observation) {
    op.metadata.Pods? && |obs.pods| > op.metadata.n && r.replicas == op.metadata.n + 1
  }

  /** The update gets to its pods. */
  predicate UpdatesPods(r: SetRecord, obs: Observation) {
    r.replicas != obs.availableUpdated && obs.outOfDate
  }

  function BalanceReason(op: Op): string {
    if op.metadata.Reason? then op.metadata.text else ""
  }

  /** The requests in Solr after one reconcile. */
  function RequestsLeft(r: SetRecord, obs: Observation): Requests {
    if r.lock.None? then obs.requests
    else
      var op := r.lock.value;
      match op.kind
      case Update =>
        if UpdatesPods(r, obs)
        then PodDeletion.Answered(obs.requests, Some(obs.spec.replicas), obs.update).requests else obs.requests
      case ScaleDown =>
        if EmptiesPod(r, op, obs) then EvictOrdinal(obs, op.metadata.n).requests else obs.requests
      case Balance =>
        BalanceReplicas(obs.requests, r.replicas, obs.readyReplicas, BalanceReason(op), obs.io,
                        obs.balanceUnsupported).requests
      case _ => obs.requests
  }

  /** Rolling updates and claim growth may take ten minutes, everything else and every failure one. */
  predicate TimedOut(op: Op, failed: bool, now: int) {
    var runtime := now - op.startTime;
    || (failed && runtime > MINUTE)
    || (op.kind != Update && op.kind != PvcGrowth && runtime > MINUTE)
    || runtime > 10 * MINUTE
  }

  predicate CleansUp(kind: OpKind) {
    kind == Update || kind == ScaleDown
  }

  function LockNext(next: Option<Op>, now: int): Option<Op> {
    if next.Some? then Some(Locked(next.value, now)) else None
  }

  function RunLocked(r: SetRecord, op: Op, obs: Observation): SetRecord {
    if op.kind.Unsupported? then
      if obs.lockPatchOk then r.(lock := None) else r
    else
      var h := Handle(r, op, obs);
      if h.complete then
        if obs.lockPatchOk then h.set'.(lock := LockNext(h.next, obs.now)) else h.set'
      else if h.inProgress || !TimedOut(op, h.failed, obs.now) || (CleansUp(op.kind) && obs.cleanupFails) then
        h.set'
      else if obs.lockPatchOk then
        h.set'.(lock := None, queue := h.set'.queue + [op])
      else
        h.set'
  }

  // ----- starting an operation -----

  /** Positions of the last queued operation of each kind. */
  function QueuedAt(queue: seq<Op>): (m: map<OpKind, nat>)
    ensures forall kind :: kind in m ==> m[kind] < |queue| && queue[m[kind]].kind == kind
    ensures forall i :: 0 <= i < |queue| ==> queue[i].kind in m && i <= m[queue[i].kind]
  {
    if queue == [] then map[]
    else QueuedAt(queue[..|queue| - 1])[queue[|queue| - 1].kind := |queue| - 1]
  }

  function UpdateNeeded(obs: Observation): Option<Op> {
    if obs.spec.managedUpdate && obs.outOfDate then Some(NewOp(Update, Migration(obs.migrates))) else None
  }

  function PvcGrowthNeeded(r: SetRecord, obs: Observation): Option<Op> {
    if obs.spec.storage.None? || r.minStorage.None? then None
    else if obs.spec.storage.value <= r.minStorage.value || obs.expansionForbidden then None
    else Some(NewOp(PvcGrowth, Size(obs.spec.storage.value)))
  }

  predicate ScalesDownManaged(r: SetRecord, spec: Spec) {
    spec.replicas < r.replicas && spec.replicas > 0 && spec.vacateOnScaleDown
  }

  predicate ScalesUpManaged(r: SetRecord, spec: Spec) {
    spec.replicas > r.replicas && spec.populateOnScaleUp
  }

  function ScaleNeeded(r: SetRecord, obs: Observation, scaleDownQueued: bool): Option<Op> {
    if obs.spec.replicas != r.replicas then
      if ScalesDownManaged(r, obs.spec) then
        if |obs.pods| > r.replicas then None else Some(NewOp(ScaleDown, Pods(r.replicas - 1)))
      else if ScalesUpManaged(r, obs.spec) then
        if |obs.pods| < r.replicas || !obs.hostAliasesReady then None
        else Some(NewOp(ScaleUp, Pods(obs.spec.replicas)))
      else
        None
    else if scaleDownQueued then
      Some(NewOp(Balance, Reason("UndoFailedScaleDown")))
    else
      None
  }

  /** Scaling that is neither managed nor locked is patched at once. */
  predicate ScalesUnmanaged(r: SetRecord, spec: Spec) {
    spec.replicas != r.replicas && !ScalesDownManaged(r, spec) && !ScalesUpManaged(r, spec)
  }

  datatype Outcome = Panic | Next(set': SetRecord)

  /** Locks a new operation. The queue in the annotation stays as it was. */
  function StartOp(r: SetRecord, op: Op, obs: Observation): SetRecord {
    if obs.lockPatchOk then r.(lock := Some(Locked(op, obs.now))) else r
  }

  /** Locks the first operation of a queue. */
  function RetryNext(r: SetRecord, queue: seq<Op>, obs: Observation): SetRecord {
    if queue != [] && obs.lockPatchOk then
      r.(lock := Some(Locked(queue[0], obs.now)), queue := queue[1..])
    else
      r
  }

  /** Brings a queued operation of some kind up to date, if there is one and it is needed. */
  function Refresh(queue: seq<Op>, queuedAt: map<OpKind, nat>, kind: OpKind, needed: Option<Op>): (q: seq<Op>)
    requires kind in queuedAt ==> queuedAt[kind] < |queue|
    ensures |q| == |queue|
  {
    if needed.Some? && kind in queuedAt then queue[queuedAt[kind] := needed.value] else queue
  }

  /** The scaling part of looking for an operation, with the queue as brought up to date so far. */
  function StartScaleOrRetry(r: SetRecord, queue: seq<Op>, queuedAt: map<OpKind, nat>, obs: Observation): Outcome
    requires forall kind :: kind in queuedAt ==> queuedAt[kind] < |queue|
  {
    var needed := ScaleNeeded(r, obs, ScaleDown in queuedAt);
    var r' := if ScalesUnmanaged(r, obs.spec) then WithReplicas(r, obs.spec.replicas, obs.fieldPatch) else r;
    if needed.Some? && ScaleDown in queuedAt && ScaleUp in queuedAt then
      Panic  // the entry for scaling down has consumed the operation
    else if needed.Some? && ScaleDown !in queuedAt && ScaleUp !in queuedAt then
      Next(StartOp(r', needed.value, obs))
    else
      Next(RetryNext(r', Refresh(Refresh(queue, queuedAt, ScaleDown, needed), queuedAt, ScaleUp, needed), obs))
  }

  function StartOrRetry(r: SetRecord, obs: Observation): Outcome {
    var queuedAt := QueuedAt(r.queue);
    var update, growth := UpdateNeeded(obs), PvcGrowthNeeded(r, obs);
    if update.Some? && Update !in queuedAt then
      Next(StartOp(r, update.value, obs))
    else if growth.Some? && PvcGrowth !in queuedAt then
      Next(StartOp(r, growth.value, obs))
    else
      var queue := Refresh(Refresh(r.queue, queuedAt, Update, update), queuedAt, PvcGrowth, growth);
      StartScaleOrRetry(r, queue, queuedAt, obs)
  }

  /** The cluster operation part of one reconcile. */
  function Reconcile(r: SetRecord, obs: Observation): Outcome {
    if r.lock.Some? then Next(RunLocked(r, r.lock.value, obs)) else StartOrRetry(r, obs)
  }
}
