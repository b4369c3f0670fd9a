/**
  What every run of the operator keeps about its lock and its retry queue, under any user changes,
  answers of Solr, timeouts and rejected patches.
 */
module ClusterOpsSafety {
  import opened Prelude
  import opened Naming
  import opened ClusterState
  import opened AsyncRequests
  import opened PvcExpansion
  import opened ClusterOps

  // ----- at most one operation of each sort -----

  /** Operations that compete for the same place. Balancing competes with nothing. */
  datatype Slot = UpdateSlot | GrowthSlot | ScaleSlot | NoSlot

  function SlotOf(op: Op): Slot {
    match op.kind
    case Update => UpdateSlot
    case PvcGrowth => GrowthSlot
    case ScaleDown => ScaleSlot
    case ScaleUp => ScaleSlot
    case _ => NoSlot
  }

  ghost predicate Clash(a: Op, b: Op) {
    SlotOf(a) == SlotOf(b) != NoSlot
  }

  ghost predicate OneEachQueued(queue: seq<Op>) {
    forall i, j :: 0 <= i < j < |queue| ==> !Clash(queue[i], queue[j])
  }

  /** Lock and queue hold at most one update, one claim growth, and one scaling up or down. */
  ghost predicate OneEach(r: SetRecord) {
    && OneEachQueued(r.queue)
    && (r.lock.Some? ==> forall i :: 0 <= i < |r.queue| ==> !Clash(r.lock.value, r.queue[i]))
  }

  /** Handlers leave lock and queue to the reconcile, and are followed by nothing but a balancing. */
  lemma HandleFrame(r: SetRecord, op: Op, obs: Observation)
    requires !op.kind.Unsupported?
    ensures var h := Handle(r, op, obs);
            h.set'.lock == r.lock && h.set'.queue == r.queue && (h.next.Some? ==> h.next.value.kind == Balance)
  {
  }

  lemma RunLockedOneEach(r: SetRecord, obs: Observation)
    requires OneEach(r) && r.lock.Some?
    ensures OneEach(RunLocked(r, r.lock.value, obs))
  {
    hide Handle;
    if !r.lock.value.kind.Unsupported? {
      HandleFrame(r, r.lock.value, obs);
    }
  }

  /** Bringing an operation up to date keeps its place, or gives it up. */
  lemma RefreshOneEach(queue: seq<Op>, queuedAt: map<OpKind, nat>, kind: OpKind, needed: Option<Op>)
    requires OneEachQueued(queue) && (kind in queuedAt ==> queuedAt[kind] < |queue|)
    requires needed.Some? && kind in queuedAt ==>
               SlotOf(needed.value) == NoSlot || SlotOf(needed.value) == SlotOf(queue[queuedAt[kind]])
    ensures OneEachQueued(Refresh(queue, queuedAt, kind, needed))
  {
  }

  lemma RetryOneEach(r: SetRecord, queue: seq<Op>, obs: Observation)
    requires OneEach(r) && r.lock.None? && OneEachQueued(queue)
    ensures OneEach(RetryNext(r, queue, obs))
  {
  }

  /** No queued operation competes with `op` when none of its kinds is queued. */
  lemma StartOneEach(r: SetRecord, op: Op, obs: Observation)
    requires OneEach(r) && r.lock.None?
    requires forall i :: 0 <= i < |r.queue| ==> !Clash(op, r.queue[i])
    ensures OneEach(StartOp(r, op, obs))
  {
  }

  lemma ScaleNeededKind(r: SetRecord, obs: Observation, scaleDownQueued: bool)
    ensures var needed := ScaleNeeded(r, obs, scaleDownQueued);
            needed.Some? ==>
              || needed.value.kind == ScaleDown
              || needed.value.kind == ScaleUp
              || (needed.value.kind == Balance && scaleDownQueued)
  {
  }

  ghost predicate SameKinds(queue: seq<Op>, before: seq<Op>) {
    |queue| == |before| && forall i :: 0 <= i < |queue| ==> queue[i].kind == before[i].kind
  }

  lemma SameKindsAlready(queue: seq<Op>)
    ensures SameKinds(queue, queue)
  {
  }

  lemma RefreshSameKinds(queue: seq<Op>, before: seq<Op>, kind: OpKind, needed: Option<Op>)
    requires SameKinds(queue, before) && (needed.Some? ==> needed.value.kind == kind)
    ensures SameKinds(Refresh(queue, QueuedAt(before), kind, needed), before)
  {
  }

  lemma NotBothScalingsQueued(queue: seq<Op>)
    requires OneEachQueued(queue)
    ensures !(ScaleDown in QueuedAt(queue) && ScaleUp in QueuedAt(queue))
  {
    var m := QueuedAt(queue);
    assert forall i, j :: 0 <= i < |queue| && 0 <= j < |queue| && i != j ==> !Clash(queue[i], queue[j]);
  }

  lemma ScalingNotQueuedNoClash(queue: seq<Op>, op: Op)
    requires op.kind in {ScaleDown, ScaleUp, Balance}
    requires ScaleDown !in QueuedAt(queue) && ScaleUp !in QueuedAt(queue)
    ensures forall i :: 0 <= i < |queue| ==> !Clash(op, queue[i])
  {
    forall i | 0 <= i < |queue| ensures !Clash(op, queue[i]) {
      assert queue[i].kind in QueuedAt(queue);
    }
  }

  lemma StartScaleOneEach(
    r: SetRecord, queue: seq<Op>, queuedAt: map<OpKind, nat>, obs: Observation)
    requires OneEach(r) && r.lock.None? && OneEachQueued(queue) && SameKinds(queue, r.queue)
    requires queuedAt == QueuedAt(r.queue)
    ensures StartScaleOrRetry(r, queue, queuedAt, obs).Next?
    ensures OneEach(StartScaleOrRetry(r, queue, queuedAt, obs).set')
  {
    hide ScaleNeeded, ScalesUnmanaged, RetryNext;
    var needed := ScaleNeeded(r, obs, ScaleDown in queuedAt);
    ScaleNeededKind(r, obs, ScaleDown in queuedAt);
    NotBothScalingsQueued(r.queue);
    var r' := if ScalesUnmanaged(r, obs.spec) then WithReplicas(r, obs.spec.replicas, obs.fieldPatch) else r;
    if needed.Some? && ScaleDown !in queuedAt && ScaleUp !in queuedAt {
      ScalingNotQueuedNoClash(r.queue, needed.value);
      StartOneEach(r', needed.value, obs);
    } else {
      RefreshOneEach(queue, queuedAt, ScaleDown, needed);
      var queue' := Refresh(queue, queuedAt, ScaleDown, needed);
      RefreshOneEach(queue', queuedAt, ScaleUp, needed);
      RetryOneEach(r', Refresh(queue', queuedAt, ScaleUp, needed), obs);
    }
  }

  lemma NotQueuedNoClash(queue: seq<Op>, op: Op)
    requires op.kind == Update || op.kind == PvcGrowth
    requires op.kind !in QueuedAt(queue)
    ensures forall i :: 0 <= i < |queue| ==> !Clash(op, queue[i])
  {
    forall i | 0 <= i < |queue| ensures !Clash(op, queue[i]) {
      assert queue[i].kind in QueuedAt(queue);
    }
  }

  lemma StartOrRetryOneEach(r: SetRecord, obs: Observation)
    requires OneEach(r) && r.lock.None?
    ensures StartOrRetry(r, obs).Next? && OneEach(StartOrRetry(r, obs).set')
  {
    hide StartScaleOrRetry, OneEachQueued, Refresh, SameKinds, QueuedAt;
    SameKindsAlready(r.queue);
    var queuedAt := QueuedAt(r.queue);
    var update, growth := UpdateNeeded(obs), PvcGrowthNeeded(r, obs);
    if update.Some? && Update !in queuedAt {
      NotQueuedNoClash(r.queue, update.value);
      StartOneEach(r, update.value, obs);
    } else if growth.Some? && PvcGrowth !in queuedAt {
      NotQueuedNoClash(r.queue, growth.value);
      StartOneEach(r, growth.value, obs);
    } else {
      RefreshOneEach(r.queue, queuedAt, Update, update);
      RefreshSameKinds(r.queue, r.queue, Update, update);
      var queue := Refresh(r.queue, queuedAt, Update, update);
      RefreshOneEach(queue, queuedAt, PvcGrowth, growth);
      RefreshSameKinds(queue, r.queue, PvcGrowth, growth);
      StartScaleOneEach(r, Refresh(queue, queuedAt, PvcGrowth, growth), queuedAt, obs);
    }
  }

  /** One reconcile never panics and keeps at most one operation of each sort. */
  lemma ReconcileOneEach(r: SetRecord, obs: Observation)
    requires OneEach(r)
    ensures Reconcile(r, obs).Next? && OneEach(Reconcile(r, obs).set')
  {
    if r.lock.Some? {
      RunLockedOneEach(r, obs);
    } else {
      StartOrRetryOneEach(r, obs);
    }
  }

  ghost predicate Queued(queue: seq<Op>, kind: OpKind) {
    exists i :: 0 <= i < |queue| && queue[i].kind == kind
  }

  lemma QueuedAtIsQueued(queue: seq<Op>, kind: OpKind)
    ensures kind in QueuedAt(queue) <==> Queued(queue, kind)
  {
  }

  /** A new operation for this sort of work takes the lock at once. */
  ghost predicate StartsUpdate(r: SetRecord, obs: Observation) {
    UpdateNeeded(obs).Some? && !Queued(r.queue, Update)
  }

  ghost predicate StartsGrowth(r: SetRecord, obs: Observation) {
    PvcGrowthNeeded(r, obs).Some? && !Queued(r.queue, PvcGrowth)
  }

  ghost predicate StartsScale(r: SetRecord, obs: Observation) {
    && ScaleNeeded(r, obs, false).Some?
    && !Queued(r.queue, ScaleDown) && !Queued(r.queue, ScaleUp)
  }

  /**
    The one way to panic: nothing is locked, both a scaling up and a scaling down are queued, and a
    scaling is needed before any other new operation takes the lock.
   */
  lemma PanicExactly(r: SetRecord, obs: Observation)
    ensures Reconcile(r, obs).Panic? <==>
              && r.lock.None?
              && Queued(r.queue, ScaleDown) && Queued(r.queue, ScaleUp)
              && !StartsUpdate(r, obs) && !StartsGrowth(r, obs)
              && ScaleNeeded(r, obs, true).Some?
  {
    QueuedAtIsQueued(r.queue, Update);
    QueuedAtIsQueued(r.queue, PvcGrowth);
    QueuedAtIsQueued(r.queue, ScaleDown);
    QueuedAtIsQueued(r.queue, ScaleUp);
  }

  // ----- runs -----

  /** A reconcile, the user removing the lock by hand, or the set being regenerated from its resource. */
  datatype Event = Reconciled(obs: Observation) | LockRemoved | Regenerated(storage: Option<int>)

  function Apply(r: SetRecord, e: Event): Outcome {
    match e
    case Reconciled(obs) => Reconcile(r, obs)
    case LockRemoved => Next(r.(lock := None))
    case Regenerated(storage) => Next(if r.minStorage.None? then r.(minStorage := storage) else r)
  }

  ghost predicate OpsRun(states: seq<SetRecord>, events: seq<Event>) {
    && |states| == |events| + 1
    && forall i :: 0 <= i < |events| ==> Apply(states[i], events[i]) == Next(states[i + 1])
  }

  ghost predicate StartsEmpty(states: seq<SetRecord>) {
    |states| > 0 && states[0].lock.None? && states[0].queue == []
  }

  /**
    In every run from an empty lock and queue, lock and queue hold at most one update, one claim
    growth and one scaling, so no reconcile can panic in any state of the run.
   */
  lemma {:induction false} RunOneEach(states: seq<SetRecord>, events: seq<Event>, i: nat)
    requires OpsRun(states, events) && StartsEmpty(states) && i < |states|
    ensures OneEach(states[i])
    ensures forall obs :: Reconcile(states[i], obs).Next?
  {
    if i > 0 {
      RunOneEach(states, events, i - 1);
      assert Apply(states[i - 1], events[i - 1]) == Next(states[i]);
      if events[i - 1].Reconciled? {
        ReconcileOneEach(states[i - 1], events[i - 1].obs);
      }
    }
    assert OneEach(states[i]);
    forall obs ensures Reconcile(states[i], obs).Next? {
      ReconcileOneEach(states[i], obs);
    }
  }

  // ----- operations are not lost, and wait in order -----

  function Held(r: SetRecord): nat {
    |r.queue| + if r.lock.Some? then 1 else 0
  }

  /** The locked operation ends for good: it is complete without a successor, or not supported. */
  predicate EndsForGood(r: SetRecord, obs: Observation) {
    && r.lock.Some?
    && (r.lock.value.kind.Unsupported?
        || (Handle(r, r.lock.value, obs).complete && Handle(r, r.lock.value, obs).next.None?))
  }

  /** The turn of a queued operation, possibly with its content brought up to date. */
  ghost predicate SameTurn(now: Op, before: Op) {
    || now == before
    || Clash(now, before)
    || (now.kind == Balance && before.kind == ScaleDown)
  }

  ghost predicate Popped(r: SetRecord, r': SetRecord) {
    && r.lock.None? && r'.lock.Some? && |r.queue| > 0 && |r'.queue| == |r.queue| - 1
    && SameTurn(r'.lock.value.(startTime := r.queue[0].startTime), r.queue[0])
    && forall i :: 0 <= i < |r'.queue| ==> SameTurn(r'.queue[i], r.queue[i + 1])
  }

  /** Every entry of the queue is still in its turn. */
  ghost predicate InTurnAll(queue: seq<Op>, before: seq<Op>) {
    |queue| == |before| && forall i :: 0 <= i < |queue| ==> SameTurn(queue[i], before[i])
  }

  /** The operation that stands in for one of the given kind. */
  predicate StandsInFor(needed: Op, kind: OpKind) {
    || (needed.kind == kind && kind in {Update, PvcGrowth})
    || (needed.kind in {ScaleDown, ScaleUp} && kind in {ScaleDown, ScaleUp})
    || (needed.kind == Balance && kind == ScaleDown)
  }

  lemma RefreshInTurn(queue: seq<Op>, before: seq<Op>, kind: OpKind, needed: Option<Op>)
    requires InTurnAll(queue, before)
    requires needed.Some? && kind in QueuedAt(before) ==> StandsInFor(needed.value, kind)
    ensures InTurnAll(Refresh(queue, QueuedAt(before), kind, needed), before)
  {
  }

  lemma RetryPops(r: SetRecord, queue: seq<Op>, obs: Observation, r0: SetRecord)
    requires r0.lock.None? && r.lock.None? && r.queue == r0.queue && InTurnAll(queue, r0.queue)
    ensures var r' := RetryNext(r, queue, obs);
            if queue != [] && obs.lockPatchOk then Popped(r0, r') else r'.lock == r.lock && r'.queue == r.queue
  {
    if queue != [] && obs.lockPatchOk {
      var r' := RetryNext(r, queue, obs);
      assert SameTurn(queue[0], r0.queue[0]);
      assert r'.lock.value.(startTime := r0.queue[0].startTime) == queue[0].(startTime := r0.queue[0].startTime);
    }
  }

  /** The locked operation is complete, and another one follows it. */
  predicate HasSuccessor(r: SetRecord, obs: Observation) {
    && r.lock.Some? && !r.lock.value.kind.Unsupported?
    && Handle(r, r.lock.value, obs).complete && Handle(r, r.lock.value, obs).next.Some?
  }

  /** The locked operation is neither complete nor waiting for Solr, and its time is up. */
  predicate IsPaused(r: SetRecord, obs: Observation) {
    && r.lock.Some? && !r.lock.value.kind.Unsupported?
    && var h := Handle(r, r.lock.value, obs);
       !h.complete && !h.inProgress && TimedOut(r.lock.value, h.failed, obs.now)
  }

  /** How lock and queue may change in one reconcile. */
  datatype Change = Unchanged | Ended | Succeeded | Requeued | Started | Retried

  ghost predicate Changes(r: SetRecord, r': SetRecord, obs: Observation, c: Change) {
    match c
    case Unchanged => r'.lock == r.lock && r'.queue == r.queue
    case Ended => EndsForGood(r, obs) && r'.lock.None? && r'.queue == r.queue
    case Succeeded =>
      && HasSuccessor(r, obs)
      && r'.lock == Some(Locked(Handle(r, r.lock.value, obs).next.value, obs.now)) && r'.queue == r.queue
    case Requeued => IsPaused(r, obs) && r'.lock.None? && r'.queue == r.queue + [r.lock.value]
    case Started => r.lock.None? && r'.lock.Some? && r'.queue == r.queue
    case Retried => Popped(r, r')
  }

  lemma StartScaleChanges(r: SetRecord, queue: seq<Op>, obs: Observation)
    requires r.lock.None? && InTurnAll(queue, r.queue)
    requires StartScaleOrRetry(r, queue, QueuedAt(r.queue), obs).Next?
    ensures var r' := StartScaleOrRetry(r, queue, QueuedAt(r.queue), obs).set';
            if ScaleNeeded(r, obs, false).Some? && ScaleDown !in QueuedAt(r.queue) && ScaleUp !in QueuedAt(r.queue) then
              r'.queue == r.queue &&
              r'.lock == if obs.lockPatchOk then Some(Locked(ScaleNeeded(r, obs, false).value, obs.now)) else None
            else if r.queue != [] && obs.lockPatchOk then
              Popped(r, r')
            else
              r'.queue == r.queue && r'.lock.None?
  {
    hide ScaleNeeded, ScalesUnmanaged, Popped, RetryNext, InTurnAll;
    var queuedAt := QueuedAt(r.queue);
    var needed := ScaleNeeded(r, obs, ScaleDown in queuedAt);
    ScaleNeededKind(r, obs, ScaleDown in queuedAt);
    var r' := if ScalesUnmanaged(r, obs.spec) then WithReplicas(r, obs.spec.replicas, obs.fieldPatch) else r;
    if !(needed.Some? && ScaleDown !in queuedAt && ScaleUp !in queuedAt) {
      RefreshInTurn(queue, r.queue, ScaleDown, needed);
      var queue' := Refresh(queue, queuedAt, ScaleDown, needed);
      RefreshInTurn(queue', r.queue, ScaleUp, needed);
      RetryPops(r', Refresh(queue', queuedAt, ScaleUp, needed), obs, r);
    }
  }

  lemma StartOrRetryChanges(r: SetRecord, obs: Observation)
    requires r.lock.None? && StartOrRetry(r, obs).Next?
    ensures var r' := StartOrRetry(r, obs).set';
            Changes(r, r', obs, Unchanged) || Changes(r, r', obs, Started) || Changes(r, r', obs, Retried)
  {
    hide StartOrRetry, Popped, ScaleNeeded, StartsScale, StartsUpdate, StartsGrowth;
    if StartsUpdate(r, obs) || StartsGrowth(r, obs) {
      StartsDirectly(r, obs);
    } else {
      BroughtUpToDate(r, obs);
    }
  }

  /** A needed update, or else a needed claim growth, that is not queued takes the lock. */
  lemma StartsDirectly(r: SetRecord, obs: Observation)
    requires r.lock.None? && (StartsUpdate(r, obs) || StartsGrowth(r, obs))
    ensures var op := if StartsUpdate(r, obs) then UpdateNeeded(obs) else PvcGrowthNeeded(r, obs);
            op.Some? && StartOrRetry(r, obs) == Next(StartOp(r, op.value, obs))
  {
    hide StartScaleOrRetry, ScaleNeeded, Queued, Refresh;
    QueuedAtIsQueued(r.queue, Update);
    QueuedAtIsQueued(r.queue, PvcGrowth);
  }

  /** If neither an update nor a claim growth starts, scaling is looked at with the queue up to date. */
  lemma BroughtUpToDate(r: SetRecord, obs: Observation)
    requires r.lock.None? && StartOrRetry(r, obs).Next? && !StartsUpdate(r, obs) && !StartsGrowth(r, obs)
    ensures var r' := StartOrRetry(r, obs).set';
            if StartsScale(r, obs) then
              r'.queue == r.queue &&
              r'.lock == if obs.lockPatchOk then Some(Locked(ScaleNeeded(r, obs, false).value, obs.now)) else None
            else if r.queue != [] && obs.lockPatchOk then
              Popped(r, r')
            else
              r'.queue == r.queue && r'.lock.None?
  {
    hide StartScaleOrRetry, Popped, ScaleNeeded, InTurnAll;
    var queuedAt := QueuedAt(r.queue);
    QueuedAtIsQueued(r.queue, Update);
    QueuedAtIsQueued(r.queue, PvcGrowth);
    QueuedAtIsQueued(r.queue, ScaleDown);
    QueuedAtIsQueued(r.queue, ScaleUp);
    var update, growth := UpdateNeeded(obs), PvcGrowthNeeded(r, obs);
    AlreadyInTurn(r.queue);
    RefreshInTurn(r.queue, r.queue, Update, update);
    var queue := Refresh(r.queue, queuedAt, Update, update);
    RefreshInTurn(queue, r.queue, PvcGrowth, growth);
    StartScaleChanges(r, Refresh(queue, queuedAt, PvcGrowth, growth), obs);
  }

  lemma AlreadyInTurn(queue: seq<Op>)
    ensures InTurnAll(queue, queue)
  {
  }

  /**
    Operations are not lost and wait in order. A reconcile leaves lock and queue alone, starts a new
    operation beside the queue, moves the head of the queue into the lock, puts the locked operation
    at the back of the queue, replaces it by the successor that it names on completion, or ends it. Only
    an operation that ends for good is dropped.
   */
  lemma OperationsAreNotLost(r: SetRecord, obs: Observation)
    requires Reconcile(r, obs).Next?
    ensures var r' := Reconcile(r, obs).set';
            && (exists c: Change :: Changes(r, r', obs, c))
            && (Held(r') < Held(r) ==> Changes(r, r', obs, Ended) && Held(r') == Held(r) - 1)
  {
    var r' := Reconcile(r, obs).set';
    if r.lock.None? {
      StartOrRetryChanges(r, obs);
      if Changes(r, r', obs, Unchanged) {
      } else if Changes(r, r', obs, Started) {
      } else {
        assert Changes(r, r', obs, Retried);
      }
    } else {
      RunLockedChanges(r, obs);
    }
  }

  lemma RunLockedChanges(r: SetRecord, obs: Observation)
    requires r.lock.Some?
    ensures var r' := RunLocked(r, r.lock.value, obs);
            || Changes(r, r', obs, Unchanged)
            || Changes(r, r', obs, Ended)
            || Changes(r, r', obs, Succeeded)
            || Changes(r, r', obs, Requeued)
  {
    hide Handle;
    if !r.lock.value.kind.Unsupported? {
      HandleFrame(r, r.lock.value, obs);
    }
  }

  /**
    With nothing locked, a needed update goes first, then claim growth, then scaling, unless one of
    the same sort is queued already. If nothing new starts, the head of the queue is retried.
   */
  lemma StartPriority(r: SetRecord, obs: Observation)
    requires r.lock.None? && OneEach(r) && obs.lockPatchOk
    ensures Reconcile(r, obs).Next?
    ensures var r' := Reconcile(r, obs).set';
            if StartsUpdate(r, obs) then
              r'.lock == Some(Locked(UpdateNeeded(obs).value, obs.now)) && r'.queue == r.queue
            else if StartsGrowth(r, obs) then
              r'.lock == Some(Locked(PvcGrowthNeeded(r, obs).value, obs.now)) && r'.queue == r.queue
            else if StartsScale(r, obs) then
              r'.lock == Some(Locked(ScaleNeeded(r, obs, false).value, obs.now)) && r'.queue == r.queue
            else if r.queue != [] then
              Popped(r, r')
            else
              r'.lock.None? && r'.queue == []
  {
    hide StartOrRetry, Popped, ScaleNeeded, StartsScale, OneEach;
    ReconcileOneEach(r, obs);
    if StartsUpdate(r, obs) || StartsGrowth(r, obs) {
      StartsDirectly(r, obs);
    } else {
      BroughtUpToDate(r, obs);
    }
  }

  /** What a queued operation is replaced by before it is retried, if its sort of work is needed now. */
  function CurrentValue(r: SetRecord, obs: Observation, op: Op): Option<Op> {
    match op.kind
    case Update => UpdateNeeded(obs)
    case PvcGrowth => PvcGrowthNeeded(r, obs)
    case ScaleDown => ScaleNeeded(r, obs, true)
    case ScaleUp => ScaleNeeded(r, obs, false)
    case _ => None
  }

  /** The operation in turn `i` after the head of the queue moved into the lock. */
  function InTurn(r': SetRecord, i: nat): Op
    requires r'.lock.Some? && i <= |r'.queue|
  {
    if i == 0 then r'.lock.value else r'.queue[i - 1]
  }

  /** The queue with every entry brought up to date. */
  function FreshQueue(r: SetRecord, obs: Observation): (q: seq<Op>)
    ensures |q| == |r.queue|
  {
    var queuedAt := QueuedAt(r.queue);
    var scale := ScaleNeeded(r, obs, ScaleDown in queuedAt);
    var queue := Refresh(Refresh(r.queue, queuedAt, Update, UpdateNeeded(obs)), queuedAt, PvcGrowth,
                         PvcGrowthNeeded(r, obs));
    Refresh(Refresh(queue, queuedAt, ScaleDown, scale), queuedAt, ScaleUp, scale)
  }

  lemma FreshQueueAt(r: SetRecord, obs: Observation, i: nat)
    requires OneEachQueued(r.queue) && i < |r.queue|
    ensures var current := CurrentValue(r, obs, r.queue[i]);
            FreshQueue(r, obs)[i] == if current.Some? then current.value else r.queue[i]
  {
    hide UpdateNeeded, PvcGrowthNeeded, ScaleNeeded, OneEachQueued, QueuedAt;
    UniqueIndex(r.queue, i);
    NotBothScalingsQueued(r.queue);
    assert r.queue[i].kind in QueuedAt(r.queue);
  }

  lemma RetriedFreshQueue(r: SetRecord, obs: Observation)
    requires r.lock.None? && Reconcile(r, obs).Next?
    requires var r' := Reconcile(r, obs).set'; r'.lock.Some? && |r'.queue| == |r.queue| - 1
    ensures var r' := Reconcile(r, obs).set';
            r'.lock == Some(Locked(FreshQueue(r, obs)[0], obs.now)) && r'.queue == FreshQueue(r, obs)[1..]
  {
    hide UpdateNeeded, PvcGrowthNeeded, ScaleNeeded, ScalesUnmanaged, Refresh, QueuedAt;
  }

  /** A retry brings every queued operation up to date with what is needed now, and changes no other. */
  lemma RetryUsesCurrentValues(r: SetRecord, obs: Observation, i: nat)
    requires r.lock.None? && OneEach(r) && Reconcile(r, obs).Next? && i < |r.queue|
    requires var r' := Reconcile(r, obs).set'; r'.lock.Some? && |r'.queue| == |r.queue| - 1
    ensures var current := CurrentValue(r, obs, r.queue[i]);
            var op := if current.Some? then current.value else r.queue[i];
            InTurn(Reconcile(r, obs).set', i) == if i == 0 then Locked(op, obs.now) else op
  {
    hide Reconcile, FreshQueue, CurrentValue;
    RetriedFreshQueue(r, obs);
    FreshQueueAt(r, obs, i);
  }

  lemma UniqueIndex(queue: seq<Op>, i: nat)
    requires OneEachQueued(queue) && i < |queue|
    ensures SlotOf(queue[i]) != NoSlot ==> QueuedAt(queue)[queue[i].kind] == i
    ensures forall kind :: kind in QueuedAt(queue) && kind != queue[i].kind ==> QueuedAt(queue)[kind] != i
  {
    var j := QueuedAt(queue)[queue[i].kind];
    assert i < j ==> !Clash(queue[i], queue[j]);
  }

  // ----- how a locked operation ends or pauses -----

  /**
    Balancing follows a completed scaling up always, and a completed update exactly if it moved
    replicas and no scaling up is pending. Nothing else is followed by another operation.
   */
  lemma BalancingFollows(r: SetRecord, obs: Observation)
    requires r.lock.Some? && obs.lockPatchOk
    ensures var op := r.lock.value;
            var r' := RunLocked(r, op, obs);
            (r'.lock.Some? && r'.lock != r.lock) ==>
              && HasSuccessor(r, obs) && (op.kind == ScaleUp || op.kind == Update)
              && r'.lock.value.kind == Balance && r'.lock.value.startTime == obs.now
    ensures var op := r.lock.value;
            op.kind == Update && r.replicas == obs.availableUpdated ==>
              RunLocked(r, op, obs).lock ==
              if op.metadata == Migration(true) && obs.spec.replicas <= r.replicas
              then Some(Op(Balance, Reason("RollingUpdateComplete"), obs.now)) else None
    ensures var op := r.lock.value;
            op.kind == ScaleUp && op.metadata.Pods? && op.metadata.n <= r.replicas <= |obs.pods| ==>
              RunLocked(r, op, obs).lock == Some(Op(Balance, Reason("ScaleUp"), obs.now))
  {
    hide HandleScaleDown, HandlePvcGrowth, BalanceReplicas;
    if !r.lock.value.kind.Unsupported? {
      HandleFrame(r, r.lock.value, obs);
      if r.lock.value.kind != Update && r.lock.value.kind != ScaleUp {
        NoSuccessor(r, r.lock.value, obs);
      }
    }
  }

  lemma NoSuccessor(r: SetRecord, op: Op, obs: Observation)
    requires !op.kind.Unsupported? && op.kind != Update && op.kind != ScaleUp
    ensures Handle(r, op, obs).next.None?
  {
  }

  /**
    A locked operation that is neither complete nor waiting for Solr is put back in the queue after a
    minute, or after ten for an update or a claim growth that is not failing. Not earlier.
   */
  lemma PausesAfterTimeout(r: SetRecord, obs: Observation)
    requires r.lock.Some? && !r.lock.value.kind.Unsupported? && obs.lockPatchOk && !obs.cleanupFails
    requires var h := Handle(r, r.lock.value, obs); !h.complete && !h.inProgress
    ensures var op, r' := r.lock.value, RunLocked(r, r.lock.value, obs);
            var patient := (op.kind == Update || op.kind == PvcGrowth) && !Handle(r, op, obs).failed;
            if obs.now - op.startTime > (if patient then 600 else 60)
            then r'.lock.None? && r'.queue == r.queue + [op]
            else r'.lock == r.lock && r'.queue == r.queue
  {
    hide Handle;
    HandleFrame(r, r.lock.value, obs);
  }
}
