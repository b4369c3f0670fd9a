/**
  Cluster operations together with Solr's store of asynchronous requests: an operation keeps its lock
  while Solr works for it, and over every run each request goes through its life in order.
 */
module ClusterOpsRequests {
  import opened Prelude
  import opened Naming
  import opened ClusterState
  import opened AsyncRequests
  import opened ClusterOps
  import opened ClusterOpsSafety
  import PodDeletion
  import PodLifecycle

  // ----- a working request keeps the lock -----

  /** Solr has the request and has not ended it. */
  predicate IsWorking(requests: Requests, id: string) {
    id in requests && !HasEnded(requests[id])
  }

  /** The attempt on the pod gets to look at the request of the pod. */
  ghost predicate LooksAtMove(specReplicas: Option<int>, c: PodLifecycle.PodCase) {
    && PodLifecycle.Settled(c.conditions, c.gates) && PodDeletion.NeedsEviction(c) && !IsOnlyPod(specReplicas, c.name)
    && c.patchOk && !c.io.checkFails
  }

  ghost predicate DistinctPods(cases: seq<PodLifecycle.PodCase>) {
    forall i, j :: 0 <= i < j < |cases| ==> cases[i].name != cases[j].name
  }

  /** The locked operation looks at this request in this reconcile. */
  ghost predicate LooksAt(r: SetRecord, obs: Observation, id: string) {
    && r.lock.Some?
    && var op, spec := r.lock.value, Some(obs.spec.replicas);
       match op.kind
       case Update =>
         && UpdatesPods(r, obs) && obs.update.fetch != PodDeletion.FetchFailed
         && DistinctPods(PodDeletion.WorkedCases(obs.update))
         && exists c :: c in PodDeletion.WorkedCases(obs.update) && id == MoveRequestId(c.name) && LooksAtMove(spec, c)
       case ScaleDown =>
         && EmptiesPod(r, op, obs) && op.metadata.n >= 0
         && var pod := PodName(obs.spec.cloud, op.metadata.n);
            && id == MoveRequestId(pod) && pod in obs.pods && !IsOnlyPod(spec, pod)
            && obs.status.Some? && !obs.readinessPatchFails && !obs.io.checkFails
       case Balance => id == BalanceRequestId(BalanceReason(op)) && r.replicas > 1 && !obs.io.checkFails
       case _ => false
  }

  lemma AttemptWaits(requests: Requests, specReplicas: Option<int>, c: PodLifecycle.PodCase)
    requires LooksAtMove(specReplicas, c) && IsWorking(requests, MoveRequestId(c.name))
    ensures var d := PodLifecycle.DeletionOf(requests, specReplicas, c); d.inProgress && d.requests == requests
  {
    PodDeletion.StoppedNeedsEviction(c);
    AnswerMeaning(requests, specReplicas, c.name, c.hasReplicas, c.io);
    hide EvictReplicas, PodLifecycle.AllChanged, PodLifecycle.ConditionHasReason, PodLifecycle.SomeNeedsChange;
    hide PodDeletion.NeedsEviction, PodLifecycle.Settled, IsOnlyPod;
  }

  /** The request of one pod after all attempts is what its own attempt made of it. */
  lemma {:induction false} OwnAttemptDecides(
    requests: Requests, specReplicas: Option<int>, cases: seq<PodLifecycle.PodCase>, i: nat)
    requires DistinctPods(cases) && i < |cases|
    ensures var ds := PodDeletion.DeletionsOf(requests, specReplicas, cases);
            var before := PodDeletion.RequestsAfter(requests, ds[..i]);
            var id := MoveRequestId(cases[i].name);
            && ds[i] == PodLifecycle.DeletionOf(before, specReplicas, cases[i])
            && StateOf(before, id) == StateOf(requests, id)
            && StateOf(PodDeletion.RequestsAfter(requests, ds), id) == StateOf(ds[i].requests, id)
    decreases |cases|
  {
    hide PodLifecycle.DeletionOf, StateOf;
    forall j | 0 <= j < |cases| && j != i ensures MoveRequestId(cases[j].name) != MoveRequestId(cases[i].name) {
      RequestIdsDiffer(cases[j].name, cases[i].name);
    }
    hide MoveRequestId;
    var rest, last := cases[..|cases| - 1], cases[|cases| - 1];
    var ds := PodDeletion.DeletionsOf(requests, specReplicas, cases);
    var before := PodDeletion.DeletionsOf(requests, specReplicas, rest);
    PodDeletion.EachDeletion(requests, specReplicas, cases, i);
    PodDeletion.OthersKeepRequest(requests, specReplicas, cases[..i], MoveRequestId(cases[i].name));
    if i < |rest| {
      OwnAttemptDecides(requests, specReplicas, rest, i);
      assert ds == before + [ds[|rest|]] && ds[i] == before[i];
      PodDeletion.OtherKeepsRequest(PodDeletion.RequestsAfter(requests, before), specReplicas, last,
                                    MoveRequestId(cases[i].name));
    }
  }

  lemma UpdateWaits(requests: Requests, specReplicas: Option<int>, w: PodDeletion.UpdateWork, c: PodLifecycle.PodCase)
    requires w.fetch != PodDeletion.FetchFailed && DistinctPods(PodDeletion.WorkedCases(w))
    requires c in PodDeletion.WorkedCases(w) && LooksAtMove(specReplicas, c)
    requires IsWorking(requests, MoveRequestId(c.name))
    ensures var a := PodDeletion.Answered(requests, specReplicas, w);
            a.inProgress && StateOf(a.requests, MoveRequestId(c.name)) == StateOf(requests, MoveRequestId(c.name))
  {
    hide LooksAtMove, PodLifecycle.DeletionOf, PodDeletion.DeletionsOf, PodDeletion.RequestsAfter, MoveRequestId;
    var cases := PodDeletion.WorkedCases(w);
    var i :| 0 <= i < |cases| && cases[i] == c;
    OwnAttemptDecides(requests, specReplicas, cases, i);
    var ds := PodDeletion.DeletionsOf(requests, specReplicas, cases);
    AttemptWaits(PodDeletion.RequestsAfter(requests, ds[..i]), specReplicas, c);
    assert ds[i].inProgress;
  }

  /**
    While Solr works on a request that the locked operation looks at, the operation keeps its lock, the
    queue stays as it is, and so does the request.
   */
  lemma WorkingRequestKeepsLock(r: SetRecord, obs: Observation, id: string)
    requires LooksAt(r, obs, id) && IsWorking(obs.requests, id)
    ensures Reconcile(r, obs).Next? && Changes(r, Reconcile(r, obs).set', obs, Unchanged)
    ensures StateOf(RequestsLeft(r, obs), id) == StateOf(obs.requests, id)
  {
    hide EvictReplicas, BalanceReplicas, HostsReplicas, SolrNodeName, PodName, PodDeletion.Answered;
    hide PodDeletion.WorkedCases, IsOnlyPod, LooksAtMove, DistinctPods;
    var op := r.lock.value;
    match op.kind
    case Balance =>
      BalanceAnswerMeaning(obs.requests, r.replicas, obs.readyReplicas, BalanceReason(op), obs.io,
                           obs.balanceUnsupported);
    case ScaleDown =>
      var pod := PodName(obs.spec.cloud, op.metadata.n);
      var has := HostsReplicas(obs.status.value, SolrNodeName(obs.spec.cloud, pod));
      AnswerMeaning(obs.requests, Some(obs.spec.replicas), pod, has, obs.io);
    case Update =>
      var c :| c in PodDeletion.WorkedCases(obs.update) && id == MoveRequestId(c.name)
            && LooksAtMove(Some(obs.spec.replicas), c);
      UpdateWaits(obs.requests, Some(obs.spec.replicas), obs.update, c);
    case _ =>
  }

  // ----- requests live in order -----

  /** What one step of the operator may do to a request: nothing, submit it if absent, clear it if ended. */
  predicate OperatorMay(before: Option<RequestState>, after: Option<RequestState>) {
    || after == before
    || (before.None? && after == Some(Submitted))
    || (before.Some? && HasEnded(before.value) && after.None?)
  }

  lemma EvictionMay(
    requests: Requests, specReplicas: Option<int>, pod: string, podHasReplicas: bool, io: Io, id: string)
    ensures var a := EvictReplicas(requests, specReplicas, pod, podHasReplicas, io);
            OperatorMay(StateOf(requests, id), StateOf(a.requests, id))
  {
  }

  lemma BalanceMay(
    requests: Requests, replicas: int, readyReplicas: int, reason: string, io: Io, unsupported: bool, id: string)
    ensures var a := BalanceReplicas(requests, replicas, readyReplicas, reason, io, unsupported);
            OperatorMay(StateOf(requests, id), StateOf(a.requests, id))
  {
  }

  lemma AttemptMay(requests: Requests, specReplicas: Option<int>, c: PodLifecycle.PodCase, id: string)
    ensures OperatorMay(StateOf(requests, id), StateOf(PodLifecycle.DeletionOf(requests, specReplicas, c).requests, id))
  {
    EvictionMay(requests, specReplicas, c.name, c.hasReplicas, c.io, id);
    hide EvictReplicas, PodLifecycle.AllChanged, PodLifecycle.ConditionHasReason, PodLifecycle.SomeNeedsChange;
  }

  lemma UpdateMay(requests: Requests, specReplicas: Option<int>, w: PodDeletion.UpdateWork, id: string)
    requires DistinctPods(PodDeletion.WorkedCases(w))
    ensures OperatorMay(StateOf(requests, id), StateOf(PodDeletion.Answered(requests, specReplicas, w).requests, id))
  {
    hide PodLifecycle.DeletionOf, PodDeletion.DeletionsOf, PodDeletion.RequestsAfter, MoveRequestId, StateOf;
    hide OperatorMay;
    var cases := PodDeletion.WorkedCases(w);
    assert OperatorMay(StateOf(requests, id), StateOf(requests, id)) by { NothingMay(StateOf(requests, id)); }
    if i :| 0 <= i < |cases| && MoveRequestId(cases[i].name) == id {
      OwnAttemptDecides(requests, specReplicas, cases, i);
      var ds := PodDeletion.DeletionsOf(requests, specReplicas, cases);
      AttemptMay(PodDeletion.RequestsAfter(requests, ds[..i]), specReplicas, cases[i], id);
    } else {
      PodDeletion.OthersKeepRequest(requests, specReplicas, cases, id);
    }
  }

  lemma NothingMay(state: Option<RequestState>)
    ensures OperatorMay(state, state)
  {
  }

  /** One reconcile submits only what Solr does not have, and clears only what has ended. */
  lemma ReconcileMay(r: SetRecord, obs: Observation, id: string)
    requires DistinctPods(PodDeletion.WorkedCases(obs.update))
    ensures OperatorMay(StateOf(obs.requests, id), StateOf(RequestsLeft(r, obs), id))
  {
    hide EvictReplicas, BalanceReplicas, HostsReplicas, SolrNodeName, PodName, PodDeletion.Answered, DistinctPods;
    hide OperatorMay;
    NothingMay(StateOf(obs.requests, id));
    UpdateMay(obs.requests, Some(obs.spec.replicas), obs.update, id);
    if r.lock.Some? {
      var op := r.lock.value;
      BalanceMay(obs.requests, r.replicas, obs.readyReplicas, BalanceReason(op), obs.io, obs.balanceUnsupported, id);
      if op.metadata.Pods? && op.metadata.n >= 0 && obs.status.Some? {
        var pod := PodName(obs.spec.cloud, op.metadata.n);
        var has := HostsReplicas(obs.status.value, SolrNodeName(obs.spec.cloud, pod));
        EvictionMay(obs.requests, Some(obs.spec.replicas), pod, has, obs.io, id);
      }
    }
  }

  // ----- runs of the operator and Solr -----

  datatype System = System(set': SetRecord, requests: Requests)

  datatype SystemEvent =
    | OperatorActs(obs: Observation)
    | SolrAdvances(id: string, to: RequestState)
    | SolrForgets(id: string)
    | OtherEvent(e: Event)

  ghost predicate SystemStep(s: System, e: SystemEvent, s': System) {
    match e
    case OperatorActs(obs) =>
      && obs.requests == s.requests && DistinctPods(PodDeletion.WorkedCases(obs.update))
      && Reconcile(s.set', obs) == Next(s'.set') && s'.requests == RequestsLeft(s.set', obs)
    case SolrAdvances(id, to) =>
      id in s.requests && Advances(s.requests[id], to) && s' == s.(requests := s.requests[id := to])
    case SolrForgets(id) =>
      id in s.requests && HasEnded(s.requests[id]) && s' == s.(requests := Without(s.requests, id))
    case OtherEvent(other) =>
      !other.Reconciled? && Apply(s.set', other) == Next(s'.set') && s'.requests == s.requests
  }

  ghost predicate SystemRun(states: seq<System>, events: seq<SystemEvent>) {
    && |states| == |events| + 1
    && forall i :: 0 <= i < |events| ==> SystemStep(states[i], events[i], states[i + 1])
  }

  lemma StepKeepsWorking(s: System, e: SystemEvent, s': System, id: string)
    requires SystemStep(s, e, s') && IsWorking(s.requests, id)
    ensures id in s'.requests
  {
    hide Reconcile, RequestsLeft, Apply, DistinctPods, PodDeletion.WorkedCases;
    if e.OperatorActs? {
      ReconcileMay(s.set', e.obs, id);
    }
  }

  /** In every run, a request that Solr works on ends inside Solr before anything takes it out of the store. */
  lemma {:induction false} WorkingEndsBeforeItLeaves(
    states: seq<System>, events: seq<SystemEvent>, id: string, i: nat, j: nat)
    requires SystemRun(states, events) && i <= j < |states|
    requires IsWorking(states[i].requests, id) && id !in states[j].requests
    ensures exists k :: i < k < j && id in states[k].requests && HasEnded(states[k].requests[id])
    decreases j - i
  {
    hide SystemStep;
    StepKeepsWorking(states[i], events[i], states[i + 1], id);
    if !HasEnded(states[i + 1].requests[id]) {
      WorkingEndsBeforeItLeaves(states, events, id, i + 1, j);
    }
  }

  lemma StepKeepsLock(s: System, e: SystemEvent, s': System, id: string)
    requires SystemStep(s, e, s') && IsWorking(s.requests, id) && e != OtherEvent(LockRemoved)
    requires e.OperatorActs? ==> LooksAt(s.set', e.obs, id)
    ensures s'.set'.lock == s.set'.lock && s'.set'.queue == s.set'.queue
  {
    hide LooksAt, IsWorking, Reconcile, RequestsLeft, DistinctPods, PodDeletion.WorkedCases;
    if e.OperatorActs? {
      WorkingRequestKeepsLock(s.set', e.obs, id);
    }
  }

  /** In every run, an operation keeps its lock for as long as Solr works on a request that it looks at. */
  lemma {:induction false} RunKeepsLockWhileSolrWorks(
    states: seq<System>, events: seq<SystemEvent>, id: string, i: nat, j: nat)
    requires SystemRun(states, events) && i <= j < |states|
    requires forall k :: i <= k < j ==> IsWorking(states[k].requests, id) && events[k] != OtherEvent(LockRemoved)
    requires forall k :: i <= k < j && events[k].OperatorActs? ==> LooksAt(states[k].set', events[k].obs, id)
    ensures states[j].set'.lock == states[i].set'.lock && states[j].set'.queue == states[i].set'.queue
  {
    hide LooksAt, IsWorking, SystemStep;
    if i < j {
      RunKeepsLockWhileSolrWorks(states, events, id, i, j - 1);
      StepKeepsLock(states[j - 1], events[j - 1], states[j], id);
    }
  }
}
