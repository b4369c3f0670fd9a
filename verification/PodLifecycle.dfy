/**
  Readiness conditions that the operator keeps on its pods, and the deletion of a pod for an update.
  The reasons stored in the conditions are the only memory of where a pod is in its eviction, so the
  proofs follow them through every run.
 */
module PodLifecycle {
  import opened Prelude
  import opened AsyncRequests
  import Naming
  import ClusterState

  // ----- conditions -----

  datatype ConditionType = IsNotStopped | ReplicasNotEvicted | OtherType(name: string)

  /** The empty reason marks a condition that was not initialized. */
  datatype Reason = Unset | PodStarted | PodUpdate | EvictingReplicas | ScaleDown | OtherReason(text: string)

  datatype ConditionStatus = True | False | Unknown

  datatype Condition = Condition(ctype: ConditionType, status: ConditionStatus, reason: Reason)

  datatype Change = Change(onlyFrom: Option<Reason>, reason: Reason, isTrue: bool)

  type Changes = map<ConditionType, Change>

  predicate IsSolrType(t: ConditionType) {
    t == IsNotStopped || t == ReplicasNotEvicted
  }

  /** The first condition of a type, or the length of the list. */
  function FirstOf(conditions: seq<Condition>, t: ConditionType): (i: nat)
    ensures i <= |conditions|
    ensures i < |conditions| ==> conditions[i].ctype == t
    ensures forall j :: 0 <= j < i ==> conditions[j].ctype != t
  {
    if conditions == [] then 0
    else if conditions[0].ctype == t then 0
    else 1 + FirstOf(conditions[1..], t)
  }

  /** The conditions after one of the operator's types was given its initial value, if it had none. */
  function Initialized(conditions: seq<Condition>, t: ConditionType): seq<Condition> {
    var i := FirstOf(conditions, t);
    if !IsSolrType(t) then conditions
    else if i == |conditions| then conditions + [Condition(t, True, PodStarted)]
    else if conditions[i].reason == Unset then conditions[i := Condition(t, True, PodStarted)]
    else conditions
  }

  function AllInitialized(conditions: seq<Condition>, gates: seq<ConditionType>): seq<Condition> {
    if gates == [] then conditions
    else Initialized(AllInitialized(conditions, gates[..|gates| - 1]), gates[|gates| - 1])
  }

  /** Some gating condition still has to be given its initial value. */
  predicate SomeUninitialized(conditions: seq<Condition>, gates: seq<ConditionType>) {
    gates != [] &&
    var before := AllInitialized(conditions, gates[..|gates| - 1]);
    SomeUninitialized(conditions, gates[..|gates| - 1]) || Initialized(before, gates[|gates| - 1]) != before
  }

  /** Whether the reason asks for the change, before the status is looked at. */
  predicate ReasonAsks(c: Condition, change: Change) {
    if change.onlyFrom.Some? then c.reason == change.onlyFrom.value else c.reason != change.reason
  }

  predicate NeedsChange(c: Condition, change: Change) {
    ReasonAsks(c, change) || (c.status == True) != change.isTrue
  }

  function StatusFor(change: Change): ConditionStatus {
    if change.isTrue then True else False
  }

  function Changed(c: Condition, change: Change): Condition {
    if NeedsChange(c, change) then Condition(c.ctype, StatusFor(change), change.reason) else c
  }

  /** The condition at `i` is the one that a change looks at. */
  predicate IsConcerned(conditions: seq<Condition>, gates: seq<ConditionType>, changes: Changes, i: int) {
    && 0 <= i < |conditions|
    && conditions[i].ctype in changes && conditions[i].ctype in gates
    && FirstOf(conditions, conditions[i].ctype) == i
  }

  predicate SomeNeedsChange(conditions: seq<Condition>, gates: seq<ConditionType>, changes: Changes) {
    exists i :: 0 <= i < |conditions| && IsConcerned(conditions, gates, changes, i)
             && NeedsChange(conditions[i], changes[conditions[i].ctype])
  }

  /** The conditions after all changes were applied to the types that gate the pod. */
  function AllChanged(conditions: seq<Condition>, gates: seq<ConditionType>, changes: Changes): seq<Condition> {
    seq(|conditions|, i requires 0 <= i < |conditions| =>
      var c := conditions[i];
      if IsConcerned(conditions, gates, changes, i) then Changed(c, changes[c.ctype]) else c)
  }

  predicate ConditionHasReason(conditions: seq<Condition>, t: ConditionType, reason: Reason) {
    var i := FirstOf(conditions, t);
    i < |conditions| && conditions[i].reason == reason
  }

  // ----- the changes the operator makes -----

  const STOP_FOR_UPDATE: Changes :=
    map[IsNotStopped := Change(None, PodUpdate, false),
        ReplicasNotEvicted := Change(Some(PodStarted), EvictingReplicas, false)]

  const STOP_FOR_SCALE_DOWN: Changes :=
    map[IsNotStopped := Change(None, ScaleDown, false)]

  const RESTART_AFTER_UPDATE: Changes :=
    map[IsNotStopped := Change(None, PodStarted, true),
        ReplicasNotEvicted := Change(Some(EvictingReplicas), PodStarted, true)]

  const RESTART_AFTER_SCALE_DOWN: Changes :=
    map[IsNotStopped := Change(None, PodStarted, true)]

  predicate IsOperatorChange(changes: Changes) {
    changes in {STOP_FOR_UPDATE, STOP_FOR_SCALE_DOWN, RESTART_AFTER_UPDATE, RESTART_AFTER_SCALE_DOWN}
  }

  // ----- pods -----

  datatype DeleteOutcome = Deleted | AlreadyGone | DeleteFailed

  /** One pod as a deletion finds it, what the cluster state says of it, and how the calls go. */
  datatype PodCase = PodCase(
    name: string, gates: seq<ConditionType>, conditions: seq<Condition>, hasReplicas: bool,
    patchOk: bool, deleting: DeleteOutcome, io: Io)

  datatype Deletion = Deletion(
    conditions: seq<Condition>, requests: Requests, failed: bool, inProgress: bool, asked: bool)

  /** One attempt to delete a pod for an update. It is asked for unless the pod still has to be emptied. */
  function DeletionOf(requests: Requests, specReplicas: Option<int>, c: PodCase): Deletion {
    var stopped := AllChanged(c.conditions, c.gates, STOP_FOR_UPDATE);
    if !c.patchOk && SomeNeedsChange(c.conditions, c.gates, STOP_FOR_UPDATE) then
      Deletion(c.conditions, requests, true, false, false)
    else if !ConditionHasReason(stopped, ReplicasNotEvicted, EvictingReplicas) then
      Deletion(stopped, requests, !c.deleting.Deleted?, false, true)
    else
      var a := EvictReplicas(requests, specReplicas, c.name, c.hasReplicas, c.io);
      var asked := !a.failed && a.finished && !c.hasReplicas;
      Deletion(stopped, a.requests, a.failed || (asked && !c.deleting.Deleted?), a.failed || a.inProgress, asked)
  }

  class SolrPod {
    const name: string
    const gates: seq<ConditionType>
    var conditions: seq<Condition>
    var exists': bool

    constructor (name: string, gates: seq<ConditionType>, conditions: seq<Condition>)
      ensures this.name == name && this.gates == gates && this.conditions == conditions && exists'
    {
      this.name, this.gates, this.conditions, exists' := name, gates, conditions, true;
    }

    /** Initializes the conditions that gate the pod. Nothing is kept if the patch is rejected. */
    method Initialize(patchOk: bool) returns (failed: bool)
      modifies this`conditions
      ensures conditions == if failed then old(conditions) else AllInitialized(old(conditions), gates)
      ensures failed <==> !patchOk && SomeUninitialized(old(conditions), gates)
    {
      var updated, shouldPatch := conditions, false;
      for i := 0 to |gates|
        invariant updated == AllInitialized(conditions, gates[..i])
        invariant conditions == old(conditions)
        invariant shouldPatch == SomeUninitialized(conditions, gates[..i])
        invariant !shouldPatch ==> updated == conditions
      {
        var before := updated;
        updated := InitializeCondition(updated, gates[i]);
        shouldPatch := shouldPatch || updated != before;
        assert gates[..i + 1][..i] == gates[..i];
      }
      assert gates[..|gates|] == gates;
      failed := shouldPatch && !patchOk;
      if shouldPatch && patchOk {
        conditions := updated;
      }
    }

    /** Applies changes to the conditions that gate the pod, taking the types in any order. */
    method EnsureReadinessConditions(changes: Changes, patchOk: bool) returns (failed: bool)
      modifies this`conditions
      ensures conditions == if failed then old(conditions) else AllChanged(old(conditions), gates, changes)
      ensures failed <==> !patchOk && SomeNeedsChange(old(conditions), gates, changes)
    {
      hide FirstOf, NeedsChange;
      var updated, needsUpdate := conditions, false;
      var types := changes.Keys;
      while types != {}
        invariant types <= changes.Keys && conditions == old(conditions)
        invariant |updated| == |conditions|
        invariant forall i :: 0 <= i < |updated| ==> updated[i].ctype == conditions[i].ctype
        invariant forall i :: 0 <= i < |updated| ==>
                    var c := conditions[i];
                    updated[i] == if IsConcerned(conditions, gates, changes, i) && c.ctype !in types
                                  then Changed(c, changes[c.ctype]) else c
        invariant !needsUpdate ==> updated == conditions
        invariant needsUpdate <==>
                    exists i :: IsConcerned(conditions, gates, changes, i) && conditions[i].ctype !in types
                             && NeedsChange(conditions[i], changes[conditions[i].ctype])
        decreases types
      {
        var t :| t in types;
        if t in gates {
          SameTypesSameFirst(updated, conditions, t);
          var i := FindCondition(updated, t);
          if i < |updated| {
            if NeedsChange(updated[i], changes[t]) {
              needsUpdate := true;
              updated := updated[i := Condition(t, StatusFor(changes[t]), changes[t].reason)];
            }
          }
        }
        types := types - {t};
      }
      failed := needsUpdate && !patchOk;
      if needsUpdate && patchOk {
        conditions := updated;
      }
      assert !failed ==> conditions == AllChanged(old(conditions), gates, changes);
    }

    /**
      Deletes the pod for an update: stops traffic, evicts replicas from ephemeral storage, deletes.
      The case tells the pod's conditions, what the cluster state of this reconcile says, and how the
      calls go.
     */
    method DeleteForUpdate(specReplicas: Option<int>, c: PodCase, solr: SolrRequests)
      returns (failed: bool, inProgress: bool, asked: bool)
      requires exists' && c.name == name && c.gates == gates && c.conditions == conditions
      modifies this`conditions, this`exists', solr
      ensures Deletion(conditions, solr.requests, failed, inProgress, asked) ==
              DeletionOf(old(solr.requests), specReplicas, c)
      ensures exists' == !(asked && c.deleting.Deleted?)
    {
      hide AllChanged, ConditionHasReason, SomeNeedsChange, EvictReplicas;
      failed, inProgress, asked := false, false, false;
      failed := EnsureReadinessConditions(STOP_FOR_UPDATE, c.patchOk);
      if failed {
        return;
      }
      var deletePod := false;
      var evicting := HasReason(conditions, ReplicasNotEvicted, EvictingReplicas);
      if evicting {
        var evictFailed, canDeletePod, moving :=
          solr.EvictReplicasForPodIfNecessary(specReplicas, name, c.hasReplicas, c.io);
        if evictFailed {
          inProgress, failed := true, true;
        } else if canDeletePod {
          inProgress := moving;
          if !c.hasReplicas {
            deletePod := true;
          }
        } else {
          inProgress := moving;
        }
      } else {
        deletePod := true;
      }
      if deletePod {
        asked := true;
        if c.deleting == Deleted {
          exists' := false;
        } else {
          failed := true;
        }
      }
    }
  }

  /** Finds the first condition of a type, or the length of the list. */
  method FindCondition(conditions: seq<Condition>, t: ConditionType) returns (i: nat)
    ensures i == FirstOf(conditions, t)
  {
    for k := 0 to |conditions|
      invariant FirstOf(conditions, t) == k + FirstOf(conditions[k..], t)
    {
      if conditions[k].ctype == t {
        return k;
      }
      assert conditions[k..][1..] == conditions[k + 1..];
    }
    i := |conditions|;
  }

  method HasReason(conditions: seq<Condition>, t: ConditionType, reason: Reason) returns (equal: bool)
    ensures equal == ConditionHasReason(conditions, t, reason)
  {
    var i := FindCondition(conditions, t);
    equal := i < |conditions| && conditions[i].reason == reason;
  }

  method InitializeCondition(conditions: seq<Condition>, t: ConditionType) returns (updated: seq<Condition>)
    ensures updated == Initialized(conditions, t)
  {
    updated := conditions;
    if IsSolrType(t) {
      var i := FindCondition(conditions, t);
      if i == |conditions| {
        updated := conditions + [Condition(t, True, PodStarted)];
      } else if conditions[i].reason == Unset {
        updated := conditions[i := Condition(t, True, PodStarted)];
      }
    }
  }

  lemma SameTypesSameFirst(a: seq<Condition>, b: seq<Condition>, t: ConditionType)
    requires |a| == |b| && forall i :: 0 <= i < |a| ==> a[i].ctype == b[i].ctype
    ensures FirstOf(a, t) == FirstOf(b, t)
  {
    var i, j := FirstOf(a, t), FirstOf(b, t);
    assert i == |a| || b[i].ctype == t;
    assert j == |b| || a[j].ctype == t;
  }

  // ----- what every run keeps -----

  function EntryOf(conditions: seq<Condition>, t: ConditionType): Option<Condition> {
    var i := FirstOf(conditions, t);
    if i < |conditions| then Some(conditions[i]) else None
  }

  ghost predicate AtMostOne(conditions: seq<Condition>, t: ConditionType) {
    forall i, j :: 0 <= i < j < |conditions| ==> !(conditions[i].ctype == t && conditions[j].ctype == t)
  }

  /** The reasons and values that the operator's conditions can have together. */
  predicate IsAllowed(c: Condition) {
    match c.ctype
    case IsNotStopped => (c.reason, c.status) in {(PodStarted, True), (PodUpdate, False), (ScaleDown, False)}
    case ReplicasNotEvicted => (c.reason, c.status) in {(PodStarted, True), (EvictingReplicas, False)}
    case OtherType(_) => true
  }

  ghost predicate SettledAt(conditions: seq<Condition>, gates: seq<ConditionType>, t: ConditionType) {
    AtMostOne(conditions, t) && (t in gates ==> EntryOf(conditions, t).Some? && IsAllowed(EntryOf(conditions, t).value))
  }

  /** Each condition of the operator appears at most once, and with an allowed value where it gates the pod. */
  ghost predicate Settled(conditions: seq<Condition>, gates: seq<ConditionType>) {
    SettledAt(conditions, gates, IsNotStopped) && SettledAt(conditions, gates, ReplicasNotEvicted)
  }

  ghost predicate UntouchedAt(conditions: seq<Condition>, t: ConditionType) {
    AtMostOne(conditions, t) && (EntryOf(conditions, t).None? || EntryOf(conditions, t).value.reason == Unset)
  }

  /** The operator has not set its conditions yet. */
  ghost predicate Untouched(conditions: seq<Condition>) {
    UntouchedAt(conditions, IsNotStopped) && UntouchedAt(conditions, ReplicasNotEvicted)
  }

  lemma FirstIsOnly(conditions: seq<Condition>, t: ConditionType, i: nat)
    requires i < |conditions| && conditions[i].ctype == t
    requires forall j :: 0 <= j < i ==> conditions[j].ctype != t
    ensures FirstOf(conditions, t) == i
  {
  }

  lemma AppendedEntry(conditions: seq<Condition>, c: Condition, u: ConditionType)
    requires FirstOf(conditions, c.ctype) == |conditions|
    ensures AtMostOne(conditions, u) ==> AtMostOne(conditions + [c], u)
    ensures EntryOf(conditions + [c], u) == if u == c.ctype then Some(c) else EntryOf(conditions, u)
  {
    hide FirstOf;
    var after := conditions + [c];
    assert forall i :: 0 <= i < |conditions| ==> after[i] == conditions[i];
    if u == c.ctype {
      FirstIsOnly(after, u, |conditions|);
    } else if FirstOf(conditions, u) < |conditions| {
      FirstIsOnly(after, u, FirstOf(conditions, u));
    }
  }

  lemma InitializedEntry(conditions: seq<Condition>, t: ConditionType, u: ConditionType)
    ensures var after := Initialized(conditions, t);
            && (AtMostOne(conditions, u) ==> AtMostOne(after, u))
            && EntryOf(after, u) ==
               if u == t && IsSolrType(t)
                  && (EntryOf(conditions, t).None? || EntryOf(conditions, t).value.reason == Unset)
               then Some(Condition(t, True, PodStarted)) else EntryOf(conditions, u)
  {
    hide FirstOf;
    if IsSolrType(t) && FirstOf(conditions, t) == |conditions| {
      hide AtMostOne;
      AppendedEntry(conditions, Condition(t, True, PodStarted), u);
    } else {
      SameTypesSameFirst(Initialized(conditions, t), conditions, u);
    }
  }

  lemma {:induction false} AllInitializedEntry(conditions: seq<Condition>, gates: seq<ConditionType>, t: ConditionType)
    requires IsSolrType(t)
    ensures var after := AllInitialized(conditions, gates);
            && (AtMostOne(conditions, t) ==> AtMostOne(after, t))
            && EntryOf(after, t) ==
               if t in gates && (EntryOf(conditions, t).None? || EntryOf(conditions, t).value.reason == Unset)
               then Some(Condition(t, True, PodStarted)) else EntryOf(conditions, t)
  {
    if gates != [] {
      var rest, last := gates[..|gates| - 1], gates[|gates| - 1];
      assert gates == rest + [last];
      AllInitializedEntry(conditions, rest, t);
      InitializedEntry(AllInitialized(conditions, rest), last, t);
    }
  }

  lemma InitializationSettles(conditions: seq<Condition>, gates: seq<ConditionType>)
    requires Untouched(conditions) || Settled(conditions, gates)
    ensures Settled(AllInitialized(conditions, gates), gates)
  {
    AllInitializedEntry(conditions, gates, IsNotStopped);
    AllInitializedEntry(conditions, gates, ReplicasNotEvicted);
  }

  lemma AllChangedEntry(conditions: seq<Condition>, gates: seq<ConditionType>, changes: Changes, t: ConditionType)
    ensures var after := AllChanged(conditions, gates, changes);
            && (AtMostOne(conditions, t) ==> AtMostOne(after, t))
            && EntryOf(after, t) ==
               if EntryOf(conditions, t).Some? && t in changes && t in gates
               then Some(Changed(EntryOf(conditions, t).value, changes[t])) else EntryOf(conditions, t)
  {
    SameTypesSameFirst(AllChanged(conditions, gates, changes), conditions, t);
  }

  lemma ChangeSettles(conditions: seq<Condition>, gates: seq<ConditionType>, changes: Changes)
    requires Settled(conditions, gates) && IsOperatorChange(changes)
    ensures Settled(AllChanged(conditions, gates, changes), gates)
  {
    AllChangedEntry(conditions, gates, changes, IsNotStopped);
    AllChangedEntry(conditions, gates, changes, ReplicasNotEvicted);
  }

  /** A cluster status with its aggregation, as one reconcile fetched it. */
  datatype FetchedState = FetchedState(
    cluster: ClusterState.ClusterStatus, overseer: string, managed: set<string>, view: ClusterState.ReplicaView)
  {
    ghost predicate Faithful() {
      ClusterState.Aggregates(cluster, overseer, managed, view)
    }
  }

  /** What happens to one pod: the operator's patches and deletions, and conditions that others write. */
  datatype PodEvent =
    | Initialization(ok: bool)
    | Ensuring(changes: Changes, ok: bool)
    | Attempt(cloud: Naming.Cloud, state: Option<FetchedState>, specReplicas: Option<int>, requests: Requests,
              patchOk: bool, deleting: DeleteOutcome, io: Io)
    | OthersWrite(conditions: seq<Condition>)

  datatype PodWorld = PodWorld(
    name: string, gates: seq<ConditionType>, conditions: seq<Condition>, initialized: bool, exists': bool)

  /** Others leave the operator's conditions alone. */
  ghost predicate LeavesSolrConditions(before: seq<Condition>, after: seq<Condition>) {
    forall t :: IsSolrType(t) ==>
      EntryOf(after, t) == EntryOf(before, t) && (AtMostOne(before, t) ==> AtMostOne(after, t))
  }

  /** A reconcile that cannot initialize a pod stops, so changes are only made after initialization. */
  ghost predicate CanHappen(w: PodWorld, e: PodEvent) {
    && w.exists'
    && match e
       case Initialization(_) => true
       case Ensuring(changes, _) => w.initialized && IsOperatorChange(changes)
       case Attempt(_, state, _, _, _, _, _) => w.initialized && (state.Some? ==> state.value.Faithful())
       case OthersWrite(conditions) => LeavesSolrConditions(w.conditions, conditions)
  }

  /** The pod as an attempt to delete it finds it. Without the cluster state it counts as empty. */
  function CaseIn(w: PodWorld, e: PodEvent): PodCase
    requires e.Attempt?
  {
    var has := e.state.Some? && ClusterState.PodHasReplicas(e.cloud, e.state.value.view, w.name);
    PodCase(w.name, w.gates, w.conditions, has, e.patchOk, e.deleting, e.io)
  }

  function AfterEvent(w: PodWorld, e: PodEvent): PodWorld {
    match e
    case Initialization(ok) =>
      var after := AllInitialized(w.conditions, w.gates);
      if ok || after == w.conditions then w.(conditions := after, initialized := true) else w
    case Ensuring(changes, ok) => if ok then w.(conditions := AllChanged(w.conditions, w.gates, changes)) else w
    case Attempt(_, _, specReplicas, requests, _, deleting, _) =>
      var d := DeletionOf(requests, specReplicas, CaseIn(w, e));
      w.(conditions := d.conditions, exists' := !(d.asked && deleting.Deleted?))
    case OthersWrite(conditions) => w.(conditions := conditions)
  }

  ghost predicate PodRun(worlds: seq<PodWorld>, events: seq<PodEvent>) {
    && |worlds| == |events| + 1
    && worlds[0].exists' && !worlds[0].initialized && Untouched(worlds[0].conditions)
    && forall i :: 0 <= i < |events| ==>
         CanHappen(worlds[i], events[i]) && worlds[i + 1] == AfterEvent(worlds[i], events[i])
  }

  ghost predicate Consistent(w: PodWorld) {
    if w.initialized then Settled(w.conditions, w.gates) else Untouched(w.conditions)
  }

  /** An attempt to delete a pod leaves its conditions alone or stops it. */
  lemma DeletionStops(requests: Requests, specReplicas: Option<int>, c: PodCase)
    ensures var d := DeletionOf(requests, specReplicas, c);
            d.conditions in {c.conditions, AllChanged(c.conditions, c.gates, STOP_FOR_UPDATE)}
  {
    hide AllChanged, SomeNeedsChange, ConditionHasReason, EvictReplicas;
  }

  lemma EventConsistent(w: PodWorld, e: PodEvent)
    requires Consistent(w) && CanHappen(w, e)
    ensures Consistent(AfterEvent(w, e))
  {
    hide AtMostOne, IsAllowed, DeletionOf;
    match e
    case Initialization(ok) => InitializationSettles(w.conditions, w.gates);
    case Ensuring(changes, ok) => ChangeSettles(w.conditions, w.gates, changes);
    case Attempt(_, _, specReplicas, requests, _, _, _) =>
      DeletionStops(requests, specReplicas, CaseIn(w, e));
      ChangeSettles(w.conditions, w.gates, STOP_FOR_UPDATE);
    case OthersWrite(conditions) =>
      assert IsSolrType(IsNotStopped) && IsSolrType(ReplicasNotEvicted);
  }

  /**
    In every run of a new pod, once it was initialized, each of the operator's conditions that gates
    it appears exactly once and with one of the allowed pairs of reason and value.
   */
  lemma {:induction false} RunSettled(worlds: seq<PodWorld>, events: seq<PodEvent>, i: nat)
    requires PodRun(worlds, events) && i < |worlds|
    ensures worlds[i].initialized ==> Settled(worlds[i].conditions, worlds[i].gates)
    ensures !worlds[i].initialized ==> Untouched(worlds[i].conditions)
    ensures worlds[i].gates == worlds[0].gates && worlds[i].name == worlds[0].name
  {
    if i > 0 {
      RunSettled(worlds, events, i - 1);
      EventConsistent(worlds[i - 1], events[i - 1]);
    }
  }

  /** On allowed values the status never overrides a change that waits for a certain reason. */
  lemma StatusNeverOverridesReason(c: Condition, changes: Changes)
    requires IsAllowed(c) && IsOperatorChange(changes) && c.ctype in changes && changes[c.ctype].onlyFrom.Some?
    ensures NeedsChange(c, changes[c.ctype]) <==> c.reason == changes[c.ctype].onlyFrom.value
  {
  }

  /**
    Stopping a settled pod for an update always marks it as evicting, if its storage is ephemeral, and
    as stopped. So the step that deletes it has to go through the eviction.
   */
  lemma StoppingMarksEviction(conditions: seq<Condition>, gates: seq<ConditionType>)
    requires Settled(conditions, gates)
    ensures var after := AllChanged(conditions, gates, STOP_FOR_UPDATE);
            && (ReplicasNotEvicted in gates ==> ConditionHasReason(after, ReplicasNotEvicted, EvictingReplicas))
            && (IsNotStopped in gates ==>
                  EntryOf(after, IsNotStopped) == Some(Condition(IsNotStopped, False, PodUpdate)))
  {
    AllChangedEntry(conditions, gates, STOP_FOR_UPDATE, IsNotStopped);
    AllChangedEntry(conditions, gates, STOP_FOR_UPDATE, ReplicasNotEvicted);
  }

  /**
    A settled pod with ephemeral storage is deleted only if the cluster state shows no replica on it,
    and no move of its replicas is left in Solr unless it is the only pod. A pod that needs no
    eviction is deleted as soon as its conditions are patched.
   */
  lemma DeletionNeedsEmptyPod(requests: Requests, specReplicas: Option<int>, c: PodCase)
    requires Settled(c.conditions, c.gates)
    ensures var d := DeletionOf(requests, specReplicas, c);
            && (d.asked && ReplicasNotEvicted in c.gates ==>
                  !c.hasReplicas && (!IsOnlyPod(specReplicas, c.name) ==> MoveRequestId(c.name) !in d.requests))
            && (!ConditionHasReason(c.conditions, ReplicasNotEvicted, EvictingReplicas)
                && ReplicasNotEvicted !in c.gates ==>
                  (d.asked <==> c.patchOk || !SomeNeedsChange(c.conditions, c.gates, STOP_FOR_UPDATE)))
  {
    hide SomeNeedsChange;
    StoppingMarksEviction(c.conditions, c.gates);
    AllChangedEntry(c.conditions, c.gates, STOP_FOR_UPDATE, ReplicasNotEvicted);
    AnswerMeaning(requests, specReplicas, c.name, c.hasReplicas, c.io);
    hide EvictReplicas, AllChanged;
  }

  /** In every run, the status of a gating condition never overrides a change that waits for a certain reason. */
  lemma RunStatusNeverOverrides(
    worlds: seq<PodWorld>, events: seq<PodEvent>, i: nat, t: ConditionType, changes: Changes)
    requires PodRun(worlds, events) && i < |worlds| && worlds[i].initialized
    requires IsSolrType(t) && t in worlds[i].gates
    requires IsOperatorChange(changes) && t in changes && changes[t].onlyFrom.Some?
    ensures var c := EntryOf(worlds[i].conditions, t);
            c.Some? && (NeedsChange(c.value, changes[t]) <==> c.value.reason == changes[t].onlyFrom.value)
  {
    RunSettled(worlds, events, i);
    StatusNeverOverridesReason(EntryOf(worlds[i].conditions, t).value, changes);
  }

  /**
    In every run, a pod with ephemeral storage is deleted for an update in a step that fetched the
    cluster state only if the status of that step places no replica on the pod's node.
   */
  lemma RunDeletesOnlyEmptyPods(worlds: seq<PodWorld>, events: seq<PodEvent>, i: nat)
    requires PodRun(worlds, events) && i < |events|
    requires events[i].Attempt? && events[i].state.Some? && ReplicasNotEvicted in worlds[0].gates
    ensures !worlds[i + 1].exists' ==>
              !ClusterState.HostsReplicas(events[i].state.value.cluster,
                                          Naming.SolrNodeName(events[i].cloud, worlds[0].name))
  {
    hide DeletionOf, Settled, Untouched, ClusterState.PodHasReplicas, ClusterState.HostsReplicas, Naming.SolrNodeName;
    var w, e := worlds[i], events[i];
    RunSettled(worlds, events, i);
    assert CanHappen(w, e) && worlds[i + 1] == AfterEvent(w, e);
    DeletionNeedsEmptyPod(e.requests, e.specReplicas, CaseIn(w, e));
    var s := e.state.value;
    ClusterState.PodHasReplicasExactly(s.cluster, s.overseer, s.managed, e.cloud, s.view, w.name);
  }

  /** What a change that the operator makes leaves as the entry of one of its types. */
  function EntryAfter(changes: Changes, c: Condition): Condition
    requires IsSolrType(c.ctype)
  {
    if changes == STOP_FOR_UPDATE then
      if c.ctype == IsNotStopped then Condition(IsNotStopped, False, PodUpdate)
      else Condition(ReplicasNotEvicted, False, EvictingReplicas)
    else if changes == RESTART_AFTER_UPDATE then Condition(c.ctype, True, PodStarted)
    else if c.ctype == ReplicasNotEvicted then c
    else if changes == STOP_FOR_SCALE_DOWN then Condition(IsNotStopped, False, ScaleDown)
    else Condition(IsNotStopped, True, PodStarted)
  }

  /**
    What each change makes of the conditions of a settled pod. Stopping and restarting for an update sets both of
    the operator's conditions, and for a scale down the one about being stopped. Nothing else is touched.
   */
  lemma ChangesExactly(conditions: seq<Condition>, gates: seq<ConditionType>, changes: Changes, i: nat)
    requires Settled(conditions, gates) && IsOperatorChange(changes) && i < |conditions|
    ensures var after := AllChanged(conditions, gates, changes);
            && |after| == |conditions|
            && after[i] == if conditions[i].ctype in gates && IsSolrType(conditions[i].ctype)
                           then EntryAfter(changes, conditions[i]) else conditions[i]
  {
    var t := conditions[i].ctype;
    if IsSolrType(t) {
      assert FirstOf(conditions, t) == i by {
        assert AtMostOne(conditions, t);
      }
    }
  }

  /** Cleaning up after an update that is paused undoes the stopping of its pods. */
  lemma RestartUndoesStop(conditions: seq<Condition>, gates: seq<ConditionType>)
    requires Settled(conditions, gates)
    requires forall t :: t in {IsNotStopped, ReplicasNotEvicted} && t in gates ==>
               EntryOf(conditions, t) == Some(Condition(t, True, PodStarted))
    ensures AllChanged(AllChanged(conditions, gates, STOP_FOR_UPDATE), gates, RESTART_AFTER_UPDATE) == conditions
  {
    var stopped := AllChanged(conditions, gates, STOP_FOR_UPDATE);
    var restarted := AllChanged(stopped, gates, RESTART_AFTER_UPDATE);
    forall i | 0 <= i < |conditions| ensures restarted[i] == conditions[i] {
      SameTypesSameFirst(stopped, conditions, conditions[i].ctype);
    }
  }
}
