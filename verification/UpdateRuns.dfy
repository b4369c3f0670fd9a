/**
  Whole rolling updates, as runs of steps on the pods with anything in between that is not a failing
  pod: how many pods stay available, which pods are deleted, and when an update goes on.
 */
module UpdateRuns {
  import opened Prelude
  import opened AsyncRequests
  import opened PodLifecycle
  import opened PodDeletion
  import opened PodSelection
  import opened RollingUpdate
  import opened UpdatePhases
  import opened UpdateSteps
  import Naming
  import ClusterState
  import SelectionOrder
  import SelectionProgress
  import SelectionSafety

  // ----- runs -----

  datatype FleetEvent = OperatorActs(e: StepInput) | OutsideActs

  /**
    The operator acts with one limit throughout. In between pods come back, start, become ready, are
    restarted or become out of date, and conditions stay settled.
   */
  ghost predicate FleetRun(limit: Option<IntOrPercent>, states: seq<Fleet>, events: seq<FleetEvent>) {
    && |states| == |events| + 1 && WellFormed(states[0])
    && forall i :: 0 <= i < |events| ==>
         match events[i]
         case OperatorActs(e) => e.podLimit == limit && states[i + 1] == After(states[i], e)
         case OutsideActs =>
           WellFormed(states[i + 1]) && OutsideStep(FleetPhases(states[i]), FleetPhases(states[i + 1]))
  }

  lemma {:induction false} RunWellFormed(
    limit: Option<IntOrPercent>, states: seq<Fleet>, events: seq<FleetEvent>, i: nat)
    requires FleetRun(limit, states, events) && i < |states|
    ensures WellFormed(states[i])
  {
    hide WellFormed, After;
    if i > 0 {
      RunWellFormed(limit, states, events, i - 1);
      if events[i - 1].OperatorActs? {
        AfterWellFormed(states[i - 1], events[i - 1].e);
      }
    }
  }

  // ----- availability -----

  /** The pods that count as available: updated and ready, or out of date and running, ready or not. */
  function Available(f: Fleet): nat {
    |Segmented(f, UpdatedAvailable)| + |Segmented(f, OutOfDateRunning)|
  }

  function Total(f: Fleet): nat {
    |f.pods| + |f.gone|
  }

  lemma AvailableIsServing(f: Fleet)
    requires DistinctNames(f.pods, f.gone)
    ensures |Serving(FleetPhases(f))| == Available(f) && |FleetPhases(f)| == Total(f)
  {
    hide PodsIn, PhasesOf, DistinctNames;
    var a, b := InPhase(FleetPhases(f), UpdatedAvailable), InPhase(FleetPhases(f), OutOfDateRunning);
    assert a !! b;
    DisjointUnionSize(a + b, a, b);
    SegmentSizes(f.pods, f.revision, f.gone, UpdatedAvailable);
    SegmentSizes(f.pods, f.revision, f.gone, OutOfDateRunning);
    PhasesNames(f.pods, f.revision, f.gone);
  }

  /**
    In every run in which pods do not fail on their own, the available pods never fall below the total
    minus the limit, however often the operator selects and whenever pods come back.
   */
  lemma {:induction false} UpdateKeepsPodsAvailable(
    limit: Option<IntOrPercent>, states: seq<Fleet>, events: seq<FleetEvent>, i: nat)
    requires FleetRun(limit, states, events) && i < |states|
    requires Available(states[0]) >= Total(states[0]) - MaxPodsUnavailable(limit, Total(states[0]))
    ensures Available(states[i]) >= Total(states[i]) - MaxPodsUnavailable(limit, Total(states[i]))
    ensures Total(states[i]) == Total(states[0])
  {
    hide After, PodsIn, PhasesOf, MaxPodsUnavailable, OperatorStep, OutsideStep, Serving;
    if i > 0 {
      UpdateKeepsPodsAvailable(limit, states, events, i - 1);
      RunWellFormed(limit, states, events, i - 1);
      RunWellFormed(limit, states, events, i);
      var f, next := states[i - 1], states[i];
      AvailableIsServing(f);
      AvailableIsServing(next);
      match events[i - 1]
      case OperatorActs(e) =>
        StepRefines(f, e);
        OperatorStepKeepsFloor(limit, FleetPhases(f), ChosenNames(f, e), FleetPhases(next));
      case OutsideActs =>
        OutsideStepKeepsServing(FleetPhases(f), FleetPhases(next));
    }
  }

  // ----- deletions -----

  function OutOfDateCount(f: Fleet): nat {
    |Segmented(f, OutOfDateRunning)| + |Segmented(f, ScheduledForDeletion)| + |Segmented(f, NotStarted)|
  }

  lemma OutOfDateIsCounted(f: Fleet)
    requires DistinctNames(f.pods, f.gone)
    ensures |OutOfDate(FleetPhases(f))| == OutOfDateCount(f)
  {
    hide PodsIn, PhasesOf, DistinctNames;
    var phases := FleetPhases(f);
    var a, b := InPhase(phases, OutOfDateRunning), InPhase(phases, ScheduledForDeletion);
    var c := InPhase(phases, NotStarted);
    assert a !! b && (a + b) !! c;
    DisjointUnionSize(a + b, a, b);
    DisjointUnionSize(a + b + c, a + b, c);
    SegmentSizes(f.pods, f.revision, f.gone, OutOfDateRunning);
    SegmentSizes(f.pods, f.revision, f.gone, ScheduledForDeletion);
    SegmentSizes(f.pods, f.revision, f.gone, NotStarted);
  }

  lemma DeletedAreRetired(f: Fleet, e: StepInput)
    requires DistinctNames(f.pods, f.gone)
    ensures DeletedOf(f, e) <= DeletedIn(FleetPhases(f), FleetPhases(After(f, e)))
  {
    hide IsDeleted, SegmentOf, PhasesOf, Revised, LeftOf, AllChanged, Chosen;
    PhasesNames(f.pods, f.revision, f.gone);
    forall p | p in DeletedOf(f, e) ensures p in DeletedIn(FleetPhases(f), FleetPhases(After(f, e))) {
      var k :| 0 <= k < |f.pods| && IsDeleted(f.pods[k], f, e) && f.pods[k].name == p;
      PhaseAfter(f, e, k);
      PodAfter(f, e, k);
    }
  }

  lemma DeletionsRetire(f: Fleet, e: StepInput)
    requires WellFormed(f)
    ensures |DeletedOf(f, e)| + OutOfDateCount(After(f, e)) <= OutOfDateCount(f)
  {
    StepRefines(f, e);
    AfterWellFormed(f, e);
    DeletedAreRetired(f, e);
    hide After, DeletedOf, PodsIn, PhasesOf, OperatorStep, DeletedIn, OutOfDate, KeepsRevision, Settled;
    var next := After(f, e);
    OperatorKeepsRevision(e.podLimit, FleetPhases(f), ChosenNames(f, e), FleetPhases(next));
    DeletionRetires(FleetPhases(f), FleetPhases(next));
    SubsetSize(DeletedOf(f, e), DeletedIn(FleetPhases(f), FleetPhases(next)));
    OutOfDateIsCounted(f);
    OutOfDateIsCounted(next);
  }

  /** How many pods the operator deleted in the first `n` steps. */
  ghost function Deletions(states: seq<Fleet>, events: seq<FleetEvent>, n: nat): nat
    requires n <= |events| < |states|
  {
    if n == 0 then 0
    else
      Deletions(states, events, n - 1) +
      if events[n - 1].OperatorActs? then |DeletedOf(states[n - 1], events[n - 1].e)| else 0
  }

  /**
    While the revision stays the same, every deletion takes one pod off the out-of-date ones for good:
    deletions plus the pods still out of date never exceed those that were out of date at the start.
   */
  lemma {:induction false} UpdateTerminates(
    limit: Option<IntOrPercent>, states: seq<Fleet>, events: seq<FleetEvent>, n: nat)
    requires FleetRun(limit, states, events) && n <= |events|
    requires forall i :: 0 <= i < n && events[i].OutsideActs? ==>
               KeepsRevision(FleetPhases(states[i]), FleetPhases(states[i + 1]))
    ensures Deletions(states, events, n) + OutOfDateCount(states[n]) <= OutOfDateCount(states[0])
  {
    hide After, DeletedOf, PodsIn, PhasesOf, OutsideStep, OutOfDate;
    if n > 0 {
      UpdateTerminates(limit, states, events, n - 1);
      RunWellFormed(limit, states, events, n - 1);
      RunWellFormed(limit, states, events, n);
      var f, next := states[n - 1], states[n];
      match events[n - 1]
      case OperatorActs(e) => DeletionsRetire(f, e);
      case OutsideActs =>
        SubsetSize(OutOfDate(FleetPhases(next)), OutOfDate(FleetPhases(f)));
        OutOfDateIsCounted(f);
        OutOfDateIsCounted(next);
    }
  }

  /**
    In every run, a step that fetched the cluster state deletes a pod with ephemeral storage only if the
    cluster status of that step places no replica on the pod's node.
   */
  lemma UpdateDeletesOnlyEmptyPods(
    limit: Option<IntOrPercent>, states: seq<Fleet>, events: seq<FleetEvent>, i: nat, k: nat)
    requires FleetRun(limit, states, events) && i < |events| && k < |states[i].pods|
    requires events[i].OperatorActs? && events[i].e.fetch == Fetched && events[i].e.state.Faithful()
    requires ReplicasNotEvicted in states[i].pods[k].gates && IsDeleted(states[i].pods[k], states[i], events[i].e)
    ensures var e := events[i].e;
            !ClusterState.HostsReplicas(e.state.cluster, Naming.SolrNodeName(e.cloud, states[i].pods[k].name))
  {
    hide DeletionOf, DeletionsOf, Worked, SegmentOf, Chosen, Settled, ClusterState.HostsReplicas;
    hide ClusterState.PodHasReplicas, Naming.SolrNodeName, After;
    RunWellFormed(limit, states, events, i);
    var f, e := states[i], events[i].e;
    var pod := f.pods[k];
    var j := AttemptOn(Worked(f, e), pod.name);
    var from := WorkedFrom(f, e, j);
    assert from == k;
    EachDeletion(e.requests, e.specReplicas, Worked(f, e), j);
    DeletionNeedsEmptyPod(RequestsAfter(e.requests, Attempts(f, e)[..j]), e.specReplicas, Worked(f, e)[j]);
    var s := e.state;
    ClusterState.PodHasReplicasExactly(s.cluster, s.overseer, s.managed, e.cloud, s.view, pod.name);
  }

  // ----- which steps move a pod forward -----

  /** Every call for every pod is accepted. */
  ghost predicate AllAccepted(f: Fleet, e: StepInput) {
    forall k :: 0 <= k < |f.pods| ==> IsAccepted(CaseOf(f.pods[k], e))
  }

  predicate AttemptMovesForward(f: Fleet, e: StepInput, i: nat)
    requires i < |Worked(f, e)|
  {
    MovesForward(RequestsAfter(e.requests, Attempts(f, e)[..i]), Attempts(f, e)[i])
  }

  /** Some attempt of the step moves its pod forward. */
  ghost predicate StepMovesForward(f: Fleet, e: StepInput) {
    exists i :: 0 <= i < |Worked(f, e)| && AttemptMovesForward(f, e, i)
  }

  /** Some pod that the step works on is not stuck. */
  ghost predicate WorksOnFreePod(f: Fleet, e: StepInput) {
    exists i :: 0 <= i < |Worked(f, e)| && !IsStuck(e.specReplicas, Worked(f, e)[i])
  }

  lemma AttemptForward(f: Fleet, e: StepInput, i: nat)
    requires WellFormed(f) && AllAccepted(f, e) && i < |Worked(f, e)|
    ensures AttemptMovesForward(f, e, i) <==> !IsStuck(e.specReplicas, Worked(f, e)[i])
  {
    var k := WorkedFrom(f, e, i);
    hide DeletionOf, DeletionsOf, Worked, Settled, MovesForward, IsStuck, RequestsAfter, MayBeWorkedOn;
    EachDeletion(e.requests, e.specReplicas, Worked(f, e), i);
    assert IsAccepted(CaseOf(f.pods[k], e));
    ForwardUnlessStuck(RequestsAfter(e.requests, Attempts(f, e)[..i]), e.specReplicas, Worked(f, e)[i]);
  }

  /** A step whose calls are accepted moves a pod forward exactly if it works on a pod that is not stuck. */
  lemma StepForwardExactly(f: Fleet, e: StepInput)
    requires WellFormed(f) && AllAccepted(f, e)
    ensures StepMovesForward(f, e) <==> WorksOnFreePod(f, e)
  {
    hide WellFormed, AllAccepted, Worked, AttemptMovesForward, IsStuck;
    forall i | 0 <= i < |Worked(f, e)|
      ensures AttemptMovesForward(f, e, i) <==> !IsStuck(e.specReplicas, Worked(f, e)[i])
    {
      AttemptForward(f, e, i);
    }
  }

  /** The same for each such step of every run. */
  lemma RunForwardExactly(limit: Option<IntOrPercent>, states: seq<Fleet>, events: seq<FleetEvent>, i: nat)
    requires FleetRun(limit, states, events) && i < |events|
    requires events[i].OperatorActs? && AllAccepted(states[i], events[i].e)
    ensures StepMovesForward(states[i], events[i].e) <==> WorksOnFreePod(states[i], events[i].e)
  {
    hide StepMovesForward, WorksOnFreePod, AllAccepted, After;
    RunWellFormed(limit, states, events, i);
    StepForwardExactly(states[i], events[i].e);
  }

  // ----- a healthy update goes on -----

  predicate IsNegative(limit: Option<IntOrPercent>) {
    limit.Some? && limit.value.Percent? && limit.value.p < 0
  }

  /**
    Every configured pod exists and is updated and ready, or is out of date and running; every replica
    serves, every managed node is live, and every call is accepted.
   */
  ghost predicate Healthy(f: Fleet, e: StepInput) {
    && f.gone == {} && Segmented(f, OutOfDateRunning) != []
    && Segmented(f, NotStarted) == [] && Segmented(f, ScheduledForDeletion) == []
    && Segmented(f, UpdatedUnavailable) == []
    && e.fetch == Fetched && e.state.Faithful() && SelectionProgress.AllServing(e.state.cluster)
    && (forall n :: n in e.state.managed ==> n in e.state.cluster.liveNodes)
    && !Naming.AdvertisesBlankHost(e.cloud) && AllAccepted(f, e)
  }

  lemma RunningOrder(f: Fleet, e: StepInput)
    requires WellFormed(f) && !Naming.AdvertisesBlankHost(e.cloud)
    ensures var running := Names(Segmented(f, OutOfDateRunning));
            var order := SortBySafety(e.cloud, e.state.view.nodes, running);
            && |order| == |running|
            && SelectionSafety.DistinctNodes(SiteOf(e.cloud, e.state.view, e.shardLimit, |running|), order)
  {
    hide SegmentOf, Sort, Naming.SolrNodeName, Settled;
    var running := Names(Segmented(f, OutOfDateRunning));
    var order := SortBySafety(e.cloud, e.state.view.nodes, running);
    SegmentDistinct(f.pods, f.revision, OutOfDateRunning);
    SelectionOrder.SortPermutes(SaferIn(e.cloud, e.state.view.nodes), running);
    SelectionOrder.PermutationDistinct(running, order);
    SelectionOrder.SameLength(running, order);
    SelectionSafety.DistinctPodsDistinctNodes(SiteOf(e.cloud, e.state.view, e.shardLimit, |running|), order);
  }

  lemma HealthySelection(
    state: FetchedState, cloud: Naming.Cloud, podLimit: Option<IntOrPercent>, shardLimit: Option<IntOrPercent>,
    total: int, running: seq<string>)
    requires state.Faithful() && SelectionProgress.AllServing(state.cluster) && running != [] && |running| <= total
    requires forall n :: n in state.managed ==> n in state.cluster.liveNodes
    requires var order := SortBySafety(cloud, state.view.nodes, running);
             && |order| == |running|
             && SelectionSafety.DistinctNodes(SiteOf(cloud, state.view, shardLimit, |running|), order)
    ensures Selection(cloud, state.view, podLimit, shardLimit, total, 0, [], running, total - |running|).pods != []
            <==> !IsNegative(podLimit)
  {
    hide SortBySafety, PickFrom, AllStopped, Naming.SolrNodeName, ClusterState.Aggregates;
    hide SelectionSafety.DistinctNodes;
    var site, order := SiteOf(cloud, state.view, shardLimit, |running|), SortBySafety(cloud, state.view.nodes, running);
    var scene := SelectionSafety.Scene(state.cluster, state.overseer, state.managed);
    SelectionProgress.HealthySelectionExactly(scene, site, state.view.notActive, podLimit, total, order);
  }

  /** The selection of a healthy step, which has only running pods to select from. */
  lemma HealthyChosen(f: Fleet, e: StepInput)
    requires WellFormed(f) && Healthy(f, e)
    ensures var running := Names(Segmented(f, OutOfDateRunning));
            && running != [] && Distinct(running) && |running| <= |f.pods|
            && Chosen(f, e) ==
               Selection(e.cloud, e.state.view, e.podLimit, e.shardLimit, |f.pods|, 0, [], running,
                         |f.pods| - |running|)
  {
    hide Settled, Selection, ClusterState.Aggregates, AllAccepted, PodsIn, SelectionProgress.AllServing, SegmentOf;
    SegmentDistinct(f.pods, f.revision, OutOfDateRunning);
    SegmentsCoverPods(f.pods, f.revision);
    var running := Names(Segmented(f, OutOfDateRunning));
    assert Names(Segmented(f, ScheduledForDeletion)) == [];
    assert |f.pods| + |f.gone| == |f.pods| && |Segmented(f, UpdatedAvailable)| == |f.pods| - |running|;
  }

  /** In a healthy cluster pods are selected exactly if the limit is not a negative percentage. */
  lemma HealthyChoice(f: Fleet, e: StepInput)
    requires WellFormed(f) && Healthy(f, e)
    ensures Chosen(f, e).pods != [] <==> !IsNegative(e.podLimit)
  {
    hide WellFormed, Selection, Chosen, SortBySafety, SiteOf, ClusterState.Aggregates, AllAccepted, Segmented;
    hide IsNegative;
    hide SelectionSafety.DistinctNodes, SelectionProgress.AllServing, Names;
    RunningOrder(f, e);
    HealthyChosen(f, e);
    HealthySelection(e.state, e.cloud, e.podLimit, e.shardLimit, |f.pods|, Names(Segmented(f, OutOfDateRunning)));
  }

  predicate IsStuckPod(f: Fleet, e: StepInput, k: nat)
    requires k < |f.pods|
  {
    IsStuck(e.specReplicas, CaseOf(f.pods[k], e))
  }

  /** The attempt on a selected pod. */
  lemma ChosenIsWorked(f: Fleet, e: StepInput, k: nat) returns (i: nat)
    requires WellFormed(f) && e.fetch == Fetched && k < |f.pods| && f.pods[k].name in Chosen(f, e).pods
    ensures i < |Worked(f, e)| && Worked(f, e)[i] == CaseOf(f.pods[k], e)
  {
    hide SegmentOf, CaseOf, Settled, Selection;
    SelectionBounded(e.cloud, e.state.view, e.podLimit, e.shardLimit, |f.pods| + |f.gone|, |Segmented(f, NotStarted)|,
                     Names(Segmented(f, ScheduledForDeletion)), Names(Segmented(f, OutOfDateRunning)),
                     |Segmented(f, UpdatedAvailable)|);
    ByNameAre(f.pods, Chosen(f, e).pods);
    hide Chosen, PodsIn;
    var chosen := ByName(f.pods, Chosen(f, e).pods);
    var m :| 0 <= m < |chosen| && chosen[m] == f.pods[k];
    i := |Segmented(f, NotStarted)| + |Segmented(f, ScheduledForDeletion)| + m;
    WorkedAt(f, e, i);
  }

  /** The step selects a pod that is not stuck. */
  ghost predicate ChoosesFreePod(f: Fleet, e: StepInput) {
    exists k :: 0 <= k < |f.pods| && f.pods[k].name in Chosen(f, e).pods && !IsStuckPod(f, e, k)
  }

  /** A healthy step works on nothing but the pods it selects. */
  lemma HealthyWorksOnChosen(f: Fleet, e: StepInput, i: nat) returns (k: nat)
    requires WellFormed(f) && Healthy(f, e) && i < |Worked(f, e)|
    ensures k < |f.pods| && f.pods[k].name in Chosen(f, e).pods && Worked(f, e)[i] == CaseOf(f.pods[k], e)
  {
    hide Settled, SegmentOf, Chosen, Worked, ClusterState.PodHasReplicas;
    PodsInAre(f.pods, f.revision, NotStarted);
    PodsInAre(f.pods, f.revision, ScheduledForDeletion);
    k := WorkedFrom(f, e, i);
    assert f.pods[k] in f.pods;
    assert f.pods[k] !in Segmented(f, NotStarted) && f.pods[k] !in Segmented(f, ScheduledForDeletion);
  }

  /** A healthy step moves some pod forward exactly if it selects a pod that is not stuck. */
  lemma HealthyStepExactly(f: Fleet, e: StepInput)
    requires WellFormed(f) && Healthy(f, e)
    ensures StepMovesForward(f, e) <==> ChoosesFreePod(f, e)
  {
    StepForwardExactly(f, e);
    assert e.fetch == Fetched;
    hide WellFormed, Healthy, Chosen, Worked, IsStuck, StepMovesForward, CaseOf;
    if ChoosesFreePod(f, e) {
      var k :| 0 <= k < |f.pods| && f.pods[k].name in Chosen(f, e).pods && !IsStuckPod(f, e, k);
      var i := ChosenIsWorked(f, e, k);
    }
    if i :| 0 <= i < |Worked(f, e)| && !IsStuck(e.specReplicas, Worked(f, e)[i]) {
      var k := HealthyWorksOnChosen(f, e, i);
      assert !IsStuckPod(f, e, k);
    }
  }

  ghost predicate NoneStuck(f: Fleet, e: StepInput) {
    forall k :: 0 <= k < |f.pods| ==> !IsStuckPod(f, e, k)
  }

  ghost predicate AllRunningStuck(f: Fleet, e: StepInput) {
    forall k :: 0 <= k < |f.pods| && SegmentOf(f.pods[k], f.revision) == OutOfDateRunning ==> IsStuckPod(f, e, k)
  }

  lemma NoneStuckChooses(f: Fleet, e: StepInput)
    requires NoneStuck(f, e)
    ensures ChoosesFreePod(f, e) <==> Chosen(f, e).pods != []
  {
    hide SegmentOf, Chosen, IsStuckPod;
    if Chosen(f, e).pods != [] {
      var p := Chosen(f, e).pods[0];
      assert p in Chosen(f, e).pods;
      ChosenAreRunning(f, e, p);
    }
  }

  lemma AllStuckChooses(f: Fleet, e: StepInput)
    requires WellFormed(f) && AllRunningStuck(f, e)
    ensures !ChoosesFreePod(f, e)
  {
    hide SegmentOf, Chosen, IsStuckPod, Settled;
    forall k | 0 <= k < |f.pods| && f.pods[k].name in Chosen(f, e).pods ensures IsStuckPod(f, e, k) {
      ChosenAreRunning(f, e, f.pods[k].name);
    }
  }

  /**
    Without a stuck pod a healthy step moves a pod forward exactly if the limit is not a negative
    percentage. If every running pod is stuck it never does.
   */
  lemma HealthyUpdateProgresses(f: Fleet, e: StepInput)
    requires WellFormed(f) && Healthy(f, e)
    ensures NoneStuck(f, e) ==> (StepMovesForward(f, e) <==> !IsNegative(e.podLimit))
    ensures AllRunningStuck(f, e) ==> !StepMovesForward(f, e)
  {
    hide WellFormed, Healthy, NoneStuck, AllRunningStuck, StepMovesForward, ChoosesFreePod, Chosen, IsNegative;
    HealthyChoice(f, e);
    HealthyStepExactly(f, e);
    if NoneStuck(f, e) {
      NoneStuckChooses(f, e);
    }
    if AllRunningStuck(f, e) {
      AllStuckChooses(f, e);
    }
  }

  /** The running pod that is the safest to stop. */
  function FirstBySafety(f: Fleet, e: StepInput): string
    requires Segmented(f, OutOfDateRunning) != []
  {
    SortBySafety(e.cloud, e.state.view.nodes, Names(Segmented(f, OutOfDateRunning)))[0]
  }

  lemma FirstIsSelected(
    state: FetchedState, cloud: Naming.Cloud, podLimit: Option<IntOrPercent>, shardLimit: Option<IntOrPercent>,
    total: int, running: seq<string>)
    requires state.Faithful() && SelectionProgress.AllServing(state.cluster) && running != [] && Distinct(running)
    requires !Naming.AdvertisesBlankHost(cloud) && MaxPodsUnavailable(podLimit, total) >= 1
    requires forall n :: n in state.managed ==> n in state.cluster.liveNodes
    ensures var first := SortBySafety(cloud, state.view.nodes, running)[0];
            var pods := Selection(cloud, state.view, podLimit, shardLimit, total, 0, [], running,
                                  total - |running|).pods;
            first in pods && (MaxPodsUnavailable(podLimit, total) == 1 ==> pods == [first])
  {
    hide SortBySafety, PickFrom, AllStopped, Naming.SolrNodeName, ClusterState.Aggregates, MaxPodsUnavailable;
    var site := SiteOf(cloud, state.view, shardLimit, |running|);
    var scene := SelectionSafety.Scene(state.cluster, state.overseer, state.managed);
    var max := MaxPodsToUpdate(podLimit, total, |running|, 0, total - |running|);
    SelectionOrder.HealthyFirstIsPicked(scene, site, state.view.notActive, max, running);
  }

  lemma FirstIsChosen(f: Fleet, e: StepInput)
    requires WellFormed(f) && Healthy(f, e) && MaxPodsUnavailable(e.podLimit, |f.pods|) >= 1
    ensures FirstBySafety(f, e) in Chosen(f, e).pods
    ensures MaxPodsUnavailable(e.podLimit, |f.pods|) == 1 ==> Chosen(f, e).pods == [FirstBySafety(f, e)]
  {
    hide WellFormed, Selection, Chosen, SortBySafety, ClusterState.Aggregates, AllAccepted, Segmented;
    hide MaxPodsUnavailable;
    hide SelectionProgress.AllServing, Names;
    HealthyChosen(f, e);
    FirstIsSelected(e.state, e.cloud, e.podLimit, e.shardLimit, |f.pods|, Names(Segmented(f, OutOfDateRunning)));
  }

  /**
    With room for one pod, a healthy step stalls exactly if the running pod that is the safest to stop is
    stuck. With more room it goes on at least if that pod is not.
   */
  lemma HealthyFirstDecides(f: Fleet, e: StepInput) returns (k: nat)
    requires WellFormed(f) && Healthy(f, e) && MaxPodsUnavailable(e.podLimit, |f.pods|) >= 1
    ensures k < |f.pods| && f.pods[k].name == FirstBySafety(f, e)
    ensures !IsStuckPod(f, e, k) ==> StepMovesForward(f, e)
    ensures MaxPodsUnavailable(e.podLimit, |f.pods|) == 1 ==> (StepMovesForward(f, e) <==> !IsStuckPod(f, e, k))
  {
    hide Settled, SegmentOf, Chosen, StepMovesForward, IsStuckPod, MaxPodsUnavailable, SortBySafety, Segmented, Names;
    hide ClusterState.Aggregates, AllAccepted, SelectionProgress.AllServing;
    HealthyStepExactly(f, e);
    FirstIsChosen(f, e);
    ChosenAreRunning(f, e, FirstBySafety(f, e));
    k :| 0 <= k < |f.pods| && f.pods[k].name == FirstBySafety(f, e);
  }

  /** So in every run, each healthy step without a stuck pod moves an out-of-date pod forward. */
  lemma HealthyRunProgresses(limit: Option<IntOrPercent>, states: seq<Fleet>, events: seq<FleetEvent>, i: nat)
    requires FleetRun(limit, states, events) && i < |events| && events[i].OperatorActs?
    requires Healthy(states[i], events[i].e)
    requires NoneStuck(states[i], events[i].e)
    ensures StepMovesForward(states[i], events[i].e) <==> !IsNegative(limit)
  {
    hide StepMovesForward, Healthy, NoneStuck, After;
    RunWellFormed(limit, states, events, i);
    assert states[i + 1] == After(states[i], events[i].e) && events[i].e.podLimit == limit;
    HealthyUpdateProgresses(states[i], events[i].e);
  }

  // ----- such steps exist -----

  /** An empty cluster status, which says of every pod that it holds nothing. */
  function EmptyState(): FetchedState {
    FetchedState(ClusterState.ClusterStatus(map[], []), "", {}, ClusterState.ReplicaView(map[], map[], map[], true))
  }

  lemma EmptyStateIsFaithful()
    ensures EmptyState().Faithful() && SelectionProgress.AllServing(EmptyState().cluster)
  {
    var s := EmptyState();
    assert ClusterState.AllIds(s.cluster) == {};
    forall t: ClusterState.Tally | !t.InShard?
      ensures ClusterState.CounterOf(s.view.nodes, s.view.notActive, t) ==
              ClusterState.Count(s.cluster, ClusterState.AllIds(s.cluster), t)
    {
      ClusterState.CountNone(s.cluster, t);
    }
  }

  lemma OnePodSegment(pod: PodInfo, revision: string, s: Segment)
    ensures PodsIn([pod], revision, s) == if SegmentOf(pod, revision) == s then [pod] else []
  {
    hide SegmentOf;
    assert [pod][..0] == [];
    assert PodsIn([pod][..0], revision, s) == [];
  }

  /** A step deletes an empty pod that never started, with ephemeral storage, if the calls are accepted. */
  lemma UnstartedPodIsDeleted(f: Fleet, pod: PodInfo, e: StepInput)
    requires f.pods == [pod] && SegmentOf(pod, f.revision) == NotStarted && Settled(pod.conditions, pod.gates)
    requires e.fetch == Fetched && e.state == EmptyState() && e.requests == map[] && e.specReplicas == Some(3)
    requires IsAccepted(CaseOf(pod, e))
    ensures IsDeleted(pod, f, e)
  {
    hide SegmentOf, Settled, Chosen, Naming.SolrNodeName;
    OnePodSegment(pod, f.revision, NotStarted);
    assert Worked(f, e)[0] == CaseOf(pod, e);
    var c := CaseOf(pod, e);
    EachDeletion(e.requests, e.specReplicas, Worked(f, e), 0);
    StoppedNeedsEviction(c);
    hide Worked, Segmented, DeletionsOf, AllChanged, ConditionHasReason, NeedsEviction, SomeNeedsChange;
    assert Attempts(f, e)[..0] == [];
    assert Attempts(f, e)[0] == DeletionOf(map[], Some(3), c);
  }

  /** A pod with ephemeral storage that is out of date and never started. */
  function UnstartedPod(): PodInfo {
    PodInfo("c-1", "old", [ReplicasNotEvicted], [Condition(ReplicasNotEvicted, True, PodStarted)], [])
  }

  lemma UnstartedPodIsSettled()
    ensures Settled(UnstartedPod().conditions, UnstartedPod().gates) && SegmentOf(UnstartedPod(), "new") == NotStarted
  {
    var conditions := UnstartedPod().conditions;
    assert FirstOf(conditions, ReplicasNotEvicted) == 0;
    assert conditions[..0] == [] && LastOf([], READY) == None && LastOf([], IsNotStopped) == None;
  }

  lemma OneStepRun(f: Fleet, e: StepInput)
    requires WellFormed(f)
    ensures FleetRun(e.podLimit, [f, After(f, e)], [OperatorActs(e)])
  {
    hide WellFormed, After, OutsideStep;
  }

  /** A run whose one step deletes a pod with ephemeral storage after it fetched the cluster state. */
  lemma SomeRunDeletes() returns (states: seq<Fleet>, events: seq<FleetEvent>)
    ensures FleetRun(None, states, events) && |events| == 1 && |states[0].pods| == 1
    ensures events[0].OperatorActs? && events[0].e.fetch == Fetched && events[0].e.state.Faithful()
    ensures ReplicasNotEvicted in states[0].pods[0].gates && IsDeleted(states[0].pods[0], states[0], events[0].e)
  {
    hide SegmentOf, Settled, IsDeleted, After, EmptyState, ClusterState.Aggregates, ClusterState.PodHasReplicas;
    hide FleetRun, Naming.SolrNodeName;
    var pod := UnstartedPod();
    var f := Fleet([pod], "new", {});
    var calls := (name: string) => Calls(true, Deleted, Io(false, Done, Done));
    var cloud := Naming.Cloud("c", "default", "", 8983, None);
    var e := StepInput(cloud, None, None, Some(3), Fetched, EmptyState(), map[], calls);
    states, events := [f, After(f, e)], [OperatorActs(e)];
    EmptyStateIsFaithful();
    UnstartedPodIsSettled();
    OneStepRun(f, e);
    UnstartedPodIsDeleted(f, pod, e);
  }
}
