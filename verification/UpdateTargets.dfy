/**
  What a step of a rolling update works on and what it leaves alone, on the fields of the pods: their
  revision, their conditions and their containers.
 */
module UpdateTargets {
  import opened Prelude
  import opened PodLifecycle
  import opened PodDeletion
  import opened RollingUpdate
  import opened UpdatePhases
  import opened UpdateSteps
  import ClusterState

  // ----- the segments -----

  /** The listed pods are those at the given positions, in order, and these are the positions of the segment. */
  ghost predicate ListsSegment(
    listed: seq<PodInfo>, at: seq<nat>, pods: seq<PodInfo>, revision: string, s: Segment)
  {
    && |at| == |listed|
    && (forall m :: 0 <= m < |at| ==> at[m] < |pods| && listed[m] == pods[at[m]])
    && (forall m, n :: 0 <= m < n < |at| ==> at[m] < at[n])
    && (forall k :: 0 <= k < |pods| ==> (k in at <==> Fits(s, pods[k], revision)))
  }

  lemma OneMoreListed(
    listed: seq<PodInfo>, at: seq<nat>, pods: seq<PodInfo>, last: PodInfo, revision: string, s: Segment)
    requires ListsSegment(listed, at, pods, revision, s)
    ensures if Fits(s, last, revision)
            then ListsSegment(listed + [last], at + [|pods|], pods + [last], revision, s)
            else ListsSegment(listed, at, pods + [last], revision, s)
  {
    hide Fits;
    var all := pods + [last];
    assert forall k :: 0 <= k < |pods| ==> all[k] == pods[k];
    assert |pods| !in at;
    assert forall k :: k in at + [|pods|] <==> k in at || k == |pods|;
  }

  /** A segment lists its pods in the order in which the pods were listed, each as often as it was. */
  lemma {:induction false} SegmentInOrder(pods: seq<PodInfo>, revision: string, s: Segment) returns (at: seq<nat>)
    ensures ListsSegment(PodsIn(pods, revision, s), at, pods, revision, s)
  {
    hide SegmentOf, Fits;
    if pods == [] {
      at := [];
    } else {
      hide ListsSegment;
      var rest, last := pods[..|pods| - 1], pods[|pods| - 1];
      assert pods == rest + [last];
      at := SegmentInOrder(rest, revision, s);
      SegmentExactly(last, revision, s);
      OneMoreListed(PodsIn(rest, revision, s), at, rest, last, revision, s);
      if Fits(s, last, revision) {
        at := at + [|rest|];
      } else {
        assert PodsIn(pods, revision, s) == PodsIn(rest, revision, s);
      }
    }
  }

  // ----- what a step works on -----

  /** The step makes an attempt to delete the pod. */
  ghost predicate IsWorkedOn(pod: PodInfo, f: Fleet, e: StepInput) {
    exists i :: 0 <= i < |Worked(f, e)| && Worked(f, e)[i].name == pod.name
  }

  lemma FoundInOrder(f: Fleet, e: StepInput, pod: PodInfo) returns (i: nat)
    requires pod in InOrder(f, e)
    ensures i < |InOrder(f, e)| && InOrder(f, e)[i] == pod
    ensures pod in Segmented(f, NotStarted) ==> i < |Segmented(f, NotStarted)|
  {
    hide Chosen, PodsIn, ByName;
    if pod in Segmented(f, NotStarted) {
      i :| 0 <= i < |Segmented(f, NotStarted)| && Segmented(f, NotStarted)[i] == pod;
    } else {
      i :| 0 <= i < |InOrder(f, e)| && InOrder(f, e)[i] == pod;
    }
  }

  lemma SegmentsInOrder(f: Fleet, e: StepInput, pod: PodInfo)
    requires DistinctNames(f.pods, f.gone) && pod in f.pods
    ensures pod in InOrder(f, e) <==> MayBeWorkedOn(pod, f, e)
    ensures pod in Segmented(f, NotStarted) <==> SegmentOf(pod, f.revision) == NotStarted
  {
    hide SegmentOf, Chosen;
    PodsInAre(f.pods, f.revision, NotStarted);
    PodsInAre(f.pods, f.revision, ScheduledForDeletion);
    ByNameAre(f.pods, Chosen(f, e).pods);
    hide PodsIn, ByName;
    if pod.name in Chosen(f, e).pods {
      ChosenAreRunning(f, e, pod.name);
      var k :| 0 <= k < |f.pods| && f.pods[k].name == pod.name && SegmentOf(f.pods[k], f.revision) == OutOfDateRunning;
      SameNameSamePod(f, pod, f.pods[k]);
    }
  }

  lemma WorkedLength(f: Fleet, e: StepInput)
    ensures |Worked(f, e)| == match e.fetch
                              case FetchFailed => 0
                              case NoReadyPod => |Segmented(f, NotStarted)|
                              case Fetched => |InOrder(f, e)|
  {
    hide PodsIn, ByName, CaseOf, Selection;
    if e.fetch == Fetched && Chosen(f, e).retryLater {
      NothingChosen(f, e);
    }
  }

  lemma NothingChosen(f: Fleet, e: StepInput)
    requires Chosen(f, e).retryLater
    ensures Chosen(f, e).pods == [] && ByName(f.pods, Chosen(f, e).pods) == []
  {
    hide Selection, PodsIn;
    SelectionBounded(e.cloud, e.state.view, e.podLimit, e.shardLimit, |f.pods| + |f.gone|, |Segmented(f, NotStarted)|,
                     Names(Segmented(f, ScheduledForDeletion)), Names(Segmented(f, OutOfDateRunning)),
                     |Segmented(f, UpdatedAvailable)|);
  }

  lemma WorkedName(f: Fleet, e: StepInput, i: nat)
    requires i < |Worked(f, e)|
    ensures i < |InOrder(f, e)| && Worked(f, e)[i].name == InOrder(f, e)[i].name
  {
    hide Worked, InOrder, ClusterState.PodHasReplicas;
    WorkedAt(f, e, i);
  }

  /**
    Exactly which pods a step works on. A pod that never started is worked on unless fetching the cluster
    state failed. With the state at hand, so is every pod that is stopped for the update, and of the
    others exactly those that were selected. No pod of the current revision is ever worked on.
   */
  lemma WorkedOnExactly(f: Fleet, e: StepInput, pod: PodInfo)
    requires DistinctNames(f.pods, f.gone) && pod in f.pods
    ensures IsWorkedOn(pod, f, e) <==>
              && e.fetch != FetchFailed && HasOldRevision(pod, f.revision)
              && (|| (!ReportsStoppedForUpdate(pod) && !ReportsReady(pod) && !ReportsSolrStarted(pod))
                  || (e.fetch == Fetched && (ReportsStoppedForUpdate(pod) || pod.name in Chosen(f, e).pods)))
  {
    hide Worked, InOrder, SegmentOf, Chosen, PodsIn, HasOldRevision, ReportsReady, ReportsSolrStarted,
         ReportsStoppedForUpdate;
    SegmentExactly(pod, f.revision, NotStarted);
    SegmentExactly(pod, f.revision, ScheduledForDeletion);
    SegmentExactly(pod, f.revision, OutOfDateRunning);
    SegmentsInOrder(f, e, pod);
    WorkedLength(f, e);
    if MayBeWorkedOn(pod, f, e) {
      var i := FoundInOrder(f, e, pod);
      if i < |Worked(f, e)| {
        WorkedName(f, e, i);
      }
    }
    if i :| 0 <= i < |Worked(f, e)| && Worked(f, e)[i].name == pod.name {
      WorkedPodIs(f, e, pod, i);
    }
    if pod.name in Chosen(f, e).pods {
      ChosenIsRunning(f, e, pod);
    }
  }

  lemma ChosenIsRunning(f: Fleet, e: StepInput, pod: PodInfo)
    requires DistinctNames(f.pods, f.gone) && pod in f.pods && pod.name in Chosen(f, e).pods
    ensures SegmentOf(pod, f.revision) == OutOfDateRunning && e.fetch == Fetched
  {
    hide SegmentOf, Selection;
    ChosenAreRunning(f, e, pod.name);
    var k :| 0 <= k < |f.pods| && f.pods[k].name == pod.name && SegmentOf(f.pods[k], f.revision) == OutOfDateRunning;
    SameNameSamePod(f, pod, f.pods[k]);
  }

  lemma WorkedPodIs(f: Fleet, e: StepInput, pod: PodInfo, i: nat)
    requires DistinctNames(f.pods, f.gone) && pod in f.pods
    requires i < |Worked(f, e)| && Worked(f, e)[i].name == pod.name
    ensures MayBeWorkedOn(pod, f, e) && e.fetch != FetchFailed
    ensures e.fetch == NoReadyPod ==> SegmentOf(pod, f.revision) == NotStarted
  {
    hide Worked, InOrder, SegmentOf, Chosen, PodsIn;
    WorkedLength(f, e);
    WorkedName(f, e, i);
    InOrderFrom(f, e, i);
    SameNameSamePod(f, pod, InOrder(f, e)[i]);
    if e.fetch == NoReadyPod {
      NotStartedFirst(f, e, i);
      PodsInAre(f.pods, f.revision, NotStarted);
    }
  }

  lemma NotStartedFirst(f: Fleet, e: StepInput, i: nat)
    requires i < |Segmented(f, NotStarted)|
    ensures i < |InOrder(f, e)| && InOrder(f, e)[i] in Segmented(f, NotStarted)
  {
    hide Chosen, PodsIn, ByName;
    assert InOrder(f, e)[i] == Segmented(f, NotStarted)[i];
  }

  /**
    A step neither stops nor deletes a pod that serves, unless it was stopped for the update already or is
    one of those it selected. Serving means that the last Solr container of the pod has started.
   */
  lemma StartedPodsAreLeftAlone(f: Fleet, e: StepInput, k: nat)
    requires DistinctNames(f.pods, f.gone) && k < |f.pods|
    requires ReportsSolrStarted(f.pods[k]) || ReportsReady(f.pods[k])
    requires IsWorkedOn(f.pods[k], f, e) || IsDeleted(f.pods[k], f, e) || Revised(f.pods[k], f, e) != f.pods[k]
    ensures HasOldRevision(f.pods[k], f.revision) && e.fetch == Fetched
    ensures ReportsStoppedForUpdate(f.pods[k]) || f.pods[k].name in Chosen(f, e).pods
  {
    hide Worked, Attempts, Chosen, HasOldRevision, ReportsReady, ReportsSolrStarted, ReportsStoppedForUpdate;
    assert f.pods[k] in f.pods;
    WorkedOnExactly(f, e, f.pods[k]);
  }
}
