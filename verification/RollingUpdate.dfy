/**
  The first half of a step of a managed rolling update: sorting the pods by what state they are in, and
  selecting running pods to stop from the aggregated cluster status.
 */
module RollingUpdate {
  import opened Prelude
  import opened PodLifecycle
  import opened PodSelection
  import Naming
  import ClusterState
  import SelectionOrder
  import SelectionProgress
  import SelectionSafety

  // ----- segmentation -----

  datatype Container = Container(isSolr: bool, started: Option<bool>)

  datatype PodInfo = PodInfo(
    name: string, revision: string, gates: seq<ConditionType>, conditions: seq<Condition>, containers: seq<Container>)

  const READY := OtherType("Ready")

  /** The last condition of a type, which is the one that counts for the status. */
  function LastOf(conditions: seq<Condition>, t: ConditionType): (r: Option<Condition>)
    ensures r.Some? ==> r.value in conditions && r.value.ctype == t
    ensures r.None? <==> forall i :: 0 <= i < |conditions| ==> conditions[i].ctype != t
  {
    if conditions == [] then None
    else if conditions[|conditions| - 1].ctype == t then Some(conditions[|conditions| - 1])
    else LastOf(conditions[..|conditions| - 1], t)
  }

  predicate IsReady(pod: PodInfo) {
    LastOf(pod.conditions, READY).Some? && LastOf(pod.conditions, READY).value.status == True
  }

  predicate IsScheduledForUpdate(pod: PodInfo) {
    var c := LastOf(pod.conditions, IsNotStopped);
    c.Some? && c.value.status == False && c.value.reason == PodUpdate
  }

  function LastSolrStarted(containers: seq<Container>): bool {
    if containers == [] then false
    else if containers[|containers| - 1].isSolr then containers[|containers| - 1].started == Some(true)
    else LastSolrStarted(containers[..|containers| - 1])
  }

  predicate IsUpToDate(pod: PodInfo, revision: string) {
    revision == "" || pod.revision == revision
  }

  datatype Segment = UpdatedAvailable | UpdatedUnavailable | ScheduledForDeletion | NotStarted | OutOfDateRunning

  function SegmentOf(pod: PodInfo, revision: string): Segment {
    if IsUpToDate(pod, revision) then if IsReady(pod) then UpdatedAvailable else UpdatedUnavailable
    else if IsScheduledForUpdate(pod) then ScheduledForDeletion
    else if !IsReady(pod) && !LastSolrStarted(pod.containers) then NotStarted
    else OutOfDateRunning
  }

  /** The pods of a segment, in the order of the list. */
  function PodsIn(pods: seq<PodInfo>, revision: string, s: Segment): seq<PodInfo> {
    if pods == [] then []
    else
      PodsIn(pods[..|pods| - 1], revision, s) +
      if SegmentOf(pods[|pods| - 1], revision) == s then [pods[|pods| - 1]] else []
  }

  // ----- the segments on the fields of a pod -----

  /** The condition at `i` is the last one of its type. */
  ghost predicate IsLastCondition(conditions: seq<Condition>, t: ConditionType, i: int) {
    0 <= i < |conditions| && conditions[i].ctype == t && forall j :: i < j < |conditions| ==> conditions[j].ctype != t
  }

  /** The container at `i` is the last one that runs Solr. */
  ghost predicate IsLastSolr(containers: seq<Container>, i: int) {
    0 <= i < |containers| && containers[i].isSolr && forall j :: i < j < |containers| ==> !containers[j].isSolr
  }

  ghost predicate ReportsReady(pod: PodInfo) {
    exists i :: IsLastCondition(pod.conditions, OtherType("Ready"), i) && pod.conditions[i].status == True
  }

  ghost predicate ReportsStoppedForUpdate(pod: PodInfo) {
    exists i :: IsLastCondition(pod.conditions, IsNotStopped, i)
             && pod.conditions[i].status == False && pod.conditions[i].reason == PodUpdate
  }

  ghost predicate ReportsSolrStarted(pod: PodInfo) {
    exists i :: IsLastSolr(pod.containers, i) && pod.containers[i].started == Some(true)
  }

  ghost predicate HasOldRevision(pod: PodInfo, revision: string) {
    revision != "" && pod.revision != revision
  }

  /** What the fields of a pod say about its segment. */
  ghost predicate Fits(s: Segment, pod: PodInfo, revision: string) {
    match s
    case UpdatedAvailable => !HasOldRevision(pod, revision) && ReportsReady(pod)
    case UpdatedUnavailable => !HasOldRevision(pod, revision) && !ReportsReady(pod)
    case ScheduledForDeletion => HasOldRevision(pod, revision) && ReportsStoppedForUpdate(pod)
    case NotStarted =>
      && HasOldRevision(pod, revision) && !ReportsStoppedForUpdate(pod)
      && !ReportsReady(pod) && !ReportsSolrStarted(pod)
    case OutOfDateRunning =>
      && HasOldRevision(pod, revision) && !ReportsStoppedForUpdate(pod)
      && (ReportsReady(pod) || ReportsSolrStarted(pod))
  }

  function LastAt(conditions: seq<Condition>, t: ConditionType): (i: int)
    ensures -1 <= i < |conditions|
    ensures i >= 0 ==> conditions[i].ctype == t
    ensures forall j :: i < j < |conditions| ==> conditions[j].ctype != t
    ensures LastOf(conditions, t) == if i >= 0 then Some(conditions[i]) else None
  {
    if conditions == [] then -1
    else if conditions[|conditions| - 1].ctype == t then |conditions| - 1
    else LastAt(conditions[..|conditions| - 1], t)
  }

  lemma LastConditionFound(conditions: seq<Condition>, t: ConditionType, p: Condition -> bool)
    ensures LastOf(conditions, t).Some? && p(LastOf(conditions, t).value) <==>
              exists i :: IsLastCondition(conditions, t, i) && p(conditions[i])
  {
    hide LastOf, LastAt;
    var k := LastAt(conditions, t);
    assert forall i :: IsLastCondition(conditions, t, i) ==> i == k;
    if k >= 0 {
      assert IsLastCondition(conditions, t, k);
    }
  }

  lemma {:induction false} LastSolrFound(containers: seq<Container>)
    ensures LastSolrStarted(containers) <==>
              exists i :: IsLastSolr(containers, i) && containers[i].started == Some(true)
  {
    if containers != [] {
      var rest, n := containers[..|containers| - 1], |containers| - 1;
      if containers[n].isSolr {
        assert IsLastSolr(containers, n);
        assert forall i :: IsLastSolr(containers, i) ==> i == n;
      } else {
        LastSolrFound(rest);
        assert forall i :: IsLastSolr(containers, i) <==> IsLastSolr(rest, i);
      }
    }
  }

  lemma ReadyExactly(pod: PodInfo)
    ensures IsReady(pod) <==> ReportsReady(pod)
  {
    hide LastOf, IsLastCondition;
    LastConditionFound(pod.conditions, READY, (c: Condition) => c.status == True);
  }

  /**
    Every pod is in the segment that its fields say. It has never started only if it is out of date, was
    not stopped for the update, is not ready, and its last Solr container, if any, has not started.
   */
  lemma SegmentExactly(pod: PodInfo, revision: string, s: Segment)
    ensures SegmentOf(pod, revision) == s <==> Fits(s, pod, revision)
  {
    hide LastOf, LastSolrStarted, IsLastCondition, IsLastSolr;
    ReadyExactly(pod);
    LastConditionFound(pod.conditions, IsNotStopped, (c: Condition) => c.status == False && c.reason == PodUpdate);
    LastSolrFound(pod.containers);
  }

  /** The positions of the pods that fit a segment. */
  ghost function PositionsOf(pods: seq<PodInfo>, revision: string, s: Segment): set<int> {
    set i | 0 <= i < |pods| && Fits(s, pods[i], revision)
  }

  lemma PositionsOneMore(rest: seq<PodInfo>, last: PodInfo, revision: string, s: Segment)
    ensures |PositionsOf(rest + [last], revision, s)| ==
            |PositionsOf(rest, revision, s)| + if Fits(s, last, revision) then 1 else 0
  {
    hide Fits;
    var before, pods := PositionsOf(rest, revision, s), rest + [last];
    assert PositionsOf(pods, revision, s) == if Fits(s, last, revision) then before + {|rest|} else before;
  }

  lemma {:induction false} SegmentHas(pods: seq<PodInfo>, revision: string, s: Segment)
    ensures |PodsIn(pods, revision, s)| == |PositionsOf(pods, revision, s)|
    ensures forall p :: p in PodsIn(pods, revision, s) <==> p in pods && Fits(s, p, revision)
  {
    hide SegmentOf, Fits;
    if pods == [] {
      assert PositionsOf(pods, revision, s) == {};
    } else {
      hide PositionsOf;
      var rest, last := pods[..|pods| - 1], pods[|pods| - 1];
      assert pods == rest + [last];
      SegmentHas(rest, revision, s);
      SegmentExactly(last, revision, s);
      PositionsOneMore(rest, last, revision, s);
      assert forall p :: p in pods <==> p in rest || p == last;
    }
  }

  // ----- reading the pods -----

  datatype Segmentation = Segmentation(notStarted: seq<PodInfo>, scheduled: seq<PodInfo>, running: seq<PodInfo>)

  method ReadConditions(pod: PodInfo) returns (ready: bool, scheduled: bool)
    ensures ready == IsReady(pod) && scheduled == IsScheduledForUpdate(pod)
  {
    ready, scheduled := false, false;
    var cs := pod.conditions;
    for i := 0 to |cs|
      invariant ready == (LastOf(cs[..i], READY).Some? && LastOf(cs[..i], READY).value.status == True)
      invariant var c := LastOf(cs[..i], IsNotStopped);
                scheduled == (c.Some? && c.value.status == False && c.value.reason == PodUpdate)
    {
      assert cs[..i + 1][..i] == cs[..i];
      if cs[i].ctype == READY {
        ready := cs[i].status == True;
      } else if cs[i].ctype == IsNotStopped {
        scheduled := cs[i].status == False && cs[i].reason == PodUpdate;
      }
    }
    assert cs[..|cs|] == cs;
  }

  method ReadContainers(containers: seq<Container>) returns (notStarted: bool)
    ensures notStarted == !LastSolrStarted(containers)
  {
    notStarted := true;
    for i := 0 to |containers|
      invariant notStarted == !LastSolrStarted(containers[..i])
    {
      assert containers[..i + 1][..i] == containers[..i];
      if containers[i].isSolr {
        notStarted := containers[i].started.None? || !containers[i].started.value;
      }
    }
    assert containers[..|containers|] == containers;
  }

  method Classify(pod: PodInfo, revision: string) returns (s: Segment, ready: bool)
    ensures s == SegmentOf(pod, revision) && ready == IsReady(pod)
    ensures Fits(s, pod, revision) && ready == ReportsReady(pod)
  {
    hide Fits, ReportsReady, LastOf, LastSolrStarted;
    ReadyExactly(pod);
    SegmentExactly(pod, revision, SegmentOf(pod, revision));
    var scheduled;
    ready, scheduled := ReadConditions(pod);
    if IsUpToDate(pod, revision) {
      s := if ready then UpdatedAvailable else UpdatedUnavailable;
    } else {
      var notStarted := false;
      if !ready {
        notStarted := ReadContainers(pod.containers);
      }
      s := if scheduled then ScheduledForDeletion else if notStarted then NotStarted else OutOfDateRunning;
    }
  }

  /** The positions of the ready pods. */
  ghost function ReadyAt(pods: seq<PodInfo>): set<int> {
    set i | 0 <= i < |pods| && ReportsReady(pods[i])
  }

  lemma NoneReady()
    ensures |ReadyAt([])| == 0
  {
  }

  lemma ReadyOneMore(pods: seq<PodInfo>, i: nat)
    requires i < |pods|
    ensures |ReadyAt(pods[..i + 1])| == |ReadyAt(pods[..i])| + if ReportsReady(pods[i]) then 1 else 0
  {
    hide ReportsReady;
    var before, after := ReadyAt(pods[..i]), ReadyAt(pods[..i + 1]);
    assert after == if ReportsReady(pods[i]) then before + {i} else before;
  }

  /** Sorts the pods into segments and counts the ready and the updated ones. */
  method CreateCloudStatus(pods: seq<PodInfo>, revision: string)
    returns (seg: Segmentation, availableUpdated: nat, upToDate: nat, ready: nat)
    ensures seg == Segmentation(PodsIn(pods, revision, NotStarted), PodsIn(pods, revision, ScheduledForDeletion),
                                PodsIn(pods, revision, OutOfDateRunning))
    ensures availableUpdated == |PodsIn(pods, revision, UpdatedAvailable)|
    ensures upToDate == availableUpdated + |PodsIn(pods, revision, UpdatedUnavailable)|
    ensures ready == |ReadyAt(pods)|
    ensures |pods| == upToDate + |seg.notStarted| + |seg.scheduled| + |seg.running|
    ensures forall p :: p in seg.notStarted <==> p in pods && Fits(NotStarted, p, revision)
    ensures forall p :: p in seg.scheduled <==> p in pods && Fits(ScheduledForDeletion, p, revision)
    ensures forall p :: p in seg.running <==> p in pods && Fits(OutOfDateRunning, p, revision)
    ensures availableUpdated == |PositionsOf(pods, revision, UpdatedAvailable)|
    ensures upToDate == availableUpdated + |PositionsOf(pods, revision, UpdatedUnavailable)|
  {
    hide SegmentOf, IsReady, IsUpToDate, ReadyAt, Fits, ReportsReady, PositionsOf;
    assert |ReadyAt([])| == 0 by { NoneReady(); }
    seg := Segmentation([], [], []);
    availableUpdated, upToDate, ready := 0, 0, 0;
    for i := 0 to |pods|
      invariant seg == Segmentation(PodsIn(pods[..i], revision, NotStarted),
                                    PodsIn(pods[..i], revision, ScheduledForDeletion),
                                    PodsIn(pods[..i], revision, OutOfDateRunning))
      invariant availableUpdated == |PodsIn(pods[..i], revision, UpdatedAvailable)|
      invariant upToDate == availableUpdated + |PodsIn(pods[..i], revision, UpdatedUnavailable)|
      invariant ready == |ReadyAt(pods[..i])|
    {
      var p := pods[i];
      assert pods[..i + 1][..i] == pods[..i];
      var s, isReady := Classify(p, revision);
      ReadyOneMore(pods, i);
      if isReady {
        ready := ready + 1;
      }
      match s
      case UpdatedAvailable => upToDate, availableUpdated := upToDate + 1, availableUpdated + 1;
      case UpdatedUnavailable => upToDate := upToDate + 1;
      case ScheduledForDeletion => seg := seg.(scheduled := seg.scheduled + [p]);
      case NotStarted => seg := seg.(notStarted := seg.notStarted + [p]);
      case OutOfDateRunning => seg := seg.(running := seg.running + [p]);
    }
    assert pods[..|pods|] == pods;
    SegmentsCoverPods(pods, revision);
    SegmentHas(pods, revision, NotStarted);
    SegmentHas(pods, revision, ScheduledForDeletion);
    SegmentHas(pods, revision, OutOfDateRunning);
    SegmentHas(pods, revision, UpdatedAvailable);
    SegmentHas(pods, revision, UpdatedUnavailable);
  }

  /** Every pod is in exactly one segment. */
  lemma {:induction false} SegmentsCoverPods(pods: seq<PodInfo>, revision: string)
    ensures |pods| == |PodsIn(pods, revision, UpdatedAvailable)| + |PodsIn(pods, revision, UpdatedUnavailable)|
                    + |PodsIn(pods, revision, ScheduledForDeletion)| + |PodsIn(pods, revision, NotStarted)|
                    + |PodsIn(pods, revision, OutOfDateRunning)|
  {
    if pods != [] {
      SegmentsCoverPods(pods[..|pods| - 1], revision);
    }
  }

  // ----- selecting pods -----

  lemma ApartAsNodes(site: Site, scheduled: seq<string>, listed: seq<string>, order: seq<string>)
    requires Distinct(scheduled + listed) && multiset(order) == multiset(listed)
    requires !Naming.AdvertisesBlankHost(site.cloud)
    ensures SelectionSafety.Disjoint(site, scheduled, order)
  {
    assert multiset(scheduled + order) == multiset(scheduled + listed);
    SelectionOrder.PermutationDistinct(scheduled + listed, scheduled + order);
    SelectionSafety.DistinctPodsDistinctNodes(site, scheduled + order);
    NodesApart(site, scheduled, order);
  }

  lemma NodesApart(site: Site, scheduled: seq<string>, order: seq<string>)
    requires SelectionSafety.DistinctNodes(site, scheduled + order)
    ensures SelectionSafety.Disjoint(site, scheduled, order)
  {
    hide Naming.SolrNodeName;
    var all := scheduled + order;
    assert forall i :: 0 <= i < |scheduled| ==> all[i] == scheduled[i];
    assert forall i :: 0 <= i < |order| ==> all[|scheduled| + i] == order[i];
  }

  datatype Selected = Selected(pods: seq<string>, retryLater: bool)

  /** The running pods to stop now, and whether to ask again later. */
  function Selection(
    cloud: Naming.Cloud, view: ClusterState.ReplicaView, podLimit: Option<IntOrPercent>,
    shardLimit: Option<IntOrPercent>,
    total: int, notStarted: nat, scheduled: seq<string>, running: seq<string>, availableUpdated: int): Selected
  {
    var max := MaxPodsToUpdate(podLimit, total, |running|, notStarted + |scheduled|, availableUpdated);
    if max <= 0 then Selected([], true)
    else
      var pods := Pick(SiteOf(cloud, view, shardLimit, |running|), max, scheduled,
                       SortBySafety(cloud, view.nodes, running), view.notActive).pods;
      Selected(pods, pods == [] && |running| > 0)
  }

  /**
    Aggregates the status of the cluster and selects the running pods to stop now. For every status,
    the selection comes from the running pods, respects every shard on top of the pods that are
    stopped already, and keeps the promised number of pods available.
   */
  method SelectPods(
    cluster: ClusterState.ClusterStatus, overseer: string, managed: set<string>, cloud: Naming.Cloud,
    podLimit: Option<IntOrPercent>, shardLimit: Option<IntOrPercent>, total: int,
    notStarted: nat, scheduled: seq<string>, running: array<string>, availableUpdated: int)
    returns (pods: seq<string>, retryLater: bool, ghost view: ClusterState.ReplicaView)
    requires Distinct(scheduled + running[..]) && !Naming.AdvertisesBlankHost(cloud)
    modifies running
    ensures ClusterState.Aggregates(cluster, overseer, managed, view)
    ensures Selected(pods, retryLater) ==
            Selection(cloud, view, podLimit, shardLimit, total, notStarted, scheduled, old(running[..]),
                      availableUpdated)
    ensures forall p :: p in pods ==> p in old(running[..])
    ensures forall k :: SelectionSafety.RespectsShard(
              SelectionSafety.Scene(cluster, overseer, managed),
              SiteOf(cloud, view, shardLimit, running.Length), scheduled, pods, k)
    ensures pods != [] ==> availableUpdated + running.Length - |pods| >= total - MaxPodsUnavailable(podLimit, total)
  {
    hide SelectionSafety.RespectsShard, ClusterState.Aggregates, SelectionSafety.Disjoint, Naming.SolrNodeName;
    var state := ClusterState.FindSolrNodeContents(cluster, overseer, managed);
    view := state.View();
    ghost var listed := running[..];
    pods, retryLater := SelectionProgress.DeterminePodsSafeToUpdate(
      cloud, podLimit, shardLimit, total, notStarted, scheduled, running, state, availableUpdated);
    ghost var max := MaxPodsToUpdate(podLimit, total, running.Length, notStarted + |scheduled|, availableUpdated);
    SelectionRespects(SelectionSafety.Scene(cluster, overseer, managed),
                      SiteOf(cloud, view, shardLimit, running.Length),
                      view.notActive, max, scheduled, listed, pods);
  }

  lemma SelectionRespects(
    scene: SelectionSafety.Scene, site: Site, counts: map<string, int>, max: int,
    scheduled: seq<string>, listed: seq<string>, pods: seq<string>)
    requires SelectionSafety.Faithful(scene, site, counts)
    requires Distinct(scheduled + listed) && !Naming.AdvertisesBlankHost(site.cloud)
    requires pods == [] || pods == Pick(site, max, scheduled, SortBySafety(site.cloud, site.nodes, listed), counts).pods
    ensures forall p :: p in pods ==> p in listed
    ensures forall k :: SelectionSafety.RespectsShard(scene, site, scheduled, pods, k)
  {
    hide SelectionSafety.Faithful, Naming.SolrNodeName, Sort, PickFrom;
    var order := SortBySafety(site.cloud, site.nodes, listed);
    SelectionOrder.SortPermutes(SaferIn(site.cloud, site.nodes), listed);
    assert forall p :: p in order ==> p in multiset(order);
    ApartAsNodes(site, scheduled, listed, order);
    if pods == [] {
      var stopped := SelectionSafety.NodesOf(site, scheduled);
      assert stopped + SelectionSafety.NodesOf(site, pods) == stopped;
    } else {
      SelectionProgress.PickFromExtends(site, max, order, Picked([], AllStopped(site, scheduled, counts)));
      forall k ensures SelectionSafety.RespectsShard(scene, site, scheduled, pods, k) {
        SelectionSafety.SelectionRespectsShards(scene, site, counts, max, scheduled, order, k);
      }
    }
  }
}
