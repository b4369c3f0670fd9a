/**
  One whole step of a managed rolling update on the pods of a cloud: segmentation, selection and the
  attempts to delete, with what they leave behind. Such a step is a step on phases, so the guarantees
  about phases hold for every run of these steps, and it goes on unless it meets the only pod of a cloud.
 */
module UpdateSteps {
  import opened Prelude
  import opened AsyncRequests
  import opened PodLifecycle
  import opened PodDeletion
  import opened PodSelection
  import opened RollingUpdate
  import opened UpdatePhases
  import Naming
  import ClusterState
  import SelectionOrder
  import SelectionProgress

  // ----- the step -----

  /** The pods of a cloud, the revision they should have, and the configured pods that do not exist now. */
  datatype Fleet = Fleet(pods: seq<PodInfo>, revision: string, gone: set<string>)

  /** How the calls for one pod go. */
  datatype Calls = Calls(patchOk: bool, deleting: DeleteOutcome, io: Io)

  /** What a step meets: the spec, the cluster state if it was fetched, Solr's requests, and the calls. */
  datatype StepInput = StepInput(
    cloud: Naming.Cloud, podLimit: Option<IntOrPercent>, shardLimit: Option<IntOrPercent>, specReplicas: Option<int>,
    fetch: StateFetch, state: FetchedState, requests: Requests, calls: string -> Calls)

  function Names(pods: seq<PodInfo>): (r: seq<string>)
    ensures |r| == |pods|
  {
    seq(|pods|, i requires 0 <= i < |pods| => pods[i].name)
  }

  function Segmented(f: Fleet, s: Segment): seq<PodInfo> {
    PodsIn(f.pods, f.revision, s)
  }

  function Chosen(f: Fleet, e: StepInput): Selected {
    if e.fetch != Fetched then Selected([], false)
    else
      Selection(e.cloud, e.state.view, e.podLimit, e.shardLimit, |f.pods| + |f.gone|, |Segmented(f, NotStarted)|,
                Names(Segmented(f, ScheduledForDeletion)), Names(Segmented(f, OutOfDateRunning)),
                |Segmented(f, UpdatedAvailable)|)
  }

  /** The pods with one of these names, in the order of the names. */
  function ByName(pods: seq<PodInfo>, names: seq<string>): seq<PodInfo> {
    if names == [] then [] else ByName(pods, names[..|names| - 1]) + Named(pods, names[|names| - 1])
  }

  function Named(pods: seq<PodInfo>, name: string): seq<PodInfo> {
    if pods == [] then []
    else
      Named(pods[..|pods| - 1], name) + if pods[|pods| - 1].name == name then [pods[|pods| - 1]] else []
  }

  function CaseOf(pod: PodInfo, e: StepInput): PodCase {
    var c := e.calls(pod.name);
    PodCase(pod.name, pod.gates, pod.conditions, ClusterState.PodHasReplicas(e.cloud, e.state.view, pod.name),
            c.patchOk, c.deleting, c.io)
  }

  function CasesOf(pods: seq<PodInfo>, e: StepInput): (r: seq<PodCase>)
    ensures |r| == |pods|
  {
    seq(|pods|, i requires 0 <= i < |pods| => CaseOf(pods[i], e))
  }

  function WorkOf(f: Fleet, e: StepInput): UpdateWork {
    var chosen := Chosen(f, e);
    UpdateWork(e.fetch, chosen.retryLater, CasesOf(Segmented(f, NotStarted), e),
               CasesOf(Segmented(f, ScheduledForDeletion), e), CasesOf(ByName(f.pods, chosen.pods), e))
  }

  function Worked(f: Fleet, e: StepInput): seq<PodCase> {
    WorkedCases(WorkOf(f, e))
  }

  function Attempts(f: Fleet, e: StepInput): (ds: seq<Deletion>)
    ensures |ds| == |Worked(f, e)|
  {
    DeletionsOf(e.requests, e.specReplicas, Worked(f, e))
  }

  /** The attempt on a pod, or the number of attempts if there is none. */
  function AttemptOn(cases: seq<PodCase>, name: string): (i: nat)
    ensures i <= |cases|
    ensures i < |cases| ==> cases[i].name == name
    ensures forall j :: 0 <= j < i ==> cases[j].name != name
  {
    if cases == [] then 0 else if cases[0].name == name then 0 else 1 + AttemptOn(cases[1..], name)
  }

  predicate IsDeleted(pod: PodInfo, f: Fleet, e: StepInput) {
    var i := AttemptOn(Worked(f, e), pod.name);
    i < |Worked(f, e)| && Attempts(f, e)[i].asked && Worked(f, e)[i].deleting.Deleted?
  }

  function Revised(pod: PodInfo, f: Fleet, e: StepInput): PodInfo {
    var i := AttemptOn(Worked(f, e), pod.name);
    if i < |Worked(f, e)| then pod.(conditions := Attempts(f, e)[i].conditions) else pod
  }

  /** The pods that are left of a list, with the conditions that the step gave them. */
  function LeftOf(pods: seq<PodInfo>, f: Fleet, e: StepInput): seq<PodInfo> {
    if pods == [] then []
    else
      var last := pods[|pods| - 1];
      LeftOf(pods[..|pods| - 1], f, e) + if IsDeleted(last, f, e) then [] else [Revised(last, f, e)]
  }

  ghost function DeletedOf(f: Fleet, e: StepInput): set<string> {
    set i | 0 <= i < |f.pods| && IsDeleted(f.pods[i], f, e) :: f.pods[i].name
  }

  ghost function After(f: Fleet, e: StepInput): Fleet {
    Fleet(LeftOf(f.pods, f, e), f.revision, f.gone + DeletedOf(f, e))
  }

  /** Pods have different names, and the operator's conditions on them are settled. */
  ghost predicate WellFormed(f: Fleet) {
    && DistinctNames(f.pods, f.gone)
    && forall i :: 0 <= i < |f.pods| ==> Settled(f.pods[i].conditions, f.pods[i].gates)
  }

  ghost function FleetPhases(f: Fleet): Phases {
    PhasesOf(f.pods, f.revision, f.gone)
  }

  // ----- what the step works on -----

  lemma {:induction false} PodsInAre(pods: seq<PodInfo>, revision: string, s: Segment)
    ensures forall p :: p in PodsIn(pods, revision, s) <==> p in pods && SegmentOf(p, revision) == s
  {
    hide SegmentOf;
    if pods != [] {
      var rest, last := pods[..|pods| - 1], pods[|pods| - 1];
      PodsInAre(rest, revision, s);
      assert forall p :: p in pods <==> p in rest || p == last by { InitAndLast(pods); }
    }
  }

  lemma InitAndLast<T>(s: seq<T>)
    requires s != []
    ensures forall x :: x in s <==> x in s[..|s| - 1] || x == s[|s| - 1]
  {
    assert s == s[..|s| - 1] + [s[|s| - 1]];
  }

  lemma {:induction false} NamedAre(pods: seq<PodInfo>, name: string)
    ensures forall p :: p in Named(pods, name) <==> p in pods && p.name == name
  {
    if pods != [] {
      NamedAre(pods[..|pods| - 1], name);
      InitAndLast(pods);
    }
  }

  lemma {:induction false} ByNameAre(pods: seq<PodInfo>, names: seq<string>)
    ensures forall p :: p in ByName(pods, names) <==> p in pods && p.name in names
  {
    if names != [] {
      var last := names[|names| - 1];
      ByNameAre(pods, names[..|names| - 1]);
      NamedAre(pods, last);
      InitAndLast(names);
    }
  }

  lemma NamesAre(pods: seq<PodInfo>, name: string)
    ensures name in Names(pods) <==> exists i :: 0 <= i < |pods| && pods[i].name == name
  {
    if name in Names(pods) {
      var i :| 0 <= i < |Names(pods)| && Names(pods)[i] == name;
      assert pods[i].name == name;
    }
    if i :| 0 <= i < |pods| && pods[i].name == name {
      assert Names(pods)[i] == name;
    }
  }

  /** The selection comes from the running pods and is within the maximum. */
  lemma SelectionBounded(
    cloud: Naming.Cloud, view: ClusterState.ReplicaView, podLimit: Option<IntOrPercent>,
    shardLimit: Option<IntOrPercent>,
    total: int, notStarted: nat, scheduled: seq<string>, running: seq<string>, availableUpdated: int)
    ensures var s := Selection(cloud, view, podLimit, shardLimit, total, notStarted, scheduled, running,
                               availableUpdated);
            && (forall p :: p in s.pods ==> p in running)
            && (|| s.pods == []
                || |s.pods| <= MaxPodsToUpdate(podLimit, total, |running|, notStarted + |scheduled|, availableUpdated))
            && (s.retryLater ==> s.pods == [])
  {
    hide PickFrom, Sort, AllStopped, MaxPodsUnavailable;
    var max := MaxPodsToUpdate(podLimit, total, |running|, notStarted + |scheduled|, availableUpdated);
    var site, order := SiteOf(cloud, view, shardLimit, |running|), SortBySafety(cloud, view.nodes, running);
    SelectionProgress.PickFromExtends(site, max, order, Picked([], AllStopped(site, scheduled, view.notActive)));
    SelectionOrder.SortPermutes(SaferIn(cloud, view.nodes), running);
    forall p | p in order ensures p in running {
      assert p in multiset(order);
    }
  }

  /** The names of the running pods that the step selects. */
  ghost function ChosenNames(f: Fleet, e: StepInput): set<string> {
    set p | p in Chosen(f, e).pods
  }

  lemma SetNoLarger<T>(s: seq<T>)
    ensures |set x | x in s| <= |s|
  {
    if s != [] {
      var rest, last := s[..|s| - 1], s[|s| - 1];
      SetNoLarger(rest);
      InitAndLast(s);
      assert (set x | x in s) == (set x | x in rest) + {last};
    }
  }

  lemma ChosenAreRunning(f: Fleet, e: StepInput, p: string)
    requires p in Chosen(f, e).pods
    ensures exists i :: 0 <= i < |f.pods| && f.pods[i].name == p && SegmentOf(f.pods[i], f.revision) == OutOfDateRunning
  {
    hide SegmentOf, Selection;
    var running := Segmented(f, OutOfDateRunning);
    SelectionBounded(e.cloud, e.state.view, e.podLimit, e.shardLimit, |f.pods| + |f.gone|, |Segmented(f, NotStarted)|,
                     Names(Segmented(f, ScheduledForDeletion)), Names(running), |Segmented(f, UpdatedAvailable)|);
    NamesAre(running, p);
    var k :| 0 <= k < |running| && running[k].name == p;
    PodsInAre(f.pods, f.revision, OutOfDateRunning);
    assert running[k] in f.pods;
  }

  /** The pods in the order in which a step comes to them. */
  function InOrder(f: Fleet, e: StepInput): seq<PodInfo> {
    Segmented(f, NotStarted) + Segmented(f, ScheduledForDeletion) + ByName(f.pods, Chosen(f, e).pods)
  }

  lemma WorkedAt(f: Fleet, e: StepInput, i: nat)
    requires i < |Worked(f, e)|
    ensures i < |InOrder(f, e)|
    ensures var c := CaseOf(InOrder(f, e)[i], e);
            Worked(f, e)[i] == c.(hasReplicas := e.fetch == Fetched && c.hasReplicas)
  {
    hide CaseOf, Chosen, PodsIn, ByName;
  }

  predicate MayBeWorkedOn(pod: PodInfo, f: Fleet, e: StepInput) {
    || SegmentOf(pod, f.revision) in {NotStarted, ScheduledForDeletion}
    || (SegmentOf(pod, f.revision) == OutOfDateRunning && pod.name in Chosen(f, e).pods)
  }

  lemma ByNameRunning(f: Fleet, e: StepInput, m: nat)
    requires DistinctNames(f.pods, f.gone) && m < |ByName(f.pods, Chosen(f, e).pods)|
    ensures var pod := ByName(f.pods, Chosen(f, e).pods)[m]; pod in f.pods && MayBeWorkedOn(pod, f, e)
  {
    hide SegmentOf, Chosen;
    var pod := ByName(f.pods, Chosen(f, e).pods)[m];
    ByNameAre(f.pods, Chosen(f, e).pods);
    assert pod in ByName(f.pods, Chosen(f, e).pods);
    hide ByName;
    ChosenAreRunning(f, e, pod.name);
  }

  lemma InOrderFrom(f: Fleet, e: StepInput, i: nat)
    requires DistinctNames(f.pods, f.gone) && i < |InOrder(f, e)|
    ensures InOrder(f, e)[i] in f.pods && MayBeWorkedOn(InOrder(f, e)[i], f, e)
  {
    var notStarted, scheduled := Segmented(f, NotStarted), Segmented(f, ScheduledForDeletion);
    hide SegmentOf, Chosen;
    PodsInAre(f.pods, f.revision, NotStarted);
    PodsInAre(f.pods, f.revision, ScheduledForDeletion);
    hide PodsIn, ByName;
    var pod := InOrder(f, e)[i];
    if i < |notStarted| {
      assert pod == notStarted[i];
    } else if i < |notStarted| + |scheduled| {
      assert pod == scheduled[i - |notStarted|];
    } else {
      ByNameRunning(f, e, i - |notStarted| - |scheduled|);
    }
  }

  /** Each attempt is on a pod that never started, is stopped already, or was selected. */
  lemma WorkedFrom(f: Fleet, e: StepInput, i: nat) returns (k: nat)
    requires DistinctNames(f.pods, f.gone) && i < |Worked(f, e)|
    ensures k < |f.pods|
    ensures var c := CaseOf(f.pods[k], e); Worked(f, e)[i] == c.(hasReplicas := e.fetch == Fetched && c.hasReplicas)
    ensures MayBeWorkedOn(f.pods[k], f, e)
  {
    WorkedAt(f, e, i);
    InOrderFrom(f, e, i);
    hide Worked, InOrder, MayBeWorkedOn, CaseOf, DistinctNames;
    k :| 0 <= k < |f.pods| && f.pods[k] == InOrder(f, e)[i];
  }

  // ----- what an attempt does to the segment of a pod -----

  lemma SameTypesSameLast(a: seq<Condition>, b: seq<Condition>, t: ConditionType)
    requires |a| == |b| && forall i :: 0 <= i < |a| ==> a[i].ctype == b[i].ctype
    ensures LastAt(a, t) == LastAt(b, t)
  {
    hide LastAt;
    var i, j := LastAt(a, t), LastAt(b, t);
    assert i < 0 || b[i].ctype == t;
    assert j < 0 || a[j].ctype == t;
  }

  /** Stopping a pod leaves its readiness alone, and leaves it where it is or schedules it. */
  lemma StoppedSegment(pod: PodInfo, revision: string)
    ensures var stopped := pod.(conditions := AllChanged(pod.conditions, pod.gates, STOP_FOR_UPDATE));
            || SegmentOf(stopped, revision) == SegmentOf(pod, revision)
            || (!IsUpToDate(pod, revision) && SegmentOf(stopped, revision) == ScheduledForDeletion)
  {
    hide LastAt, LastOf, FirstOf;
    var before, after := pod.conditions, AllChanged(pod.conditions, pod.gates, STOP_FOR_UPDATE);
    SameTypesSameLast(after, before, READY);
    SameTypesSameLast(after, before, IsNotStopped);
    var i, j := LastAt(before, READY), LastAt(before, IsNotStopped);
    assert i >= 0 ==> after[i] == before[i];
    assert j >= 0 ==> after[j] == before[j] || after[j] == Condition(IsNotStopped, False, PodUpdate);
  }

  /** What a step does to one pod: nothing, unless it comes to the pod, and then it stops or deletes it. */
  lemma PodAfter(f: Fleet, e: StepInput, k: nat)
    requires DistinctNames(f.pods, f.gone) && k < |f.pods|
    ensures var pod := f.pods[k];
            var revised := Revised(pod, f, e);
            && revised.conditions in {pod.conditions, AllChanged(pod.conditions, pod.gates, STOP_FOR_UPDATE)}
            && revised == pod.(conditions := revised.conditions)
            && (IsDeleted(pod, f, e) || revised != pod ==> MayBeWorkedOn(pod, f, e))
  {
    hide SegmentOf, Chosen, AllChanged, Worked, DeletionOf, DeletionsOf;
    var pod := f.pods[k];
    var i := AttemptOn(Worked(f, e), pod.name);
    if i < |Worked(f, e)| {
      var j := WorkedFrom(f, e, i);
      assert j == k;
      EachDeletion(e.requests, e.specReplicas, Worked(f, e), i);
      DeletionStops(RequestsAfter(e.requests, Attempts(f, e)[..i]), e.specReplicas, Worked(f, e)[i]);
    }
  }

  // ----- the pods after a step -----

  lemma RevisedName(pod: PodInfo, f: Fleet, e: StepInput)
    ensures Revised(pod, f, e).name == pod.name
  {
    hide Worked, Attempts;
  }

  ghost predicate DistinctPodNames(pods: seq<PodInfo>) {
    forall i, j :: 0 <= i < j < |pods| ==> pods[i].name != pods[j].name
  }

  /** Every pod that is left comes from one that was not deleted. */
  lemma {:induction false} LeftFrom(pods: seq<PodInfo>, f: Fleet, e: StepInput, m: nat) returns (k: nat)
    requires m < |LeftOf(pods, f, e)|
    ensures m <= k < |pods| && !IsDeleted(pods[k], f, e) && LeftOf(pods, f, e)[m] == Revised(pods[k], f, e)
    decreases |pods|
  {
    hide IsDeleted, Revised;
    var rest := pods[..|pods| - 1];
    LeftShorter(rest, f, e);
    if m < |LeftOf(rest, f, e)| {
      k := LeftFrom(rest, f, e, m);
    } else {
      k := |rest|;
    }
  }

  lemma {:induction false} LeftShorter(pods: seq<PodInfo>, f: Fleet, e: StepInput)
    ensures |LeftOf(pods, f, e)| <= |pods|
  {
    hide IsDeleted, Revised;
    if pods != [] {
      LeftShorter(pods[..|pods| - 1], f, e);
    }
  }

  /** Every pod that was not deleted is left. */
  lemma {:induction false} LeftHas(pods: seq<PodInfo>, f: Fleet, e: StepInput, k: nat) returns (m: nat)
    requires k < |pods| && !IsDeleted(pods[k], f, e)
    ensures m < |LeftOf(pods, f, e)| && LeftOf(pods, f, e)[m] == Revised(pods[k], f, e)
    decreases |pods|
  {
    hide IsDeleted, Revised;
    var rest := pods[..|pods| - 1];
    if k < |rest| {
      m := LeftHas(rest, f, e, k);
    } else {
      m := |LeftOf(rest, f, e)|;
    }
  }

  lemma {:induction false} LeftDistinct(pods: seq<PodInfo>, f: Fleet, e: StepInput)
    requires DistinctPodNames(pods)
    ensures DistinctPodNames(LeftOf(pods, f, e))
  {
    hide IsDeleted, Revised;
    if pods != [] {
      var rest, last := pods[..|pods| - 1], pods[|pods| - 1];
      LeftDistinct(rest, f, e);
      var left := LeftOf(rest, f, e);
      forall m | 0 <= m < |left| ensures left[m].name != Revised(last, f, e).name {
        var k := LeftFrom(rest, f, e, m);
        RevisedName(rest[k], f, e);
        RevisedName(last, f, e);
      }
    }
  }

  lemma AfterDistinct(f: Fleet, e: StepInput)
    requires DistinctNames(f.pods, f.gone)
    ensures DistinctNames(After(f, e).pods, After(f, e).gone)
  {
    hide IsDeleted, Revised, LeftOf;
    LeftDistinct(f.pods, f, e);
    var left := LeftOf(f.pods, f, e);
    forall m | 0 <= m < |left| ensures left[m].name !in f.gone + DeletedOf(f, e) {
      var k := LeftFrom(f.pods, f, e, m);
      RevisedName(f.pods[k], f, e);
    }
  }

  /** A step keeps names apart and conditions settled. */
  lemma AfterWellFormed(f: Fleet, e: StepInput)
    requires WellFormed(f)
    ensures WellFormed(After(f, e))
  {
    hide IsDeleted, Revised, LeftOf, Settled, SegmentOf, AllChanged;
    AfterDistinct(f, e);
    var left := LeftOf(f.pods, f, e);
    forall m | 0 <= m < |left| ensures Settled(left[m].conditions, left[m].gates) {
      var k := LeftFrom(f.pods, f, e, m);
      PodAfter(f, e, k);
      ChangeSettles(f.pods[k].conditions, f.pods[k].gates, STOP_FOR_UPDATE);
    }
  }

  /** The phase of a pod after the step. */
  lemma PhaseAfter(f: Fleet, e: StepInput, k: nat)
    requires DistinctNames(f.pods, f.gone) && k < |f.pods|
    ensures var pod, after := f.pods[k], FleetPhases(After(f, e));
            && pod.name in after
            && after[pod.name] ==
               if IsDeleted(pod, f, e) then Gone else InSegment(SegmentOf(Revised(pod, f, e), f.revision))
  {
    hide IsDeleted, Revised, LeftOf, SegmentOf, PhasesOf, DistinctNames;
    AfterDistinct(f, e);
    var next := After(f, e);
    PhasesNames(next.pods, next.revision, next.gone);
    if !IsDeleted(f.pods[k], f, e) {
      var m := LeftHas(f.pods, f, e, k);
      RevisedName(f.pods[k], f, e);
    }
  }

  lemma SameKeys(f: Fleet, e: StepInput)
    requires DistinctNames(f.pods, f.gone)
    ensures FleetPhases(After(f, e)).Keys == FleetPhases(f).Keys
  {
    hide IsDeleted, Revised, LeftOf, SegmentOf, PhasesOf, DistinctNames;
    var next := After(f, e);
    AfterDistinct(f, e);
    PhasesNames(f.pods, f.revision, f.gone);
    PhasesNames(next.pods, next.revision, next.gone);
    forall p | p in FleetPhases(f) ensures p in FleetPhases(next) {
      if p !in f.gone {
        var k :| 0 <= k < |f.pods| && f.pods[k].name == p;
        PhaseAfter(f, e, k);
      }
    }
    forall p | p in FleetPhases(next) ensures p in FleetPhases(f) {
      if p !in next.gone {
        var m :| 0 <= m < |next.pods| && next.pods[m].name == p;
        var k := LeftFrom(f.pods, f, e, m);
        RevisedName(f.pods[k], f, e);
      }
    }
  }

  lemma ChosenWithinRoom(f: Fleet, e: StepInput)
    requires DistinctNames(f.pods, f.gone)
    ensures ChosenNames(f, e) == {} || |ChosenNames(f, e)| <= Room(e.podLimit, FleetPhases(f))
    ensures ChosenNames(f, e) <= InPhase(FleetPhases(f), OutOfDateRunning)
  {
    hide Selection, Room, PhasesOf, SegmentOf;
    SetNoLarger(Chosen(f, e).pods);
    SelectionBounded(e.cloud, e.state.view, e.podLimit, e.shardLimit, |f.pods| + |f.gone|, |Segmented(f, NotStarted)|,
                     Names(Segmented(f, ScheduledForDeletion)), Names(Segmented(f, OutOfDateRunning)),
                     |Segmented(f, UpdatedAvailable)|);
    RoomFromSegments(e.podLimit, f.pods, f.revision, f.gone);
    PhasesNames(f.pods, f.revision, f.gone);
    forall p | p in ChosenNames(f, e) ensures p in InPhase(FleetPhases(f), OutOfDateRunning) {
      ChosenAreRunning(f, e, p);
    }
  }

  /** A step on the pods is a step on their phases, with the selection it makes. */
  lemma StepRefines(f: Fleet, e: StepInput)
    requires DistinctNames(f.pods, f.gone)
    ensures OperatorStep(e.podLimit, FleetPhases(f), ChosenNames(f, e), FleetPhases(After(f, e)))
  {
    hide IsDeleted, Revised, LeftOf, SegmentOf, PhasesOf, Room, AllChanged, After, Chosen;
    SameKeys(f, e);
    ChosenWithinRoom(f, e);
    PhasesNames(f.pods, f.revision, f.gone);
    var before, after := FleetPhases(f), FleetPhases(After(f, e));
    forall p | p in before
      ensures || after[p] == before[p]
              || ((p in ChosenNames(f, e) || before[p] in {InSegment(ScheduledForDeletion), InSegment(NotStarted)})
                  && after[p] in {InSegment(ScheduledForDeletion), Gone})
    {
      if p in f.gone {
        GoneStays(f, e, p);
      } else {
        var k :| 0 <= k < |f.pods| && f.pods[k].name == p;
        PhaseAfter(f, e, k);
        PodAfter(f, e, k);
        StoppedSegment(f.pods[k], f.revision);
      }
    }
  }

  lemma GoneStays(f: Fleet, e: StepInput, p: string)
    requires DistinctNames(f.pods, f.gone) && p in f.gone
    ensures p in FleetPhases(After(f, e)) && FleetPhases(After(f, e))[p] == Gone
  {
    hide IsDeleted, Revised, LeftOf, SegmentOf, PhasesOf, DistinctNames;
    AfterDistinct(f, e);
    var next := After(f, e);
    PhasesNames(next.pods, next.revision, next.gone);
  }

  // ----- the step and the pods as objects -----

  lemma {:induction false} PickDistinct(site: Site, max: int, order: seq<string>, acc: Picked)
    requires Distinct(order) && Distinct(acc.pods) && forall p :: p in acc.pods ==> p !in order
    ensures Distinct(PickFrom(site, max, order, acc).pods)
    decreases |order|
  {
    hide SafeToStop, Stopped;
    if order != [] {
      var rest := order[1..];
      assert forall p :: p in rest ==> p in order && p != order[0];
      assert Distinct(acc.pods + [order[0]]) by {
        assert order[0] in order;
        assert forall i :: 0 <= i < |acc.pods| ==> acc.pods[i] in acc.pods;
      }
      if SafeToStop(site, order[0], acc.counts) {
        var next := Picked(acc.pods + [order[0]], Stopped(site, order[0], acc.counts));
        if !ReachedMaximum(max, next.pods) {
          PickDistinct(site, max, rest, next);
        }
      } else {
        PickDistinct(site, max, rest, acc);
      }
    }
  }

  lemma {:induction false} SegmentDistinct(pods: seq<PodInfo>, revision: string, s: Segment)
    requires DistinctPodNames(pods)
    ensures DistinctPodNames(PodsIn(pods, revision, s))
  {
    hide SegmentOf;
    if pods != [] {
      var rest, last := pods[..|pods| - 1], pods[|pods| - 1];
      SegmentDistinct(rest, revision, s);
      PodsInAre(rest, revision, s);
      forall i | 0 <= i < |PodsIn(rest, revision, s)| ensures PodsIn(rest, revision, s)[i].name != last.name {
        assert PodsIn(rest, revision, s)[i] in rest;
      }
    }
  }

  lemma ChosenDistinct(f: Fleet, e: StepInput)
    requires DistinctNames(f.pods, f.gone)
    ensures Distinct(Chosen(f, e).pods)
  {
    hide SegmentOf, PickFrom, Sort, AllStopped, MaxPodsUnavailable;
    var running := Names(Segmented(f, OutOfDateRunning));
    var site := SiteOf(e.cloud, e.state.view, e.shardLimit, |running|);
    var order := SortBySafety(e.cloud, e.state.view.nodes, running);
    SegmentDistinct(f.pods, f.revision, OutOfDateRunning);
    SelectionOrder.SortPermutes(SaferIn(e.cloud, e.state.view.nodes), running);
    SelectionOrder.PermutationDistinct(running, order);
    var scheduled := Names(Segmented(f, ScheduledForDeletion));
    var max := MaxPodsToUpdate(e.podLimit, |f.pods| + |f.gone|, |running|, |Segmented(f, NotStarted)| + |scheduled|,
                               |Segmented(f, UpdatedAvailable)|);
    PickDistinct(site, max, order, Picked([], AllStopped(site, scheduled, e.state.view.notActive)));
  }

  lemma {:induction false} NamedOnce(pods: seq<PodInfo>, name: string)
    requires DistinctPodNames(pods)
    ensures |Named(pods, name)| <= 1
  {
    if pods != [] {
      var rest, last := pods[..|pods| - 1], pods[|pods| - 1];
      NamedOnce(rest, name);
      NamedAre(rest, name);
      if Named(rest, name) != [] {
        var p := Named(rest, name)[0];
        assert p in Named(rest, name);
        var k :| 0 <= k < |rest| && rest[k] == p;
        assert pods[k].name == name;
      }
    }
  }

  lemma {:induction false} ByNameDistinct(pods: seq<PodInfo>, names: seq<string>)
    requires DistinctPodNames(pods) && Distinct(names)
    ensures DistinctPodNames(ByName(pods, names))
  {
    if names != [] {
      var rest, last := names[..|names| - 1], names[|names| - 1];
      ByNameDistinct(pods, rest);
      ByNameAre(pods, rest);
      NamedAre(pods, last);
      NamedOnce(pods, last);
      var before, one := ByName(pods, rest), Named(pods, last);
      forall i | 0 <= i < |before| ensures before[i].name != last {
        assert before[i] in before;
      }
      forall i | 0 <= i < |one| ensures one[i].name == last {
        assert one[i] in one;
      }
    }
  }

  /** A step comes to each pod at most once. */
  lemma InOrderDistinct(f: Fleet, e: StepInput)
    requires DistinctNames(f.pods, f.gone)
    ensures DistinctPodNames(InOrder(f, e))
  {
    var a, b, c := Segmented(f, NotStarted), Segmented(f, ScheduledForDeletion), ByName(f.pods, Chosen(f, e).pods);
    SegmentDistinct(f.pods, f.revision, NotStarted);
    SegmentDistinct(f.pods, f.revision, ScheduledForDeletion);
    ChosenDistinct(f, e);
    ByNameDistinct(f.pods, Chosen(f, e).pods);
    PodsInAre(f.pods, f.revision, NotStarted);
    PodsInAre(f.pods, f.revision, ScheduledForDeletion);
    ByNameAre(f.pods, Chosen(f, e).pods);
    hide SegmentOf, Chosen, PodsIn, ByName;
    forall p, q | p in a && q in b ensures p.name != q.name {
      SameNameSamePod(f, p, q);
    }
    forall p, q | (p in a || p in b) && q in c ensures p.name != q.name {
      ChosenAreRunning(f, e, q.name);
      var k :| 0 <= k < |f.pods| && f.pods[k].name == q.name && SegmentOf(f.pods[k], f.revision) == OutOfDateRunning;
      SameNameSamePod(f, p, f.pods[k]);
    }
    ThreeDistinct(a, b, c);
  }

  lemma SameNameSamePod(f: Fleet, p: PodInfo, q: PodInfo)
    requires DistinctNames(f.pods, f.gone) && p in f.pods && q in f.pods
    ensures p.name == q.name ==> p == q
  {
  }

  lemma ThreeDistinct(a: seq<PodInfo>, b: seq<PodInfo>, c: seq<PodInfo>)
    requires DistinctPodNames(a) && DistinctPodNames(b) && DistinctPodNames(c)
    requires forall p, q :: p in a && q in b ==> p.name != q.name
    requires forall p, q :: (p in a || p in b) && q in c ==> p.name != q.name
    ensures DistinctPodNames(a + b + c)
  {
  }

  /** The attempts of a step are on different pods. */
  lemma WorkedDistinct(f: Fleet, e: StepInput)
    requires DistinctNames(f.pods, f.gone)
    ensures forall i, j :: 0 <= i < j < |Worked(f, e)| ==> Worked(f, e)[i].name != Worked(f, e)[j].name
  {
    InOrderDistinct(f, e);
    hide Worked, InOrder, ClusterState.PodHasReplicas;
    forall i, j | 0 <= i < j < |Worked(f, e)| ensures Worked(f, e)[i].name != Worked(f, e)[j].name {
      WorkedAt(f, e, i);
      WorkedAt(f, e, j);
    }
  }

  /** What the attempts leave of the pod objects is what the step makes of the pods. */
  lemma StepIsUpdatePods(f: Fleet, e: StepInput, objects: seq<SolrPod>, i: nat) returns (k: nat)
    requires DistinctNames(f.pods, f.gone) && i < |objects| == |Worked(f, e)|
    requires LeftBy(Attempts(f, e), Worked(f, e), objects) && objects[i].name == Worked(f, e)[i].name
    ensures k < |f.pods| && f.pods[k].name == objects[i].name
    ensures objects[i].exists' == !IsDeleted(f.pods[k], f, e)
    ensures objects[i].conditions == Revised(f.pods[k], f, e).conditions
  {
    WorkedDistinct(f, e);
    hide Worked, Attempts, SegmentOf, Chosen, ClusterState.PodHasReplicas;
    k := WorkedFrom(f, e, i);
    assert AttemptOn(Worked(f, e), f.pods[k].name) == i;
  }
}
