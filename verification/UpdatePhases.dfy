/**
  A rolling update seen as phases of the pods: what a step of the operator and what the outside may do,
  and what each keeps of the number of available and of out-of-date pods.
 */
module UpdatePhases {
  import opened Prelude
  import opened PodSelection
  import opened RollingUpdate

  // ----- phases -----

  /** Where a pod is in the update, with `Gone` between its deletion and its re-creation. */
  datatype Phase = InSegment(segment: Segment) | Gone

  type Phases = map<string, Phase>

  ghost function InPhase(pods: Phases, s: Segment): set<string> {
    set p | p in pods && pods[p] == InSegment(s)
  }

  /** The pods that count as available: updated and ready, or out of date and running, ready or not. */
  ghost function Serving(pods: Phases): set<string> {
    InPhase(pods, UpdatedAvailable) + InPhase(pods, OutOfDateRunning)
  }

  ghost function OutOfDate(pods: Phases): set<string> {
    InPhase(pods, OutOfDateRunning) + InPhase(pods, ScheduledForDeletion) + InPhase(pods, NotStarted)
  }

  /** What the limit leaves for the selection in this state. */
  ghost function Room(limit: Option<IntOrPercent>, pods: Phases): int {
    MaxPodsToUpdate(limit, |pods|, |InPhase(pods, OutOfDateRunning)|,
                    |InPhase(pods, NotStarted)| + |InPhase(pods, ScheduledForDeletion)|,
                    |InPhase(pods, UpdatedAvailable)|)
  }

  /** The operator stops or deletes the selected running pods, and pods that are scheduled or not started. */
  ghost predicate OperatorStep(limit: Option<IntOrPercent>, pods: Phases, selected: set<string>, pods': Phases) {
    && pods'.Keys == pods.Keys
    && selected <= InPhase(pods, OutOfDateRunning)
    && (selected == {} || |selected| <= Room(limit, pods))
    && forall p :: p in pods ==>
         || pods'[p] == pods[p]
         || ((p in selected || pods[p] in {InSegment(ScheduledForDeletion), InSegment(NotStarted)})
             && pods'[p] in {InSegment(ScheduledForDeletion), Gone})
  }

  /**
    What happens otherwise, as long as pods do not fail: deleted pods come back up to date, pods
    start and become ready, stopped pods are restarted, and a new revision makes pods out of date.
   */
  predicate MayBecome(a: Phase, b: Phase) {
    || a == b
    || (a == Gone && b == InSegment(UpdatedUnavailable))
    || (a == InSegment(UpdatedUnavailable)
        && b in {InSegment(UpdatedAvailable), InSegment(NotStarted), InSegment(OutOfDateRunning)})
    || (a == InSegment(UpdatedAvailable) && b == InSegment(OutOfDateRunning))
    || (a == InSegment(NotStarted) && b == InSegment(OutOfDateRunning))
    || (a == InSegment(ScheduledForDeletion) && b in {InSegment(OutOfDateRunning), InSegment(NotStarted)})
  }

  ghost predicate OutsideStep(pods: Phases, pods': Phases) {
    pods'.Keys == pods.Keys && forall p :: p in pods ==> MayBecome(pods[p], pods'[p])
  }

  /** The fewest pods that the limit allows to serve. */
  ghost function Floor(limit: Option<IntOrPercent>, pods: Phases): int {
    |pods| - MaxPodsUnavailable(limit, |pods|)
  }

  /** The phases of the existing pods, with the configured pods that do not exist now. */
  function PhasesOf(pods: seq<PodInfo>, revision: string, gone: set<string>): Phases {
    if pods == [] then map p | p in gone :: Gone
    else
      var last := pods[|pods| - 1];
      PhasesOf(pods[..|pods| - 1], revision, gone)[last.name := InSegment(SegmentOf(last, revision))]
  }

  ghost predicate DistinctNames(pods: seq<PodInfo>, gone: set<string>) {
    && (forall i, j :: 0 <= i < j < |pods| ==> pods[i].name != pods[j].name)
    && (forall i :: 0 <= i < |pods| ==> pods[i].name !in gone)
  }

  /** The phase map has one entry for each pod and each missing one. */
  lemma {:induction false} PhasesNames(pods: seq<PodInfo>, revision: string, gone: set<string>)
    requires DistinctNames(pods, gone)
    ensures var phases := PhasesOf(pods, revision, gone);
            && (forall p :: p in phases <==> p in gone || exists i :: 0 <= i < |pods| && pods[i].name == p)
            && (forall p :: p in gone ==> phases[p] == Gone)
            && (forall i :: 0 <= i < |pods| ==> phases[pods[i].name] == InSegment(SegmentOf(pods[i], revision)))
            && |phases| == |pods| + |gone|
  {
    hide SegmentOf;
    var phases := PhasesOf(pods, revision, gone);
    if pods == [] {
      assert phases.Keys == gone;
    } else {
      var rest, last := pods[..|pods| - 1], pods[|pods| - 1];
      var before := PhasesOf(rest, revision, gone);
      PhasesNames(rest, revision, gone);
      assert last.name !in before;
      assert phases.Keys == before.Keys + {last.name};
      assert forall i :: 0 <= i < |rest| ==> pods[i] == rest[i];
    }
  }

  lemma {:induction false} SegmentSizes(pods: seq<PodInfo>, revision: string, gone: set<string>, s: Segment)
    requires DistinctNames(pods, gone)
    ensures |InPhase(PhasesOf(pods, revision, gone), s)| == |PodsIn(pods, revision, s)|
  {
    hide SegmentOf;
    var phases := PhasesOf(pods, revision, gone);
    if pods == [] {
      assert InPhase(phases, s) == {};
    } else {
      var rest, last := pods[..|pods| - 1], pods[|pods| - 1];
      SegmentSizes(rest, revision, gone, s);
      PhasesNames(rest, revision, gone);
      var before := InPhase(PhasesOf(rest, revision, gone), s);
      assert last.name !in PhasesOf(rest, revision, gone);
      if SegmentOf(last, revision) == s {
        assert InPhase(phases, s) == before + {last.name};
      } else {
        assert InPhase(phases, s) == before;
      }
    }
  }

  /** The room that the selection computes from the segments is the room in terms of phases. */
  lemma RoomFromSegments(limit: Option<IntOrPercent>, pods: seq<PodInfo>, revision: string, gone: set<string>)
    requires DistinctNames(pods, gone)
    ensures Room(limit, PhasesOf(pods, revision, gone)) ==
            MaxPodsToUpdate(limit, |pods| + |gone|, |PodsIn(pods, revision, OutOfDateRunning)|,
                            |PodsIn(pods, revision, NotStarted)| + |PodsIn(pods, revision, ScheduledForDeletion)|,
                            |PodsIn(pods, revision, UpdatedAvailable)|)
  {
    hide PodsIn, PhasesOf, InPhase, SegmentOf, MaxPodsUnavailable, DistinctNames;
    PhasesNames(pods, revision, gone);
    SegmentSizes(pods, revision, gone, OutOfDateRunning);
    SegmentSizes(pods, revision, gone, NotStarted);
    SegmentSizes(pods, revision, gone, ScheduledForDeletion);
    SegmentSizes(pods, revision, gone, UpdatedAvailable);
  }

  lemma RoomIsServingAboveFloor(limit: Option<IntOrPercent>, pods: Phases)
    ensures Room(limit, pods) == |Serving(pods)| - Floor(limit, pods)
  {
    var a, b := InPhase(pods, UpdatedAvailable), InPhase(pods, OutOfDateRunning);
    assert a !! b;
    DisjointUnionSize(a + b, a, b);
  }

  lemma OthersKeepServing(limit: Option<IntOrPercent>, pods: Phases, selected: set<string>, pods': Phases)
    requires OperatorStep(limit, pods, selected, pods')
    ensures selected <= Serving(pods)
    ensures Serving(pods) - selected <= Serving(pods')
  {
    hide Room;
  }

  lemma OperatorStepKeepsFloor(limit: Option<IntOrPercent>, pods: Phases, selected: set<string>, pods': Phases)
    requires OperatorStep(limit, pods, selected, pods') && |Serving(pods)| >= Floor(limit, pods)
    ensures |Serving(pods')| >= Floor(limit, pods') && |pods'| == |pods|
  {
    RoomIsServingAboveFloor(limit, pods);
    OthersKeepServing(limit, pods, selected, pods');
    assert |selected| <= |Serving(pods)| - Floor(limit, pods);
    assert |pods'.Keys| == |pods.Keys|;
    hide Serving, Room, OperatorStep, MaxPodsUnavailable;
    var left := Serving(pods) - selected;
    DisjointUnionSize(Serving(pods), left, selected);
    SubsetSize(left, Serving(pods'));
  }

  lemma OutsideStepKeepsServing(pods: Phases, pods': Phases)
    requires OutsideStep(pods, pods')
    ensures |Serving(pods')| >= |Serving(pods)| && |pods'| == |pods|
  {
    assert |pods'.Keys| == |pods.Keys|;
    SubsetSize(Serving(pods), Serving(pods'));
  }

  // ----- progress -----

  /** No pod becomes out of date, as it would with a new revision. */
  ghost predicate KeepsRevision(pods: Phases, pods': Phases) {
    OutOfDate(pods') <= OutOfDate(pods)
  }

  /** The out-of-date pods that this step deletes. */
  ghost function DeletedIn(pods: Phases, pods': Phases): set<string> {
    set p | p in OutOfDate(pods) && p in pods' && pods'[p] == Gone
  }

  lemma OperatorKeepsRevision(limit: Option<IntOrPercent>, pods: Phases, selected: set<string>, pods': Phases)
    requires OperatorStep(limit, pods, selected, pods')
    ensures KeepsRevision(pods, pods')
  {
    hide Room;
  }

  lemma DeletionRetires(pods: Phases, pods': Phases)
    requires KeepsRevision(pods, pods')
    ensures |DeletedIn(pods, pods')| + |OutOfDate(pods')| <= |OutOfDate(pods)|
  {
    var deleted, left := DeletedIn(pods, pods'), OutOfDate(pods');
    assert deleted !! left;
    DisjointUnionSize(deleted + left, deleted, left);
    SubsetSize(deleted + left, OutOfDate(pods));
  }
}
