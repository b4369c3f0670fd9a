/**
  Deleting the pods of one step of a rolling update: attempts one after the other against Solr's store
  of requests, which pods a step works on, and exactly which pods such a step moves forward.
 */
module PodDeletion {
  import opened Prelude
  import opened AsyncRequests
  import opened PodLifecycle
  import Naming
  import ClusterState

  // ----- attempts in order -----

  /** Attempts to delete pods one after the other, each with the requests that the last one left. */
  function DeletionsOf(requests: Requests, specReplicas: Option<int>, cases: seq<PodCase>): (ds: seq<Deletion>)
    ensures |ds| == |cases|
  {
    if cases == [] then []
    else
      var ds := DeletionsOf(requests, specReplicas, cases[..|cases| - 1]);
      ds + [DeletionOf(RequestsAfter(requests, ds), specReplicas, cases[|cases| - 1])]
  }

  function RequestsAfter(requests: Requests, ds: seq<Deletion>): Requests {
    if ds == [] then requests else ds[|ds| - 1].requests
  }

  /** The cases describe the pods. */
  ghost predicate Describe(cases: seq<PodCase>, pods: seq<SolrPod>)
    reads pods
  {
    && |cases| == |pods|
    && forall i :: 0 <= i < |pods| ==>
         && pods[i].exists' && cases[i].name == pods[i].name
         && cases[i].gates == pods[i].gates && cases[i].conditions == pods[i].conditions
  }

  /** The pods are as the deletions left them. */
  ghost predicate LeftBy(ds: seq<Deletion>, cases: seq<PodCase>, pods: seq<SolrPod>)
    requires |ds| == |cases| == |pods|
    reads pods
  {
    forall i :: 0 <= i < |pods| ==>
      && pods[i].conditions == ds[i].conditions
      && pods[i].exists' == !(ds[i].asked && cases[i].deleting.Deleted?)
  }

  predicate SomeFailed(ds: seq<Deletion>) {
    exists i :: 0 <= i < |ds| && ds[i].failed
  }

  predicate SomeInProgress(ds: seq<Deletion>) {
    exists i :: 0 <= i < |ds| && ds[i].inProgress
  }

  lemma OneMoreDeletion(requests: Requests, specReplicas: Option<int>, cases: seq<PodCase>, i: nat, d: Deletion)
    requires i < |cases|
    requires var before := RequestsAfter(requests, DeletionsOf(requests, specReplicas, cases[..i]));
             d == DeletionOf(before, specReplicas, cases[i])
    ensures var ds := DeletionsOf(requests, specReplicas, cases[..i]);
            && DeletionsOf(requests, specReplicas, cases[..i + 1]) == ds + [d]
            && RequestsAfter(requests, ds + [d]) == d.requests
            && SomeFailed(ds + [d]) == (SomeFailed(ds) || d.failed)
            && SomeInProgress(ds + [d]) == (SomeInProgress(ds) || d.inProgress)
  {
    hide DeletionOf;
    assert cases[..i + 1][..i] == cases[..i];
    var ds := DeletionsOf(requests, specReplicas, cases[..i]);
    assert (ds + [d])[i] == d;
    assert forall j :: 0 <= j < i ==> (ds + [d])[j] == ds[j];
  }

  method DeletePods(pods: seq<SolrPod>, cases: seq<PodCase>, specReplicas: Option<int>, solr: SolrRequests)
    returns (inProgress: bool, failed: bool)
    requires Distinct(pods) && Describe(cases, pods)
    modifies pods, solr
    ensures var ds := DeletionsOf(old(solr.requests), specReplicas, cases);
            && LeftBy(ds, cases, pods) && solr.requests == RequestsAfter(old(solr.requests), ds)
            && inProgress == SomeInProgress(ds) && failed == SomeFailed(ds)
  {
    hide DeletionOf, DeletionsOf, RequestsAfter, SomeFailed, SomeInProgress;
    inProgress, failed := false, false;
    ghost var requests, ds: seq<Deletion> := solr.requests, [];
    NoDeletion(requests, specReplicas, cases[..0]);
    for i := 0 to |pods|
      invariant ds == DeletionsOf(requests, specReplicas, cases[..i]) && |ds| == i
      invariant solr.requests == RequestsAfter(requests, ds)
      invariant forall j :: i <= j < |pods| ==> pods[j].exists' && pods[j].conditions == cases[j].conditions
      invariant forall j :: 0 <= j < i ==>
                  && pods[j].conditions == ds[j].conditions
                  && pods[j].exists' == !(ds[j].asked && cases[j].deleting.Deleted?)
      invariant inProgress == SomeInProgress(ds) && failed == SomeFailed(ds)
    {
      var podFailed, podInProgress, asked := pods[i].DeleteForUpdate(specReplicas, cases[i], solr);
      inProgress := inProgress || podInProgress;
      failed := failed || podFailed;
      ghost var d := Deletion(pods[i].conditions, solr.requests, podFailed, podInProgress, asked);
      OneMoreDeletion(requests, specReplicas, cases, i, d);
      ds := ds + [d];
    }
    assert cases[..|pods|] == cases;
  }

  lemma NoDeletion(requests: Requests, specReplicas: Option<int>, cases: seq<PodCase>)
    requires cases == []
    ensures var ds := DeletionsOf(requests, specReplicas, cases);
            ds == [] && RequestsAfter(requests, ds) == requests && !SomeFailed(ds) && !SomeInProgress(ds)
  {
  }

  // ----- one step of an update -----

  /** Whether the cluster state was fetched. It is not asked for without a ready pod. */
  datatype StateFetch = NoReadyPod | FetchFailed | Fetched

  /** The out-of-date pods that a step finds, by what state they are in, and those it selected. */
  datatype UpdateWork = UpdateWork(
    fetch: StateFetch, retryLater: bool, notStarted: seq<PodCase>, scheduled: seq<PodCase>, selected: seq<PodCase>)

  /** Without the cluster state, every pod counts as empty. */
  function Blind(cases: seq<PodCase>): (r: seq<PodCase>)
    ensures |r| == |cases|
  {
    seq(|cases|, i requires 0 <= i < |cases| => cases[i].(hasReplicas := false))
  }

  /**
    What a step works on. Pods that never started are deleted unless fetching the cluster state failed.
    Stopped pods need the state, and so do the selected running ones, of which none is touched if the
    selection asks to retry.
   */
  function WorkedCases(w: UpdateWork): seq<PodCase> {
    match w.fetch
    case FetchFailed => []
    case NoReadyPod => Blind(w.notStarted)
    case Fetched => w.notStarted + w.scheduled + if w.retryLater then [] else w.selected
  }

  datatype UpdateAnswer = UpdateAnswer(requests: Requests, inProgress: bool, failed: bool)

  /** What a step tells the reconcile, with the requests it leaves in Solr. */
  function Answered(requests: Requests, specReplicas: Option<int>, w: UpdateWork): UpdateAnswer {
    if w.fetch == FetchFailed then UpdateAnswer(requests, true, true)
    else
      var ds := DeletionsOf(requests, specReplicas, WorkedCases(w));
      UpdateAnswer(RequestsAfter(requests, ds), SomeInProgress(ds), SomeFailed(ds))
  }

  /** The pods that a step works on, once the cluster state was asked for. */
  method PodsToUpdate(
    notStarted: seq<SolrPod>, scheduled: seq<SolrPod>, selected: seq<SolrPod>, w: UpdateWork)
    returns (toUpdate: seq<SolrPod>, cases: seq<PodCase>)
    requires w.fetch != FetchFailed
    requires |w.notStarted| == |notStarted| && |w.scheduled| == |scheduled| && |w.selected| == |selected|
    ensures cases == WorkedCases(w) && |cases| == |toUpdate|
    ensures toUpdate <= notStarted + scheduled + selected
  {
    toUpdate, cases := notStarted, w.notStarted;
    if w.fetch == Fetched {
      toUpdate, cases := toUpdate + scheduled, cases + w.scheduled;
      if !w.retryLater {
        toUpdate, cases := toUpdate + selected, cases + w.selected;
      }
    } else {
      cases := Blind(cases);
    }
  }

  /** The pods of the segments are as the work describes them. */
  ghost predicate DescribeAll(
    w: UpdateWork, notStarted: seq<SolrPod>, scheduled: seq<SolrPod>, selected: seq<SolrPod>)
    reads notStarted, scheduled, selected
  {
    && Distinct(notStarted + scheduled + selected)
    && Describe(w.notStarted, notStarted) && Describe(w.scheduled, scheduled) && Describe(w.selected, selected)
  }

  lemma WorkDescribes(
    w: UpdateWork, notStarted: seq<SolrPod>, scheduled: seq<SolrPod>, selected: seq<SolrPod>, toUpdate: seq<SolrPod>)
    requires DescribeAll(w, notStarted, scheduled, selected) && w.fetch != FetchFailed
    requires toUpdate <= notStarted + scheduled + selected && |toUpdate| == |WorkedCases(w)|
    ensures Describe(WorkedCases(w), toUpdate)
  {
    var all := notStarted + scheduled + selected;
    var cases := w.notStarted + w.scheduled + w.selected;
    assert forall i :: 0 <= i < |all| ==>
        && all[i].exists' && cases[i].name == all[i].name
        && cases[i].gates == all[i].gates && cases[i].conditions == all[i].conditions;
  }

  /** One step of the update on the pods themselves. Those it does not work on are left alone. */
  method UpdatePods(
    notStarted: seq<SolrPod>, scheduled: seq<SolrPod>, selected: seq<SolrPod>, w: UpdateWork,
    specReplicas: Option<int>, solr: SolrRequests)
    returns (inProgress: bool, failed: bool)
    requires DescribeAll(w, notStarted, scheduled, selected)
    modifies notStarted, scheduled, selected, solr
    ensures UpdateAnswer(solr.requests, inProgress, failed) == Answered(old(solr.requests), specReplicas, w)
    ensures var all, n := notStarted + scheduled + selected, |WorkedCases(w)|;
            && n <= |all| && (forall i :: n <= i < |all| ==> unchanged(all[i]))
            && LeftBy(DeletionsOf(old(solr.requests), specReplicas, WorkedCases(w)), WorkedCases(w), all[..n])
  {
    hide DeletionsOf, RequestsAfter, SomeFailed, SomeInProgress, Describe;
    if w.fetch == FetchFailed {
      return true, true;
    }
    assert |w.notStarted| == |notStarted| && |w.scheduled| == |scheduled| && |w.selected| == |selected| by {
      DescribeSizes(w, notStarted, scheduled, selected);
    }
    ghost var all := notStarted + scheduled + selected;
    var toUpdate, cases := PodsToUpdate(notStarted, scheduled, selected, w);
    WorkDescribes(w, notStarted, scheduled, selected, toUpdate);
    assert toUpdate == all[..|toUpdate|];
    inProgress, failed := DeletePods(toUpdate, cases, specReplicas, solr);
  }

  lemma DescribeSizes(w: UpdateWork, notStarted: seq<SolrPod>, scheduled: seq<SolrPod>, selected: seq<SolrPod>)
    requires DescribeAll(w, notStarted, scheduled, selected)
    ensures |w.notStarted| == |notStarted| && |w.scheduled| == |scheduled| && |w.selected| == |selected|
  {
  }

  // ----- each attempt by itself -----

  lemma {:induction false} EachDeletion(requests: Requests, specReplicas: Option<int>, cases: seq<PodCase>, i: nat)
    requires i < |cases|
    ensures var ds := DeletionsOf(requests, specReplicas, cases);
            && ds[i] == DeletionOf(RequestsAfter(requests, ds[..i]), specReplicas, cases[i])
            && ds[..i] == DeletionsOf(requests, specReplicas, cases[..i])
    decreases |cases|
  {
    hide DeletionOf, RequestsAfter;
    var rest, ds := cases[..|cases| - 1], DeletionsOf(requests, specReplicas, cases);
    var before := DeletionsOf(requests, specReplicas, rest);
    assert ds[..|rest|] == before;
    if i < |rest| {
      EachDeletion(requests, specReplicas, rest, i);
      assert ds[..i] == before[..i] && rest[..i] == cases[..i];
    }
  }

  /** Attempts on other pods leave a request as it was. */
  lemma {:induction false} OthersKeepRequest(
    requests: Requests, specReplicas: Option<int>, cases: seq<PodCase>, id: string)
    requires forall j :: 0 <= j < |cases| ==> MoveRequestId(cases[j].name) != id
    ensures StateOf(RequestsAfter(requests, DeletionsOf(requests, specReplicas, cases)), id) == StateOf(requests, id)
  {
    hide DeletionOf, MoveRequestId;
    if cases != [] {
      var rest, last := cases[..|cases| - 1], cases[|cases| - 1];
      OthersKeepRequest(requests, specReplicas, rest, id);
      OtherKeepsRequest(RequestsAfter(requests, DeletionsOf(requests, specReplicas, rest)), specReplicas, last, id);
    }
  }

  lemma OtherKeepsRequest(requests: Requests, specReplicas: Option<int>, c: PodCase, id: string)
    requires MoveRequestId(c.name) != id
    ensures StateOf(DeletionOf(requests, specReplicas, c).requests, id) == StateOf(requests, id)
  {
    AnswerMeaning(requests, specReplicas, c.name, c.hasReplicas, c.io);
    hide EvictReplicas, AllChanged, ConditionHasReason, SomeNeedsChange, MoveRequestId;
  }

  // ----- what an attempt does -----

  /** The pod has to be emptied before it goes: its storage is ephemeral, or it is being emptied already. */
  ghost predicate MustBeEmptied(c: PodCase) {
    || ReplicasNotEvicted in c.gates
    || exists k :: k in c.conditions && k.ctype == ReplicasNotEvicted && k.reason == EvictingReplicas
  }

  /** The conditions of the pod say that it is stopped, or can be patched to say so. */
  ghost predicate CanBeStopped(c: PodCase) {
    || c.patchOk
    || (&& (IsNotStopped in c.gates ==> Condition(IsNotStopped, False, PodUpdate) in c.conditions)
        && (ReplicasNotEvicted in c.gates ==> Condition(ReplicasNotEvicted, False, EvictingReplicas) in c.conditions))
  }

  /** Its replicas have nowhere to go, or Solr knows no move of them, or a completed one that is cleared now. */
  ghost predicate MoveIsOver(requests: Requests, specReplicas: Option<int>, c: PodCase) {
    var id := "move-replicas-" + c.name;
    || IsOnlyPod(specReplicas, c.name)
    || (!c.io.checkFails && (id !in requests || (requests[id] == Completed && c.io.clear == Done)))
  }

  /** Being listed is being the entry of a type, where a type is listed once. */
  lemma EntryIsListed(conditions: seq<Condition>, t: ConditionType, c: Condition)
    requires AtMostOne(conditions, t) && c.ctype == t
    ensures c in conditions <==> EntryOf(conditions, t) == Some(c)
  {
    if c in conditions {
      var i :| 0 <= i < |conditions| && conditions[i] == c;
      assert FirstOf(conditions, t) == i;
    }
  }

  lemma ReasonIsListed(conditions: seq<Condition>, t: ConditionType, reason: Reason)
    requires AtMostOne(conditions, t)
    ensures ConditionHasReason(conditions, t, reason) <==>
              exists k :: k in conditions && k.ctype == t && k.reason == reason
  {
    if k :| k in conditions && k.ctype == t && k.reason == reason {
      EntryIsListed(conditions, t, k);
    }
  }

  /** The pod's conditions have to be patched exactly if one of the operator's does not say that it is stopped. */
  lemma StoppedAlready(c: PodCase)
    requires Settled(c.conditions, c.gates)
    ensures (c.patchOk || !SomeNeedsChange(c.conditions, c.gates, STOP_FOR_UPDATE)) <==> CanBeStopped(c)
  {
    var stopped, evicting := Condition(IsNotStopped, False, PodUpdate),
                             Condition(ReplicasNotEvicted, False, EvictingReplicas);
    EntryIsListed(c.conditions, IsNotStopped, stopped);
    EntryIsListed(c.conditions, ReplicasNotEvicted, evicting);
    hide AtMostOne, FirstOf;
    var i, j := FirstOf(c.conditions, IsNotStopped), FirstOf(c.conditions, ReplicasNotEvicted);
    if IsNotStopped in c.gates && stopped !in c.conditions {
      assert IsConcerned(c.conditions, c.gates, STOP_FOR_UPDATE, i);
    }
    if ReplicasNotEvicted in c.gates && evicting !in c.conditions {
      assert IsConcerned(c.conditions, c.gates, STOP_FOR_UPDATE, j);
    }
  }

  /**
    Exactly when an attempt asks for the deletion of a settled pod: its conditions say that it is stopped or
    can be made to, and if it has to be emptied, it holds no replica and the move of its replicas is over.
   */
  lemma AttemptExactly(requests: Requests, specReplicas: Option<int>, c: PodCase)
    requires Settled(c.conditions, c.gates)
    ensures DeletionOf(requests, specReplicas, c).asked <==>
              && CanBeStopped(c)
              && (MustBeEmptied(c) ==> !c.hasReplicas && MoveIsOver(requests, specReplicas, c))
  {
    StoppedAlready(c);
    StoppedNeedsEviction(c);
    ReasonIsListed(c.conditions, ReplicasNotEvicted, EvictingReplicas);
    EvictionExactly(requests, specReplicas, c.name, c.hasReplicas, c.io);
    hide EvictReplicas, AllChanged, ConditionHasReason, SomeNeedsChange, Settled, CanBeStopped;
  }

  /**
    What an attempt on a settled pod reports. It fails if the pod cannot be stopped, if a call about its move
    fails, or if it is not deleted when asked for. It is in progress while the pod is not known to be empty.
   */
  lemma AttemptReports(requests: Requests, specReplicas: Option<int>, c: PodCase)
    requires Settled(c.conditions, c.gates)
    ensures var d, id := DeletionOf(requests, specReplicas, c), "move-replicas-" + c.name;
            var emptying := CanBeStopped(c) && MustBeEmptied(c) && !IsOnlyPod(specReplicas, c.name);
            && (d.failed <==>
                  || !CanBeStopped(c)
                  || (d.asked && c.deleting != Deleted)
                  || (emptying
                      && (c.io.checkFails
                          || if id in requests then requests[id] in {Completed, Failed} && c.io.clear != Done
                             else c.hasReplicas && c.io.submit != Done)))
            && (d.inProgress <==>
                  emptying
                  && (c.io.checkFails
                      || if id in requests then requests[id] in {Submitted, Running} || c.io.clear != Done
                         else c.hasReplicas))
  {
    StoppedAlready(c);
    StoppedNeedsEviction(c);
    ReasonIsListed(c.conditions, ReplicasNotEvicted, EvictingReplicas);
    EvictionExactly(requests, specReplicas, c.name, c.hasReplicas, c.io);
    hide EvictReplicas, AllChanged, ConditionHasReason, SomeNeedsChange, Settled, CanBeStopped, ChangesOnly;
  }

  /**
    What an attempt leaves of the conditions of a settled pod. If it can be stopped, those that gate the pod
    say so, and nothing else is changed. If it cannot, everything stays.
   */
  lemma AttemptStops(requests: Requests, specReplicas: Option<int>, c: PodCase, i: nat)
    requires Settled(c.conditions, c.gates) && i < |c.conditions|
    ensures var d := DeletionOf(requests, specReplicas, c);
            && |d.conditions| == |c.conditions|
            && d.conditions[i] ==
               if !CanBeStopped(c) || c.conditions[i].ctype !in c.gates then c.conditions[i]
               else if c.conditions[i].ctype == IsNotStopped then Condition(IsNotStopped, False, PodUpdate)
               else if c.conditions[i].ctype == ReplicasNotEvicted then
                 Condition(ReplicasNotEvicted, False, EvictingReplicas)
               else c.conditions[i]
  {
    StoppedAlready(c);
    hide EvictReplicas, ConditionHasReason, SomeNeedsChange, CanBeStopped;
    var t := c.conditions[i].ctype;
    if IsSolrType(t) {
      EntryIsListed(c.conditions, t, c.conditions[i]);
    }
  }

  /** A step fails, or is in progress, exactly if the state could not be fetched or one of its attempts is so. */
  lemma AnsweredExactly(requests: Requests, specReplicas: Option<int>, w: UpdateWork)
    ensures var a, ds := Answered(requests, specReplicas, w), DeletionsOf(requests, specReplicas, WorkedCases(w));
            && (a.failed <==> w.fetch == FetchFailed || exists i :: 0 <= i < |ds| && ds[i].failed)
            && (a.inProgress <==> w.fetch == FetchFailed || exists i :: 0 <= i < |ds| && ds[i].inProgress)
            && (w.fetch == FetchFailed ==> a.requests == requests)
  {
    hide DeletionsOf;
  }

  /** The state of the move of a pod after an attempt on it, from its state before. */
  ghost function MoveAfter(state: Option<RequestState>, specReplicas: Option<int>, c: PodCase): Option<RequestState> {
    if !CanBeStopped(c) || !MustBeEmptied(c) || IsOnlyPod(specReplicas, c.name) || c.io.checkFails then state
    else if state.None? && c.hasReplicas && c.io.submit != LostCall then Some(Submitted)
    else if state in {Some(Completed), Some(Failed)} && c.io.clear != LostCall then None
    else state
  }

  lemma AttemptMoves(requests: Requests, specReplicas: Option<int>, c: PodCase)
    requires Settled(c.conditions, c.gates)
    ensures var id := "move-replicas-" + c.name;
            StateOf(DeletionOf(requests, specReplicas, c).requests, id) ==
            MoveAfter(StateOf(requests, id), specReplicas, c)
  {
    StoppedAlready(c);
    StoppedNeedsEviction(c);
    ReasonIsListed(c.conditions, ReplicasNotEvicted, EvictingReplicas);
    EvictionExactly(requests, specReplicas, c.name, c.hasReplicas, c.io);
    hide EvictReplicas, AllChanged, ConditionHasReason, SomeNeedsChange, Settled, CanBeStopped;
  }

  /**
    What a step leaves in Solr of the move of each pod it works on: the attempts on the other pods do not
    matter, a move is submitted exactly if the pod has to be emptied, and is cleared exactly if it ended.
   */
  lemma StepMovesExactly(requests: Requests, specReplicas: Option<int>, cases: seq<PodCase>, i: nat)
    requires i < |cases| && Settled(cases[i].conditions, cases[i].gates)
    requires forall j, k :: 0 <= j < k < |cases| ==> cases[j].name != cases[k].name
    ensures var id := "move-replicas-" + cases[i].name;
            StateOf(RequestsAfter(requests, DeletionsOf(requests, specReplicas, cases)), id) ==
            MoveAfter(StateOf(requests, id), specReplicas, cases[i])
  {
    hide DeletionOf, DeletionsOf, Settled, MoveAfter;
    var id, ds := MoveRequestId(cases[i].name), DeletionsOf(requests, specReplicas, cases);
    forall j | 0 <= j < |cases| && j != i ensures MoveRequestId(cases[j].name) != id {
      RequestIdsDiffer(cases[j].name, cases[i].name);
    }
    hide MoveRequestId;
    EachDeletion(requests, specReplicas, cases, i);
    OthersKeepRequest(requests, specReplicas, cases[..i], id);
    AttemptMoves(RequestsAfter(requests, ds[..i]), specReplicas, cases[i]);
    LaterKeepRequest(requests, specReplicas, cases, i + 1, id);
  }

  lemma {:induction false} LaterKeepRequest(
    requests: Requests, specReplicas: Option<int>, cases: seq<PodCase>, n: nat, id: string)
    requires n <= |cases| && forall j :: n <= j < |cases| ==> MoveRequestId(cases[j].name) != id
    ensures var ds := DeletionsOf(requests, specReplicas, cases);
            StateOf(RequestsAfter(requests, ds), id) == StateOf(RequestsAfter(requests, ds[..n]), id)
    decreases |cases| - n
  {
    hide DeletionOf, DeletionsOf, MoveRequestId;
    var ds := DeletionsOf(requests, specReplicas, cases);
    if n == |cases| {
      assert ds[..n] == ds;
    } else {
      LaterKeepRequest(requests, specReplicas, cases, n + 1, id);
      EachDeletion(requests, specReplicas, cases, n);
      assert RequestsAfter(requests, ds[..n + 1]) == ds[n].requests;
      OtherKeepsRequest(RequestsAfter(requests, ds[..n]), specReplicas, cases[n], id);
    }
  }

  // ----- which attempts move a pod forward -----

  predicate NeedsEviction(c: PodCase) {
    ReplicasNotEvicted in c.gates || ConditionHasReason(c.conditions, ReplicasNotEvicted, EvictingReplicas)
  }

  /** Its replicas would have to be moved, but it is the only pod of its cloud. */
  predicate IsStuck(specReplicas: Option<int>, c: PodCase) {
    NeedsEviction(c) && c.hasReplicas && IsOnlyPod(specReplicas, c.name)
  }

  /** Kubernetes and Solr accept every call for the pod. */
  predicate IsAccepted(c: PodCase) {
    c.patchOk && c.deleting.Deleted? && c.io == Io(false, Done, Done)
  }

  /** The pod is deleted, or its move is submitted, waited for or cleared. */
  predicate MovesForward(before: Requests, d: Deletion) {
    d.asked || d.inProgress || d.requests != before
  }

  lemma StoppedNeedsEviction(c: PodCase)
    requires Settled(c.conditions, c.gates)
    ensures ConditionHasReason(AllChanged(c.conditions, c.gates, STOP_FOR_UPDATE), ReplicasNotEvicted, EvictingReplicas)
            <==> NeedsEviction(c)
  {
    StoppingMarksEviction(c.conditions, c.gates);
    AllChangedEntry(c.conditions, c.gates, STOP_FOR_UPDATE, ReplicasNotEvicted);
  }

  /**
    With all calls accepted, an attempt on a settled pod moves it forward exactly unless its replicas
    would have to be moved and it is the only pod.
   */
  lemma ForwardUnlessStuck(requests: Requests, specReplicas: Option<int>, c: PodCase)
    requires Settled(c.conditions, c.gates) && IsAccepted(c)
    ensures MovesForward(requests, DeletionOf(requests, specReplicas, c)) <==> !IsStuck(specReplicas, c)
  {
    StoppedNeedsEviction(c);
    hide AllChanged, ConditionHasReason, SomeNeedsChange, NeedsEviction, Settled;
    var id := MoveRequestId(c.name);
    if id in requests && HasEnded(requests[id]) {
      assert id !in Without(requests, id);
    }
  }

  /** Whatever the calls do, an attempt on a stuck pod neither deletes it nor touches a request. */
  lemma StuckStaysPut(requests: Requests, specReplicas: Option<int>, c: PodCase)
    requires Settled(c.conditions, c.gates) && IsStuck(specReplicas, c)
    ensures !MovesForward(requests, DeletionOf(requests, specReplicas, c))
  {
    StoppedNeedsEviction(c);
    hide AllChanged, ConditionHasReason, SomeNeedsChange, NeedsEviction, Settled;
  }

  /** A cloud of one pod with ephemeral storage and one replica on it, with every call accepted. */
  lemma OnlyPodIsNotUpdated()
    ensures var started := [Condition(ReplicasNotEvicted, True, PodStarted)];
            var stopped := [Condition(ReplicasNotEvicted, False, EvictingReplicas)];
            var c := PodCase("c-solrcloud-0", [ReplicasNotEvicted], started, true, true, Deleted,
                             Io(false, Done, Done));
            && DeletionOf(map[], Some(1), c) == Deletion(stopped, map[], false, false, false)
            && DeletionOf(map[], Some(1), c.(conditions := stopped)) == Deletion(stopped, map[], false, false, false)
  {
    var started := [Condition(ReplicasNotEvicted, True, PodStarted)];
    var stopped := [Condition(ReplicasNotEvicted, False, EvictingReplicas)];
    assert FirstOf(started, ReplicasNotEvicted) == 0 && FirstOf(stopped, ReplicasNotEvicted) == 0;
    assert AllChanged(started, [ReplicasNotEvicted], STOP_FOR_UPDATE) == stopped;
    assert AllChanged(stopped, [ReplicasNotEvicted], STOP_FOR_UPDATE) == stopped;
    assert Naming.HasSuffix("c-solrcloud-0", "-0");
  }

  /**
    In every run, an attempt on the only pod of a cloud with ephemeral storage, in a step whose cluster
    status places a replica on it, neither deletes it nor does anything to empty it.
   */
  lemma OnlyPodNeverUpdated(worlds: seq<PodWorld>, events: seq<PodEvent>, i: nat)
    requires PodRun(worlds, events) && i < |events| && ReplicasNotEvicted in worlds[0].gates
    requires events[i].Attempt? && events[i].state.Some? && IsOnlyPod(events[i].specReplicas, worlds[0].name)
    requires ClusterState.HostsReplicas(events[i].state.value.cluster,
                                        Naming.SolrNodeName(events[i].cloud, worlds[0].name))
    ensures var e := events[i];
            !MovesForward(e.requests, DeletionOf(e.requests, e.specReplicas, CaseIn(worlds[i], e)))
    ensures worlds[i + 1].exists'
  {
    hide ClusterState.HostsReplicas, ClusterState.PodHasReplicas, Naming.SolrNodeName, DeletionOf, Settled, IsOnlyPod;
    RunSettled(worlds, events, i);
    var w, e := worlds[i], events[i];
    assert CanHappen(w, e) && worlds[i + 1] == AfterEvent(w, e);
    var s := e.state.value;
    ClusterState.PodHasReplicasExactly(s.cluster, s.overseer, s.managed, e.cloud, s.view, w.name);
    StuckStaysPut(e.requests, e.specReplicas, CaseIn(w, e));
  }
}
