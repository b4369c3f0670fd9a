/**
  Replica movements that run inside Solr as asynchronous requests: moving all replicas off one pod,
  and balancing replicas over the cluster. The operator checks a request, submits it if Solr does not
  know it, and clears it once it has ended. Solr works on requests at its own pace in between.
 */
module AsyncRequests {
  import opened Prelude
  import opened Naming

  /** The states of a request that Solr knows. A request it does not know is absent from the store. */
  datatype RequestState = Submitted | Running | Completed | Failed

  type Requests = map<string, RequestState>

  /** A call that changes the store may fail before or after it took effect. */
  datatype CallOutcome = Done | LostCall | LostReply

  predicate TookEffect(outcome: CallOutcome) {
    !outcome.LostCall?
  }

  /** How the calls of one step to Solr go. */
  datatype Io = Io(checkFails: bool, submit: CallOutcome, clear: CallOutcome)

  predicate HasEnded(state: RequestState) {
    state.Completed? || state.Failed?
  }

  function MoveRequestId(pod: string): string {
    "move-replicas-" + pod
  }

  function BalanceRequestId(reason: string): string {
    "balance-replicas-" + reason
  }

  lemma RequestIdsDiffer(a: string, b: string)
    ensures MoveRequestId(a) == MoveRequestId(b) <==> a == b
    ensures MoveRequestId(a) != BalanceRequestId(b)
  {
    SameMiddle("move-replicas-", a, b, "");
    assert MoveRequestId(a) == "move-replicas-" + a + "" && MoveRequestId(b) == "move-replicas-" + b + "";
    assert MoveRequestId(a)[0] == 'm' && BalanceRequestId(b)[0] == 'b';
  }

  function Without(requests: Requests, id: string): Requests {
    requests - {id}
  }

  /** What a step tells the operator, with the store it leaves behind. */
  datatype Answer = Answer(requests: Requests, failed: bool, finished: bool, inProgress: bool)

  /** Clears an ended request. A failed clearing keeps the operation going. */
  function Clear(requests: Requests, id: string, outcome: CallOutcome, finished: bool): Answer {
    var left := if TookEffect(outcome) then Without(requests, id) else requests;
    if outcome.Done? then Answer(left, false, finished, false) else Answer(left, true, false, true)
  }

  /** One step of moving all replicas off a pod. The answer is finished when the pod may be deleted. */
  function EvictReplicas(
    requests: Requests, specReplicas: Option<int>, pod: string, podHasReplicas: bool, io: Io): Answer
  {
    if (specReplicas.None? || specReplicas.value < 2) && HasSuffix(pod, "-0") then
      Answer(requests, false, true, false)
    else
      var id := MoveRequestId(pod);
      if io.checkFails then
        Answer(requests, true, false, false)
      else if id !in requests then
        if podHasReplicas then
          Answer(if TookEffect(io.submit) then requests[id := Submitted] else requests,
                 !io.submit.Done?, false, io.submit.Done?)
        else
          Answer(requests, false, true, false)
      else if HasEnded(requests[id]) then
        Clear(requests, id, io.clear, requests[id].Completed?)
      else
        Answer(requests, false, false, true)
  }

  /** One step of balancing replicas, with `unsupported` when Solr has no such command. */
  function BalanceReplicas(
    requests: Requests, replicas: int, readyReplicas: int, reason: string, io: Io, unsupported: bool): Answer
  {
    if replicas <= 1 then
      Answer(requests, false, true, false)
    else
      var id := BalanceRequestId(reason);
      if io.checkFails then
        Answer(requests, true, false, false)
      else if id !in requests then
        if replicas != readyReplicas then
          Answer(requests, false, false, false)
        else if unsupported then
          Answer(requests, false, true, false)
        else
          Answer(if TookEffect(io.submit) then requests[id := Submitted] else requests,
                 !io.submit.Done?, false, io.submit.Done?)
      else if HasEnded(requests[id]) then
        Clear(requests, id, io.clear, requests[id].Completed?)
      else
        Answer(requests, false, false, true)
  }

  /** The pod is the last one of a cloud that asks for at most one, so there is nowhere to move to. */
  predicate IsOnlyPod(specReplicas: Option<int>, pod: string) {
    (specReplicas.None? || specReplicas.value < 2) && HasSuffix(pod, "-0")
  }

  /** Solr's store, which the steps of the operator change by calls. */
  class SolrRequests {
    var requests: Requests

    /** DELETESTATUS. */
    method ClearRequest(id: string, outcome: CallOutcome) returns (failed: bool)
      modifies this
      ensures requests == if TookEffect(outcome) then Without(old(requests), id) else old(requests)
      ensures failed == !outcome.Done?
    {
      if TookEffect(outcome) {
        requests := requests - {id};
      }
      failed := !outcome.Done?;
    }

    /** An asynchronous command with a request id. */
    method SubmitRequest(id: string, outcome: CallOutcome) returns (failed: bool)
      requires id !in requests
      modifies this
      ensures requests == if TookEffect(outcome) then old(requests)[id := Submitted] else old(requests)
      ensures failed == !outcome.Done?
    {
      if TookEffect(outcome) {
        requests := requests[id := Submitted];
      }
      failed := !outcome.Done?;
    }

    method EvictReplicasForPodIfNecessary(specReplicas: Option<int>, pod: string, podHasReplicas: bool, io: Io)
      returns (failed: bool, canDeletePod: bool, inProgress: bool)
      modifies this
      ensures Answer(requests, failed, canDeletePod, inProgress) ==
              EvictReplicas(old(requests), specReplicas, pod, podHasReplicas, io)
    {
      failed, canDeletePod, inProgress := false, false, false;
      if (specReplicas.None? || specReplicas.value < 2) && HasSuffix(pod, "-0") {
        canDeletePod := true;
      } else {
        var id := MoveRequestId(pod);
        if io.checkFails {
          failed := true;
        } else if id !in requests {
          if podHasReplicas {
            failed := SubmitRequest(id, io.submit);
            if !failed {
              inProgress := true;
            }
          } else {
            canDeletePod := true;
          }
        } else {
          var state := requests[id];
          if state == Completed {
            canDeletePod := true;
          } else if state != Failed {
            inProgress := true;
          }
          if state == Completed || state == Failed {
            failed := ClearRequest(id, io.clear);
            if failed {
              canDeletePod := false;
              inProgress := true;
            }
          }
        }
      }
    }

    method BalanceReplicasForCluster(replicas: int, readyReplicas: int, reason: string, io: Io, unsupported: bool)
      returns (failed: bool, balanceComplete: bool, inProgress: bool)
      modifies this
      ensures Answer(requests, failed, balanceComplete, inProgress) ==
              BalanceReplicas(old(requests), replicas, readyReplicas, reason, io, unsupported)
    {
      failed, balanceComplete, inProgress := false, false, false;
      if replicas <= 1 {
        balanceComplete := true;
      } else {
        var id := BalanceRequestId(reason);
        if io.checkFails {
          failed := true;
        } else if id !in requests {
          if replicas == readyReplicas {
            if unsupported {
              balanceComplete := true;
            } else {
              failed := SubmitRequest(id, io.submit);
            }
            if !balanceComplete && !failed {
              inProgress := true;
            }
          }
        } else {
          var state := requests[id];
          if state == Completed {
            balanceComplete := true;
          } else if state != Failed {
            inProgress := true;
          }
          if !inProgress {
            failed := ClearRequest(id, io.clear);
            if failed {
              balanceComplete := false;
              inProgress := true;
            }
          }
        }
      }
    }
  }

  /** What an answer means, whatever the calls do. */
  lemma AnswerMeaning(
    requests: Requests, specReplicas: Option<int>, pod: string, podHasReplicas: bool, io: Io)
    ensures var id, a := MoveRequestId(pod), EvictReplicas(requests, specReplicas, pod, podHasReplicas, io);
            && !(a.finished && (a.inProgress || a.failed))
            && (a.finished && !IsOnlyPod(specReplicas, pod) ==> id !in a.requests)
            && (id in requests && !HasEnded(requests[id]) && !io.checkFails && !IsOnlyPod(specReplicas, pod) ==>
                  a == Answer(requests, false, false, true))
            && (forall other :: other != id ==>
                  (other in a.requests <==> other in requests)
                  && (other in requests ==> a.requests[other] == requests[other]))
  {
  }

  lemma BalanceAnswerMeaning(
    requests: Requests, replicas: int, readyReplicas: int, reason: string, io: Io, unsupported: bool)
    ensures var id := BalanceRequestId(reason);
            var a := BalanceReplicas(requests, replicas, readyReplicas, reason, io, unsupported);
            && !(a.finished && (a.inProgress || a.failed))
            && (a.finished && replicas > 1 ==> id !in a.requests)
            && (id in requests && !HasEnded(requests[id]) && !io.checkFails && replicas > 1 ==>
                  a == Answer(requests, false, false, true))
            && (a.requests != requests && id !in requests ==> replicas == readyReplicas)
  {
  }

  // ----- exact answers -----

  /** The store after a call that changes one request. */
  ghost predicate ChangesOnly(before: Requests, after: Requests, id: string, state: Option<RequestState>) {
    && (forall other :: other != id ==>
          (other in after <==> other in before) && (other in before ==> after[other] == before[other]))
    && (id in after <==> state.Some?) && (id in after ==> after[id] == state.value)
  }

  /**
    Exactly when a pod may be deleted, when a step fails, and what it leaves in Solr. A failed move never
    lets the pod go: it is cleared, so that the next step submits it again.
   */
  lemma EvictionExactly(requests: Requests, specReplicas: Option<int>, pod: string, podHasReplicas: bool, io: Io)
    ensures var id, a := "move-replicas-" + pod, EvictReplicas(requests, specReplicas, pod, podHasReplicas, io);
            var only := (specReplicas.None? || specReplicas.value <= 1) && |pod| >= 2 && pod[|pod| - 2..] == "-0";
            && (a.finished <==>
                  only || (!io.checkFails
                           && if id in requests then requests[id] == Completed && io.clear == Done
                              else !podHasReplicas))
            && (a.failed <==>
                  !only && (io.checkFails
                            || if id in requests then requests[id] in {Completed, Failed} && io.clear != Done
                               else podHasReplicas && io.submit != Done))
            && (a.inProgress <==>
                  !only && !io.checkFails
                  && if id in requests then requests[id] in {Submitted, Running} || io.clear != Done
                     else podHasReplicas && io.submit == Done)
            && (if only || io.checkFails then a.requests == requests
                else if id !in requests && podHasReplicas && io.submit != LostCall then
                  ChangesOnly(requests, a.requests, id, Some(Submitted))
                else if id in requests && requests[id] in {Completed, Failed} && io.clear != LostCall then
                  ChangesOnly(requests, a.requests, id, None)
                else a.requests == requests)
  {
  }

  /**
    Exactly when balancing is finished, when a step fails, and what it leaves in Solr. A balancing that
    failed is not finished: it is cleared, so that the next step submits it again.
   */
  lemma BalancingExactly(
    requests: Requests, replicas: int, readyReplicas: int, reason: string, io: Io, unsupported: bool)
    ensures var id := "balance-replicas-" + reason;
            var a := BalanceReplicas(requests, replicas, readyReplicas, reason, io, unsupported);
            && (a.finished <==>
                  replicas <= 1
                  || (!io.checkFails
                      && if id in requests then requests[id] == Completed && io.clear == Done
                         else replicas == readyReplicas && unsupported))
            && (a.failed <==>
                  replicas > 1
                  && (io.checkFails
                      || if id in requests then requests[id] in {Completed, Failed} && io.clear != Done
                         else replicas == readyReplicas && !unsupported && io.submit != Done))
            && (a.inProgress <==>
                  replicas > 1 && !io.checkFails
                  && if id in requests then requests[id] in {Submitted, Running} || io.clear != Done
                     else replicas == readyReplicas && !unsupported && io.submit == Done)
            && (if replicas <= 1 || io.checkFails then a.requests == requests
                else if id !in requests && replicas == readyReplicas && !unsupported && io.submit != LostCall then
                  ChangesOnly(requests, a.requests, id, Some(Submitted))
                else if id in requests && requests[id] in {Completed, Failed} && io.clear != LostCall then
                  ChangesOnly(requests, a.requests, id, None)
                else a.requests == requests)
  {
  }

  // ----- the protocol, with Solr working in between -----

  /** Where the operator is: between the check of a request and what it does about it, or not. */
  datatype Position =
    | Idle
    | Checked(pod: string, podHasReplicas: bool, seen: Option<RequestState>)

  datatype World = World(requests: Requests, position: Position)

  datatype Action =
    | Check(pod: string, podHasReplicas: bool, fails: bool)  // the operator asks for the state of a request
    | Act(submit: CallOutcome, clear: CallOutcome)           // the operator acts on what it saw
    | Work(id: string, to: RequestState)                     // Solr advances a request
    | Forget(id: string)                                     // Solr drops an ended request

  function StateOf(requests: Requests, id: string): Option<RequestState> {
    if id in requests then Some(requests[id]) else None
  }

  predicate Advances(from: RequestState, to: RequestState) {
    || (from.Submitted? && to.Running?)
    || (from.Running? && HasEnded(to))
  }

  predicate Enabled(w: World, a: Action) {
    match a
    case Check(_, _, _) => w.position.Idle?
    case Act(_, _) => w.position.Checked?
    case Work(id, to) => id in w.requests && Advances(w.requests[id], to)
    case Forget(id) => id in w.requests && HasEnded(w.requests[id])
  }

  /** The operator is about to submit a move of this pod's replicas. */
  predicate Submits(w: World, a: Action) {
    a.Act? && w.position.Checked? && w.position.seen.None? && w.position.podHasReplicas
  }

  predicate Clears(w: World, a: Action) {
    a.Act? && w.position.Checked? && w.position.seen.Some? && HasEnded(w.position.seen.value)
  }

  /** The operator concludes that the pod may be deleted. */
  predicate Permits(w: World, a: Action) {
    && a.Act? && w.position.Checked?
    && ((w.position.seen.None? && !w.position.podHasReplicas)
        || (w.position.seen == Some(Completed) && a.clear.Done?))
  }

  function Step(w: World, a: Action): World
    requires Enabled(w, a)
  {
    match a
    case Check(pod, has, fails) =>
      if fails then w else w.(position := Checked(pod, has, StateOf(w.requests, MoveRequestId(pod))))
    case Act(submit, clear) =>
      var id := MoveRequestId(w.position.pod);
      var requests :=
        if Submits(w, a) && TookEffect(submit) then w.requests[id := Submitted]
        else if Clears(w, a) && TookEffect(clear) then Without(w.requests, id)
        else w.requests;
      World(requests, Idle)
    case Work(id, to) => w.(requests := w.requests[id := to])
    case Forget(id) => w.(requests := Without(w.requests, id))
  }

  /** What the operator saw is still so, up to what Solr may have done since. */
  ghost predicate Coherent(w: World) {
    w.position.Checked? ==>
      var id := MoveRequestId(w.position.pod);
      && (w.position.seen.None? ==> id !in w.requests)
      && (w.position.seen.Some? && HasEnded(w.position.seen.value) && id in w.requests ==>
            w.requests[id] == w.position.seen.value)
  }

  ghost predicate IsRun(worlds: seq<World>, actions: seq<Action>) {
    && |worlds| == |actions| + 1
    && forall i :: 0 <= i < |actions| ==> Enabled(worlds[i], actions[i]) && worlds[i + 1] == Step(worlds[i], actions[i])
  }

  lemma StepCoherent(w: World, a: Action)
    requires Coherent(w) && Enabled(w, a)
    ensures Coherent(Step(w, a))
  {
  }

  lemma {:induction false} RunCoherent(worlds: seq<World>, actions: seq<Action>, i: nat)
    requires IsRun(worlds, actions) && Coherent(worlds[0]) && i < |worlds|
    ensures Coherent(worlds[i])
  {
    if i > 0 {
      RunCoherent(worlds, actions, i - 1);
      StepCoherent(worlds[i - 1], actions[i - 1]);
    }
  }

  /**
    In every run, however Solr's work is interleaved: a move is submitted only when Solr knows no
    request with its id, and permission to delete a pod leaves no request of that pod behind.
   */
  lemma RunSubmitsAndPermitsCleanly(worlds: seq<World>, actions: seq<Action>, i: nat)
    requires IsRun(worlds, actions) && Coherent(worlds[0]) && i < |actions|
    ensures Submits(worlds[i], actions[i]) ==> MoveRequestId(worlds[i].position.pod) !in worlds[i].requests
    ensures Permits(worlds[i], actions[i]) ==> MoveRequestId(worlds[i].position.pod) !in worlds[i + 1].requests
  {
    RunCoherent(worlds, actions, i);
  }

  /** The step that takes a request out of the store: the operator clears it or Solr drops it. */
  predicate Removes(w: World, a: Action, id: string) {
    || (Clears(w, a) && TookEffect(a.clear) && MoveRequestId(w.position.pod) == id)
    || a == Forget(id)
  }

  lemma {:induction false} FailedStays(worlds: seq<World>, actions: seq<Action>, id: string, i: nat, j: nat)
    requires IsRun(worlds, actions) && Coherent(worlds[0]) && i <= j < |worlds|
    requires id in worlds[i].requests && worlds[i].requests[id] == Failed
    requires forall m :: i <= m < j ==> !Removes(worlds[m], actions[m], id)
    ensures id in worlds[j].requests && worlds[j].requests[id] == Failed
  {
    if i < j {
      FailedStays(worlds, actions, id, i, j - 1);
      RunCoherent(worlds, actions, j - 1);
      assert worlds[j] == Step(worlds[j - 1], actions[j - 1]);
      assert !Removes(worlds[j - 1], actions[j - 1], id);
    }
  }

  /** A removal leaves no such request behind. */
  lemma RemovalRemoves(w: World, a: Action, id: string)
    requires Enabled(w, a) && Removes(w, a, id)
    ensures id !in Step(w, a).requests
  {
  }

  /** A failed move is always removed before the same move is submitted again. */
  lemma FailedRequestClearedBeforeRetry(worlds: seq<World>, actions: seq<Action>, id: string, i: nat, j: nat)
    requires IsRun(worlds, actions) && Coherent(worlds[0]) && i <= j < |actions|
    requires id in worlds[i].requests && worlds[i].requests[id] == Failed
    requires Submits(worlds[j], actions[j]) && MoveRequestId(worlds[j].position.pod) == id
    ensures exists m :: i <= m < j && Removes(worlds[m], actions[m], id) && id !in worlds[m + 1].requests
  {
    RunSubmitsAndPermitsCleanly(worlds, actions, j);
    if forall m :: i <= m < j ==> !Removes(worlds[m], actions[m], id) {
      FailedStays(worlds, actions, id, i, j);
      assert false;
    }
    var m :| i <= m < j && Removes(worlds[m], actions[m], id);
    RemovalRemoves(worlds[m], actions[m], id);
    assert worlds[m + 1] == Step(worlds[m], actions[m]);
  }

  /** Without interference, a check followed by its action is one step of the eviction. */
  lemma EvictionIsCheckThenAct(requests: Requests, specReplicas: Option<int>, pod: string, has: bool, io: Io)
    requires !IsOnlyPod(specReplicas, pod) && !io.checkFails
    ensures var w0 := World(requests, Idle);
            var w1 := Step(w0, Check(pod, has, false));
            var a := Act(io.submit, io.clear);
            var answer := EvictReplicas(requests, specReplicas, pod, has, io);
            && Enabled(w1, a)
            && Step(w1, a) == World(answer.requests, Idle)
            && answer.finished == Permits(w1, a)
  {
  }
}
