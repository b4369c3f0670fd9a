/** Growing the data claims of a cloud. Sizes are whole numbers of bytes. */
module PvcExpansion {
  import opened Prelude

  datatype ResizeStatus =
    | ControllerResizeInProgress
    | ControllerResizeInfeasible
    | NodeResizePending
    | NodeResizeInProgress
    | NodeResizeInfeasible

  datatype PvcCondition = PvcCondition(fileSystemResizePending: bool, isTrue: bool)

  datatype Pvc = Pvc(
    capacity: Option<int>,
    request: Option<int>,
    conditions: seq<PvcCondition>,
    resizeStatus: Option<ResizeStatus>)

  /** Only a resize on the node is left to do, which a restart of the pod carries out. */
  predicate ControllerSideDone(pvc: Pvc) {
    || (exists i :: 0 <= i < |pvc.conditions| && pvc.conditions[i] == PvcCondition(true, true))
    || pvc.resizeStatus == Some(NodeResizePending)
    || pvc.resizeStatus == Some(NodeResizeInProgress)
  }

  predicate IsInfeasible(pvc: Pvc) {
    pvc.resizeStatus == Some(ControllerResizeInfeasible) || pvc.resizeStatus == Some(NodeResizeInfeasible)
  }

  function CapacityOf(pvc: Pvc): int {
    if pvc.capacity.Some? then pvc.capacity.value else 0
  }

  /** The claim needs nothing more before the pods are restarted. */
  predicate IsExpanded(pvc: Pvc, size: int) {
    CapacityOf(pvc) >= size || ControllerSideDone(pvc)
  }

  predicate NeedsRequest(pvc: Pvc, size: int) {
    !IsExpanded(pvc, size) && pvc.request != Some(size)
  }

  predicate ReportsInfeasible(pvc: Pvc, size: int, patchFails: bool) {
    !IsExpanded(pvc, size) && IsInfeasible(pvc) && !(NeedsRequest(pvc, size) && patchFails)
  }

  method FindControllerSideDone(pvc: Pvc) returns (done: bool)
    ensures done == ControllerSideDone(pvc)
  {
    for i := 0 to |pvc.conditions|
      invariant forall j :: 0 <= j < i ==> pvc.conditions[j] != PvcCondition(true, true)
    {
      if pvc.conditions[i].fileSystemResizePending && pvc.conditions[i].isTrue {
        assert pvc.conditions[i] == PvcCondition(true, true);
        return true;
      }
    }
    done := pvc.resizeStatus == Some(NodeResizePending) || pvc.resizeStatus == Some(NodeResizeInProgress);
  }

  /** One claim after the work on it. */
  function Requested(pvc: Pvc, size: int, patchFails: bool): Pvc {
    if NeedsRequest(pvc, size) && !patchFails then pvc.(request := Some(size)) else pvc
  }

  method ExpandPvc(pvc: Pvc, size: int, patchFails: bool)
    returns (after: Pvc, expanded: bool, infeasible: bool, failed: bool)
    ensures after == Requested(pvc, size, patchFails)
    ensures expanded == IsExpanded(pvc, size)
    ensures infeasible == ReportsInfeasible(pvc, size, patchFails)
    ensures failed == (NeedsRequest(pvc, size) && patchFails)
  {
    after, expanded, infeasible, failed := pvc, false, false, false;
    var controllerSide := FindControllerSideDone(pvc);
    if CapacityOf(pvc) >= size || controllerSide {
      expanded := true;
    } else {
      if pvc.request != Some(size) {
        if patchFails {
          failed := true;
          return;
        }
        after := pvc.(request := Some(size));
      }
      infeasible := IsInfeasible(pvc);
    }
  }

  /**
    Asks for the new size on every claim that still needs it, and reports whether all are expanded.
    `patchFails[i]` tells whether the request for claim `i` is rejected. No claim is asked for less
    than its volume already has, and nothing but requests is changed.
   */
  method ExpandPvcs(claims: array<Pvc>, size: int, patchFails: seq<bool>)
    returns (complete: bool, infeasible: bool, failed: bool)
    requires |patchFails| == claims.Length
    modifies claims
    ensures complete <==> forall i :: 0 <= i < claims.Length ==> IsExpanded(old(claims[..])[i], size)
    ensures failed <==> exists i :: 0 <= i < claims.Length && NeedsRequest(old(claims[..])[i], size) && patchFails[i]
    ensures infeasible <==>
            exists i :: 0 <= i < claims.Length && ReportsInfeasible(old(claims[..])[i], size, patchFails[i])
    ensures forall i :: 0 <= i < claims.Length ==> claims[i] == Requested(old(claims[..])[i], size, patchFails[i])
  {
    ghost var before := claims[..];
    var count: nat := 0;
    infeasible, failed := false, false;
    for i := 0 to claims.Length
      invariant count <= i
      invariant count == i <==> forall j :: 0 <= j < i ==> IsExpanded(before[j], size)
      invariant failed <==> exists j :: 0 <= j < i && NeedsRequest(before[j], size) && patchFails[j]
      invariant infeasible <==> exists j :: 0 <= j < i && ReportsInfeasible(before[j], size, patchFails[j])
      invariant forall j :: 0 <= j < i ==> claims[j] == Requested(before[j], size, patchFails[j])
      invariant forall j :: i <= j < claims.Length ==> claims[j] == before[j]
      invariant failed ==> count < i
    {
      hide IsExpanded, ReportsInfeasible, Requested;
      assert NeedsRequest(before[i], size) ==> !IsExpanded(before[i], size);
      hide NeedsRequest;
      var after, expanded, claimInfeasible, claimFailed := ExpandPvc(claims[i], size, patchFails[i]);
      claims[i] := after;
      if expanded {
        count := count + 1;
      }
      infeasible := infeasible || claimInfeasible;
      failed := failed || claimFailed;
    }
    complete := !failed && count == claims.Length;
  }

  // ----- the fields of a claim -----

  /** The volume has the size, or only the resize on its node is left. */
  ghost predicate HasGrown(pvc: Pvc, size: int) {
    || (pvc.capacity.Some? && pvc.capacity.value >= size)
    || (pvc.capacity.None? && 0 >= size)
    || (exists c :: c in pvc.conditions && c.fileSystemResizePending && c.isTrue)
    || pvc.resizeStatus == Some(NodeResizePending)
    || pvc.resizeStatus == Some(NodeResizeInProgress)
  }

  lemma GrownExactly(pvc: Pvc, size: int)
    ensures IsExpanded(pvc, size) <==> HasGrown(pvc, size)
  {
    if c :| c in pvc.conditions && c.fileSystemResizePending && c.isTrue {
      assert c == PvcCondition(true, true);
    }
    if i :| 0 <= i < |pvc.conditions| && pvc.conditions[i] == PvcCondition(true, true) {
      assert pvc.conditions[i] in pvc.conditions;
    }
  }

  /**
    What the work on one claim does, on its fields. It asks for the size exactly on a claim that has not
    grown and does not ask for it yet, and a resize that cannot be done is reported unless asking fails.
   */
  lemma ClaimExactly(pvc: Pvc, size: int, patchFails: bool)
    ensures Requested(pvc, size, patchFails) == pvc.(request := Requested(pvc, size, patchFails).request)
    ensures Requested(pvc, size, patchFails).request ==
            if !HasGrown(pvc, size) && !patchFails then Some(size) else pvc.request
    ensures ReportsInfeasible(pvc, size, patchFails) <==>
              && !HasGrown(pvc, size) && (pvc.request == Some(size) || !patchFails)
              && pvc.resizeStatus in {Some(ControllerResizeInfeasible), Some(NodeResizeInfeasible)}
  {
    GrownExactly(pvc, size);
    hide IsExpanded, HasGrown;
  }
}
