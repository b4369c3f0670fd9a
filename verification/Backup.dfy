/**
  Backups of a SolrCloud: the status of each collection's backup, of a whole backup, and the history of
  a recurring backup. A reconcile updates the status in place and patches it at its end.
 */
module Backup {
  import opened Prelude

  // ----- one collection -----

  datatype CollectionStatus = CollectionStatus(
    collection: string, inProgress: bool, finished: bool, successful: Option<bool>,
    startTime: Option<int>, finishTime: Option<int>, asyncStatus: string)

  /** How the calls to Solr go that a reconcile may make for one collection. */
  datatype Answer = Answer(startFails: bool, started: bool, checkFails: bool, asyncStatus: string, cleanupFails: bool)

  function NewStatus(collection: string): CollectionStatus {
    CollectionStatus(collection, false, false, None, None, None, "")
  }

  function Started(c: CollectionStatus, a: Answer, now: int): CollectionStatus {
    c.(inProgress := a.started, startTime := if a.started && c.startTime.None? then Some(now) else c.startTime)
  }

  function Checked(c: CollectionStatus, a: Answer, now: int): CollectionStatus {
    if a.asyncStatus == "completed" || a.asyncStatus == "failed" then
      c.(finished := true, inProgress := false,
         successful := if c.successful.None? then Some(a.asyncStatus == "completed") else c.successful,
         asyncStatus := "",
         finishTime := if c.finishTime.None? then Some(now) else c.finishTime)
    else
      c.(asyncStatus := a.asyncStatus)
  }

  /** Where the status of a collection is: the last one counts. The length of the list if there is none. */
  function LastIndex(statuses: seq<CollectionStatus>, collection: string): (i: nat)
    ensures i <= |statuses|
    ensures i < |statuses| ==> statuses[i].collection == collection
    ensures forall j :: 0 <= j < |statuses| && (j > i || i == |statuses|) ==> statuses[j].collection != collection
  {
    if statuses == [] then 0
    else
      var n := |statuses| - 1;
      if statuses[n].collection == collection then n
      else
        var i := LastIndex(statuses[..n], collection);
        if i == n then n + 1 else i
  }

  datatype Visited = Visited(statuses: seq<CollectionStatus>, failed: bool)

  function Put(statuses: seq<CollectionStatus>, i: nat, c: CollectionStatus): seq<CollectionStatus>
    requires i <= |statuses|
  {
    if i < |statuses| then statuses[i := c] else statuses + [c]
  }

  /** The work on one collection. A failed call leaves the statuses alone, except that of the last clean-up. */
  function Visit(statuses: seq<CollectionStatus>, collection: string, a: Answer, now: int): Visited {
    var i := LastIndex(statuses, collection);
    var c := if i < |statuses| then statuses[i] else NewStatus(collection);
    if c.finished then Visited(statuses, false)
    else if !c.inProgress then
      if a.startFails then Visited(statuses, true) else Visited(Put(statuses, i, Started(c, a, now)), false)
    else if a.checkFails then Visited(statuses, true)
    else
      var c' := Checked(c, a, now);
      Visited(Put(statuses, i, c'), c'.finished && a.cleanupFails)
  }

  /** The work on the requested collections, up to the first failure. */
  function VisitAll(statuses: seq<CollectionStatus>, collections: seq<string>, answers: seq<Answer>, now: int): Visited
    requires |answers| == |collections|
    decreases collections
  {
    if collections == [] then Visited(statuses, false)
    else
      var v := Visit(statuses, collections[0], answers[0], now);
      if v.failed then v else VisitAll(v.statuses, collections[1..], answers[1..], now)
  }

  // ----- one backup -----

  datatype Individual = Individual(
    startTime: Option<int>, statuses: seq<CollectionStatus>, finishTime: Option<int>,
    successful: Option<bool>, finished: bool)

  const NO_BACKUP := Individual(None, [], None, None, false)

  predicate AllFinished(statuses: seq<CollectionStatus>) {
    |statuses| > 0 && forall i :: 0 <= i < |statuses| ==> statuses[i].finished
  }

  predicate AllSuccessful(statuses: seq<CollectionStatus>) {
    |statuses| > 0 && forall i :: 0 <= i < |statuses| ==> statuses[i].successful == Some(true)
  }

  function Summed(b: Individual): Individual {
    b.(finished := AllFinished(b.statuses),
       successful :=
         if AllFinished(b.statuses) && b.successful.None? then Some(AllSuccessful(b.statuses)) else b.successful)
  }

  /** What a reconcile meets outside: whether it can prepare, the requested collections, and Solr's answers. */
  datatype Surroundings = Surroundings(
    cloudFails: bool, noRepository: bool, prepareFails: bool, listFails: bool,
    collections: seq<string>, answers: seq<Answer>, now: int)
  {
    predicate Valid() {
      |answers| == |collections|
    }
  }

  datatype Worked = Worked(backup: Individual, failed: bool)

  /** The work on a backup that is not finished. */
  function Work(b: Individual, s: Surroundings): Worked
    requires s.Valid()
  {
    if s.cloudFails then Worked(b, true)
    else
      var b1 := Summed(b);
      if b1.finished then Worked(b1, false)
      else if s.noRepository || (b1.startTime.None? && s.prepareFails) then Worked(b1, true)
      else
        var b2 := if b1.startTime.None? then b1.(startTime := Some(s.now)) else b1;
        var v := VisitAll(b2.statuses, s.collections, s.answers, s.now);
        Worked(Summed(b2.(statuses := v.statuses)), if s.collections == [] then s.listFails else v.failed)
  }

  // ----- recurring backups -----

  datatype Recurrence = Recurrence(enabled: bool, maxSaved: nat)

  datatype Status = Status(current: Individual, next: Option<int>, history: seq<Individual>)

  /** It is time to start the next backup: the current one is finished and moves to the history. */
  predicate Rotates(st: Status, r: Recurrence, now: int) {
    st.current.finished && st.next.Some? && r.enabled && st.next.value < now
  }

  function Take<T>(s: seq<T>, n: nat): seq<T> {
    if |s| > n then s[..n] else s
  }

  function Turned(st: Status, r: Recurrence, now: int): Status {
    if Rotates(st, r, now) then Status(NO_BACKUP, None, Take([st.current] + st.history, r.maxSaved))
    else if st.current.finished && st.next.Some? && !r.enabled then st.(next := None)
    else st
  }

  /** The current backup after the work of a reconcile, with its finish time. */
  function Advanced(b: Individual, s: Surroundings): Individual
    requires s.Valid()
  {
    if b.finished then b
    else
      var w := Work(b, s);
      if !w.failed && w.backup.finished then w.backup.(finishTime := Some(s.now)) else w.backup
  }

  function Reconciled(st: Status, r: Recurrence, s: Surroundings, schedule: Option<int> -> Option<int>): Status
    requires s.Valid()
  {
    var t := Turned(st, r, s.now);
    var b := Advanced(t.current, s);
    var due := schedule(b.startTime);
    Status(b, if b.finished && r.enabled && due.Some? then due else t.next, t.history)
  }

  // ----- the controller -----

  class SolrBackup {
    var startTime: Option<int>
    var statuses: seq<CollectionStatus>
    var finishTime: Option<int>
    var successful: Option<bool>
    var finished: bool
    var next: Option<int>
    var history: seq<Individual>

    constructor ()
      ensures View() == Status(NO_BACKUP, None, [])
    {
      startTime, statuses, finishTime, successful, finished := None, [], None, None, false;
      next, history := None, [];
    }

    function Current(): Individual
      reads this
    {
      Individual(startTime, statuses, finishTime, successful, finished)
    }

    function View(): Status
      reads this
    {
      Status(Current(), next, history)
    }

    method UpdateStatusOfCollectionBackups() returns (allFinished: bool)
      modifies this`finished, this`successful
      ensures Current() == Summed(old(Current()))
      ensures allFinished == finished
    {
      allFinished := |statuses| > 0;
      var allSuccessful := |statuses| > 0;
      for i := 0 to |statuses|
        invariant allFinished <==> |statuses| > 0 && forall j :: 0 <= j < i ==> statuses[j].finished
        invariant allSuccessful <==> |statuses| > 0 && forall j :: 0 <= j < i ==> statuses[j].successful == Some(true)
        invariant unchanged(this)
      {
        allFinished := allFinished && statuses[i].finished;
        allSuccessful := allSuccessful && statuses[i].successful.Some? && statuses[i].successful.value;
      }
      finished := allFinished;
      if allFinished && successful.None? {
        successful := Some(allSuccessful);
      }
    }

    /** Starts or checks the backup of one collection. */
    method ReconcileCollection(collection: string, a: Answer, now: int) returns (failed: bool)
      modifies this`statuses
      ensures Visited(statuses, failed) == Visit(old(statuses), collection, a, now)
    {
      var c, index := NewStatus(collection), |statuses|;
      for i := 0 to |statuses|
        invariant 0 <= index && (index == |statuses| || index < i)
        invariant index < |statuses| ==> c == statuses[index] && c.collection == collection
        invariant index == |statuses| ==> c == NewStatus(collection)
        invariant forall j :: 0 <= j < i && (j > index || index == |statuses|) ==> statuses[j].collection != collection
        invariant unchanged(this)
      {
        if statuses[i].collection == collection {
          c, index := statuses[i], i;
        }
      }
      failed := false;
      if c.finished {
        return;
      } else if !c.inProgress {
        if a.startFails {
          return true;
        }
        c := c.(inProgress := a.started);
        if a.started && c.startTime.None? {
          c := c.(startTime := Some(now));
        }
      } else {
        if a.checkFails {
          return true;
        }
        var done := a.asyncStatus == "completed" || a.asyncStatus == "failed";
        c := c.(finished := done);
        if done {
          c := c.(inProgress := false);
          if c.successful.None? {
            c := c.(successful := Some(a.asyncStatus == "completed"));
          }
          c := c.(asyncStatus := "");
          if c.finishTime.None? {
            c := c.(finishTime := Some(now));
          }
          failed := a.cleanupFails;
        } else {
          c := c.(asyncStatus := a.asyncStatus);
        }
      }
      if index == |statuses| {
        statuses := statuses + [c];
      } else {
        statuses := statuses[index := c];
      }
    }

    method ReconcileCloudBackup(s: Surroundings) returns (failed: bool)
      requires s.Valid()
      modifies this`startTime, this`statuses, this`finished, this`successful
      ensures Worked(Current(), failed) == Work(old(Current()), s)
    {
      hide Visit, Summed;
      if s.cloudFails {
        return true;
      }
      var done := UpdateStatusOfCollectionBackups();
      if done {
        return false;
      }
      if s.noRepository {
        return true;
      }
      if startTime.None? {
        if s.prepareFails {
          return true;
        }
        startTime := Some(s.now);
      }
      failed := s.listFails;  // the error of a listing lasts only if it names no collection
      ghost var before := Current();
      var i, stopped := 0, false;
      while i < |s.collections| && !stopped
        invariant 0 <= i <= |s.collections|
        invariant failed == if i == 0 then s.listFails else stopped
        invariant i == 0 ==> !stopped
        invariant Current() == before.(statuses := statuses)
        invariant VisitAll(before.statuses, s.collections, s.answers, s.now) ==
                  if stopped then Visited(statuses, true)
                  else VisitAll(statuses, s.collections[i..], s.answers[i..], s.now)
      {
        failed := ReconcileCollection(s.collections[i], s.answers[i], s.now);
        stopped := failed;
        i := i + 1;
      }
      done := UpdateStatusOfCollectionBackups();
    }

    /** One reconcile, up to the patch of the status at its end. */
    method Reconcile(r: Recurrence, s: Surroundings, schedule: Option<int> -> Option<int>)
      requires s.Valid()
      modifies this
      ensures View() == Reconciled(old(View()), r, s, schedule)
    {
      hide Work;
      var doBackupWork := !finished;
      if !doBackupWork && next.Some? {
        if !r.enabled {
          next := None;
        } else if next.value < s.now {
          doBackupWork := true;
          next := None;
          history := [Current()] + history;
          if |history| > r.maxSaved {
            history := history[..r.maxSaved];
          }
          startTime, statuses, finishTime, successful, finished := None, [], None, None, false;
        }
      }
      if doBackupWork {
        var failed := ReconcileCloudBackup(s);
        if !failed && finished {
          finishTime := Some(s.now);
        }
      }
      if finished && r.enabled {
        var due := schedule(startTime);
        if due.Some? && (next.None? || due.value != next.value) {
          next := due;
        }
      }
    }
  }

  // ----- collections only move forward -----

  ghost predicate UniqueCollections(statuses: seq<CollectionStatus>) {
    forall i, j :: 0 <= i < j < |statuses| ==> statuses[i].collection != statuses[j].collection
  }

  function StatusOf(statuses: seq<CollectionStatus>, collection: string): CollectionStatus {
    var i := LastIndex(statuses, collection);
    if i < |statuses| then statuses[i] else NewStatus(collection)
  }

  predicate Recorded(statuses: seq<CollectionStatus>, collection: string) {
    LastIndex(statuses, collection) < |statuses|
  }

  /** Not started, in progress or finished. */
  function Stage(c: CollectionStatus): nat {
    if c.finished then 2 else if c.inProgress then 1 else 0
  }

  /**
    Finished statuses have a result and a finish time and are not in progress, no others have a result or a
    finish time, and what is in progress or finished has a start time.
   */
  predicate IsProper(c: CollectionStatus) {
    && (c.finished ==> !c.inProgress) && (c.inProgress || c.finished ==> c.startTime.Some?)
    && (c.successful.Some? <==> c.finished) && (c.finishTime.Some? <==> c.finished)
  }

  ghost predicate Proper(statuses: seq<CollectionStatus>) {
    UniqueCollections(statuses) && forall i :: 0 <= i < |statuses| ==> IsProper(statuses[i])
  }

  /** A later status of the same collection. */
  predicate IsLater(c: CollectionStatus, c': CollectionStatus) {
    && c'.collection == c.collection && Stage(c) <= Stage(c')
    && (c.finished ==> c' == c)
    && (c.startTime.Some? ==> c'.startTime == c.startTime)
  }

  ghost predicate Forward(a: seq<CollectionStatus>, b: seq<CollectionStatus>) {
    forall c :: IsLater(StatusOf(a, c), StatusOf(b, c)) && (Recorded(a, c) ==> Recorded(b, c))
  }

  lemma PutAt(statuses: seq<CollectionStatus>, c: CollectionStatus, d: string)
    requires UniqueCollections(statuses)
    ensures var after := Put(statuses, LastIndex(statuses, c.collection), c);
            && UniqueCollections(after)
            && StatusOf(after, d) == (if d == c.collection then c else StatusOf(statuses, d))
            && (Recorded(after, d) <==> Recorded(statuses, d) || d == c.collection)
  {
    hide LastIndex;
    var k := LastIndex(statuses, c.collection);
    var after := Put(statuses, k, c);
    assert after[k] == c;
    assert forall i :: 0 <= i < |statuses| && i != k ==> after[i] == statuses[i];
    var i := LastIndex(statuses, d);
    if d != c.collection && i < |statuses| {
      assert after[i].collection == d;
    }
  }

  lemma UniqueStatus(statuses: seq<CollectionStatus>, i: nat)
    requires UniqueCollections(statuses) && i < |statuses|
    ensures StatusOf(statuses, statuses[i].collection) == statuses[i]
  {
    hide LastIndex;
  }

  lemma ProperStatus(statuses: seq<CollectionStatus>, collection: string)
    requires Proper(statuses)
    ensures IsProper(StatusOf(statuses, collection)) && StatusOf(statuses, collection).collection == collection
  {
    hide LastIndex;
  }

  lemma ProperFromStatuses(statuses: seq<CollectionStatus>)
    requires UniqueCollections(statuses) && forall c :: IsProper(StatusOf(statuses, c))
    ensures Proper(statuses)
  {
    forall i | 0 <= i < |statuses| ensures IsProper(statuses[i]) {
      UniqueStatus(statuses, i);
    }
  }

  lemma PutForward(statuses: seq<CollectionStatus>, c: CollectionStatus)
    requires Proper(statuses) && IsProper(c) && IsLater(StatusOf(statuses, c.collection), c)
    ensures var after := Put(statuses, LastIndex(statuses, c.collection), c);
            Proper(after) && Forward(statuses, after)
            && forall d :: Recorded(after, d) <==> Recorded(statuses, d) || d == c.collection
  {
    hide LastIndex, StatusOf, Recorded, UniqueCollections;
    var after := Put(statuses, LastIndex(statuses, c.collection), c);
    PutAt(statuses, c, c.collection);
    forall d
      ensures StatusOf(after, d) == if d == c.collection then c else StatusOf(statuses, d)
      ensures Recorded(after, d) <==> Recorded(statuses, d) || d == c.collection
      ensures IsProper(StatusOf(after, d)) && IsLater(StatusOf(statuses, d), StatusOf(after, d))
    {
      PutAt(statuses, c, d);
      ProperStatus(statuses, d);
    }
    ProperFromStatuses(after);
  }

  /** One visit moves the collection forward and touches no other. A start that fails records nothing. */
  lemma VisitForward(statuses: seq<CollectionStatus>, collection: string, a: Answer, now: int)
    requires Proper(statuses)
    ensures var v := Visit(statuses, collection, a, now);
            Proper(v.statuses) && Forward(statuses, v.statuses)
            && forall d :: Recorded(v.statuses, d) <==> Recorded(statuses, d) || (d == collection && !a.startFails)
    ensures !Visit(statuses, collection, a, now).failed ==>
            Recorded(Visit(statuses, collection, a, now).statuses, collection)
  {
    hide LastIndex, Proper;
    var c := StatusOf(statuses, collection);
    ProperStatus(statuses, collection);
    ForwardReflexive(statuses);
    if !c.finished && !c.inProgress && !a.startFails {
      PutForward(statuses, Started(c, a, now));
    } else if c.inProgress && !c.finished && !a.checkFails {
      PutForward(statuses, Checked(c, a, now));
    }
  }

  lemma ForwardReflexive(a: seq<CollectionStatus>)
    ensures Forward(a, a)
  {
  }

  lemma ForwardTransitive(a: seq<CollectionStatus>, b: seq<CollectionStatus>, c: seq<CollectionStatus>)
    requires Forward(a, b) && Forward(b, c)
    ensures Forward(a, c)
  {
    hide StatusOf, Recorded;
    forall d ensures IsLater(StatusOf(a, d), StatusOf(c, d)) && (Recorded(a, d) ==> Recorded(c, d)) {
      assert IsLater(StatusOf(a, d), StatusOf(b, d)) && IsLater(StatusOf(b, d), StatusOf(c, d));
    }
  }

  /** The loop gets to the collection, and Solr answers the call that would start its backup. */
  predicate ReachesStart(
    statuses: seq<CollectionStatus>, collections: seq<string>, answers: seq<Answer>, now: int, collection: string)
    requires |answers| == |collections|
    decreases collections
  {
    && collections != []
    && (|| (collections[0] == collection && !answers[0].startFails)
        || (var v := Visit(statuses, collections[0], answers[0], now);
            !v.failed && ReachesStart(v.statuses, collections[1..], answers[1..], now, collection)))
  }

  lemma {:induction false} VisitAllForward(
    statuses: seq<CollectionStatus>, collections: seq<string>, answers: seq<Answer>, now: int, d: string)
    requires |answers| == |collections| && Proper(statuses)
    ensures var v := VisitAll(statuses, collections, answers, now);
            && Proper(v.statuses) && Forward(statuses, v.statuses)
            && (Recorded(v.statuses, d) <==>
                  Recorded(statuses, d) || ReachesStart(statuses, collections, answers, now, d))
            && (!v.failed && d in collections ==> Recorded(v.statuses, d))
    decreases collections
  {
    hide Visit, Proper, Forward, Recorded;
    if collections == [] {
      ForwardReflexive(statuses);
    } else {
      var v := Visit(statuses, collections[0], answers[0], now);
      VisitForward(statuses, collections[0], answers[0], now);
      if !v.failed {
        VisitAllForward(v.statuses, collections[1..], answers[1..], now, d);
        var w := VisitAll(v.statuses, collections[1..], answers[1..], now);
        ForwardTransitive(statuses, v.statuses, w.statuses);
        ForwardKeepsRecorded(v.statuses, w.statuses, collections[0]);
        assert collections == [collections[0]] + collections[1..];
      }
    }
  }

  lemma ForwardKeepsRecorded(a: seq<CollectionStatus>, b: seq<CollectionStatus>, d: string)
    requires Forward(a, b) && Recorded(a, d)
    ensures Recorded(b, d)
  {
    assert IsLater(StatusOf(a, d), StatusOf(b, d));
  }

  // ----- a backup is finished once, and then left alone -----

  ghost predicate Consistent(b: Individual) {
    && Proper(b.statuses)
    && b.finished == AllFinished(b.statuses)
    && b.successful == (if b.finished then Some(AllSuccessful(b.statuses)) else None)
    && (b.statuses != [] ==> b.startTime.Some?)
  }

  /** The reconcile gets to the loop over the collections. */
  predicate LoopRuns(b: Individual, s: Surroundings) {
    !b.finished && !s.cloudFails && !s.noRepository && !(b.startTime.None? && s.prepareFails)
  }

  lemma AdvancedForward(b: Individual, s: Surroundings, d: string)
    requires Consistent(b) && s.Valid()
    ensures Consistent(Advanced(b, s)) && Forward(b.statuses, Advanced(b, s).statuses)
    ensures b.startTime.Some? ==> Advanced(b, s).startTime == b.startTime
    ensures Recorded(Advanced(b, s).statuses, d) <==>
              || Recorded(b.statuses, d)
              || (LoopRuns(b, s) && ReachesStart(b.statuses, s.collections, s.answers, s.now, d))
    ensures LoopRuns(b, s) && !Work(b, s).failed && d in s.collections ==> Recorded(Advanced(b, s).statuses, d)
  {
    hide Proper, Forward, Recorded, VisitAll, AllSuccessful;
    ForwardReflexive(b.statuses);
    assert !b.finished ==> Summed(b) == b;
    if LoopRuns(b, s) {
      VisitAllForward(b.statuses, s.collections, s.answers, s.now, d);
    }
  }

  // ----- every run -----

  /** One reconcile: what it meets, and whether its status patch is accepted. */
  datatype Input = Input(r: Recurrence, s: Surroundings, schedule: Option<int> -> Option<int>, patchOk: bool)

  function Step(st: Status, e: Input): Status
    requires e.s.Valid()
  {
    if e.patchOk then Reconciled(st, e.r, e.s, e.schedule) else st
  }

  ghost predicate BackupRun(states: seq<Status>, inputs: seq<Input>) {
    && |states| == |inputs| + 1
    && (forall i :: 0 <= i < |inputs| ==> inputs[i].s.Valid())
    && forall i :: 0 <= i < |inputs| ==> states[i + 1] == Step(states[i], inputs[i])
  }

  /** The reconcile moves the current backup to the stored history: it is finished, and the next one is due. */
  predicate RotatesAt(st: Status, e: Input) {
    e.patchOk && st.current.finished && e.r.enabled && st.next.Some? && st.next.value < e.s.now
  }

  const NEW_BACKUP := Status(NO_BACKUP, None, [])

  lemma FreshIsConsistent()
    ensures Consistent(NO_BACKUP)
  {
  }

  lemma StepConsistent(st: Status, e: Input)
    requires Consistent(st.current) && e.s.Valid()
    ensures Consistent(Step(st, e).current)
    ensures Step(st, e).history ==
            if RotatesAt(st, e) then Take([st.current] + st.history, e.r.maxSaved) else st.history
  {
    hide Consistent, Advanced;
    FreshIsConsistent();
    AdvancedForward(Turned(st, e.r, e.s.now).current, e.s, "");
  }

  /**
    In every run the current backup is consistent: its collections are unique, it is finished exactly
    if it has collections and all are, and its result says whether all were successful.
   */
  lemma {:induction false} RunConsistent(states: seq<Status>, inputs: seq<Input>, i: nat)
    requires BackupRun(states, inputs) && states[0] == NEW_BACKUP && i < |states|
    ensures Consistent(states[i].current)
  {
    hide Consistent, Step;
    if i == 0 {
      FreshIsConsistent();
    } else {
      RunConsistent(states, inputs, i - 1);
      StepConsistent(states[i - 1], inputs[i - 1]);
    }
  }

  /** The backups that the first `i` reconciles moved to the history, newest first. */
  ghost function Rotated(states: seq<Status>, inputs: seq<Input>, i: nat): seq<Individual>
    requires i < |states| && i <= |inputs|
  {
    if i == 0 then []
    else
      (if RotatesAt(states[i - 1], inputs[i - 1]) then [states[i - 1].current] else []) + Rotated(states, inputs, i - 1)
  }

  lemma TakeAfterPut<T>(x: T, s: seq<T>, n: nat)
    ensures Take([x] + Take(s, n), n) == Take([x] + s, n)
  {
  }

  ghost predicate AllDone(backups: seq<Individual>) {
    forall k :: 0 <= k < |backups| ==> backups[k].finished && Consistent(backups[k])
  }

  lemma TakeDone(b: Individual, backups: seq<Individual>, n: nat)
    requires AllDone(backups) && b.finished && Consistent(b)
    ensures AllDone(Take([b] + backups, n))
  {
    hide Consistent;
  }

  /** Whatever the limits were, every backup in the history is finished and consistent. */
  lemma {:induction false} HistoryIsDone(states: seq<Status>, inputs: seq<Input>, i: nat)
    requires BackupRun(states, inputs) && states[0] == NEW_BACKUP && i < |states|
    ensures AllDone(states[i].history)
  {
    hide Consistent, Step, AllDone, Take;
    if i == 0 {
      assert AllDone([]) by { NothingDone(); }
    } else {
      HistoryIsDone(states, inputs, i - 1);
      RunConsistent(states, inputs, i - 1);
      StepConsistent(states[i - 1], inputs[i - 1]);
      if RotatesAt(states[i - 1], inputs[i - 1]) {
        TakeDone(states[i - 1].current, states[i - 1].history, inputs[i - 1].r.maxSaved);
      }
    }
  }

  lemma NothingDone()
    ensures AllDone([])
  {
  }

  /**
    With a fixed limit, the history is the newest of all the backups that were moved to it, up to the
    limit and newest first.
   */
  lemma HistoryIsNewest(states: seq<Status>, inputs: seq<Input>, maxSaved: nat, i: nat)
    requires BackupRun(states, inputs) && states[0] == NEW_BACKUP && i < |states|
    requires forall j :: 0 <= j < |inputs| ==> inputs[j].r.maxSaved == maxSaved
    ensures var rotated := Rotated(states, inputs, i);
            states[i].history == if |rotated| <= maxSaved then rotated else rotated[..maxSaved]
  {
    HistoryIsTaken(states, inputs, maxSaved, i);
  }

  lemma {:induction false} HistoryIsTaken(states: seq<Status>, inputs: seq<Input>, maxSaved: nat, i: nat)
    requires BackupRun(states, inputs) && states[0] == NEW_BACKUP && i < |states|
    requires forall j :: 0 <= j < |inputs| ==> inputs[j].r.maxSaved == maxSaved
    ensures states[i].history == Take(Rotated(states, inputs, i), maxSaved)
  {
    hide Consistent, Step, Take;
    if i == 0 {
      assert Take<Individual>([], maxSaved) == [] by { TakeNothing(maxSaved); }
    } else {
      HistoryIsTaken(states, inputs, maxSaved, i - 1);
      RunConsistent(states, inputs, i - 1);
      StepConsistent(states[i - 1], inputs[i - 1]);
      TakeAfterPut(states[i - 1].current, Rotated(states, inputs, i - 1), maxSaved);
      assert !RotatesAt(states[i - 1], inputs[i - 1]) ==> Rotated(states, inputs, i) == Rotated(states, inputs, i - 1);
    }
  }

  lemma TakeNothing(n: nat)
    ensures Take<Individual>([], n) == []
  {
  }

  lemma StepForward(st: Status, e: Input)
    requires Consistent(st.current) && e.s.Valid() && !RotatesAt(st, e)
    ensures Forward(st.current.statuses, Step(st, e).current.statuses)
    ensures st.current.finished ==> Step(st, e).current == st.current
  {
    hide Consistent, Advanced, Forward;
    ForwardReflexive(st.current.statuses);
    AdvancedForward(st.current, e.s, "");
    if st.current.finished {
      FinishedStays(st.current, e.s);
    }
  }

  lemma FinishedStays(b: Individual, s: Surroundings)
    requires b.finished && s.Valid()
    ensures Advanced(b, s) == b
  {
  }

  /**
    Until the backup is moved to the history, each collection only goes from not started over in
    progress to finished, what is finished does not change, and neither does a finished backup.
   */
  lemma {:induction false} CollectionsMoveForward(states: seq<Status>, inputs: seq<Input>, i: nat, j: nat)
    requires BackupRun(states, inputs) && states[0] == NEW_BACKUP && i <= j < |states|
    requires forall k :: i <= k < j ==> !RotatesAt(states[k], inputs[k])
    ensures Forward(states[i].current.statuses, states[j].current.statuses)
    ensures states[i].current.finished ==> states[j].current == states[i].current
  {
    hide Consistent, Step, Forward;
    if i == j {
      ForwardReflexive(states[i].current.statuses);
    } else {
      CollectionsMoveForward(states, inputs, i, j - 1);
      RunConsistent(states, inputs, j - 1);
      StepForward(states[j - 1], inputs[j - 1]);
      ForwardTransitive(states[i].current.statuses, states[j - 1].current.statuses, states[j].current.statuses);
    }
  }

  // ----- what a finished backup holds -----

  /** The backup that the reconcile works on, after a possible move to the history. */
  function At(st: Status, e: Input): Individual {
    Turned(st, e.r, e.s.now).current
  }

  /** This reconcile gets to the collection, and Solr answers the call that would start its backup. */
  predicate Starts(st: Status, e: Input, collection: string)
    requires e.s.Valid()
  {
    && e.patchOk && LoopRuns(At(st, e), e.s)
    && ReachesStart(At(st, e).statuses, e.s.collections, e.s.answers, e.s.now, collection)
  }

  /** A backup that begins with reconcile `i` and is still current in state `j`. */
  ghost predicate BackupOf(states: seq<Status>, inputs: seq<Input>, i: nat, j: nat) {
    && BackupRun(states, inputs) && states[0] == NEW_BACKUP && i < j < |states|
    && inputs[i].patchOk && At(states[i], inputs[i]) == NO_BACKUP
    && forall k :: i < k < j ==> !RotatesAt(states[k], inputs[k])
  }

  lemma StepRecords(st: Status, e: Input, d: string)
    requires Consistent(st.current) && e.s.Valid() && e.patchOk
    ensures Recorded(Step(st, e).current.statuses, d) <==> Recorded(At(st, e).statuses, d) || Starts(st, e, d)
    ensures LoopRuns(At(st, e), e.s) && !Work(At(st, e), e.s).failed && d in e.s.collections ==>
              Recorded(Step(st, e).current.statuses, d)
  {
    hide Consistent, Advanced, Recorded, Work, LoopRuns, ReachesStart;
    FreshIsConsistent();
    AdvancedForward(At(st, e), e.s, d);
  }

  lemma {:induction false} RecordedExactly(states: seq<Status>, inputs: seq<Input>, i: nat, j: nat, d: string)
    requires BackupOf(states, inputs, i, j)
    ensures Recorded(states[j].current.statuses, d) <==> exists k :: i <= k < j && Starts(states[k], inputs[k], d)
  {
    hide Consistent, Step, Recorded, Starts;
    RunConsistent(states, inputs, j - 1);
    if inputs[j - 1].patchOk {
      StepRecords(states[j - 1], inputs[j - 1], d);
    } else {
      assert !Starts(states[j - 1], inputs[j - 1], d) by { NoPatchNoStart(states[j - 1], inputs[j - 1], d); }
      assert states[j] == states[j - 1] by { NoPatchNoStart(states[j - 1], inputs[j - 1], d); }
    }
    if j - 1 == i {
      assert !Recorded(NO_BACKUP.statuses, d) by { NothingRecorded(d); }
    } else {
      RecordedExactly(states, inputs, i, j - 1, d);
    }
  }

  lemma NothingRecorded(d: string)
    ensures !Recorded(NO_BACKUP.statuses, d)
  {
  }

  lemma NoPatchNoStart(st: Status, e: Input, d: string)
    requires e.s.Valid() && !e.patchOk
    ensures !Starts(st, e, d) && Step(st, e) == st
  {
  }

  lemma RecordedIsFinished(b: Individual, d: string)
    requires Consistent(b) && b.finished
    ensures StatusOf(b.statuses, d).finished <==> Recorded(b.statuses, d)
  {
  }

  /**
    A finished backup holds a finished backup of a collection exactly if one of its reconciles got to
    the collection and Solr answered the start call. A requested collection for which that never
    happened does not keep the backup from finishing.
   */
  lemma FinishedHoldsExactly(states: seq<Status>, inputs: seq<Input>, i: nat, j: nat, d: string)
    requires BackupOf(states, inputs, i, j) && states[j].current.finished
    ensures StatusOf(states[j].current.statuses, d).finished <==>
            exists k :: i <= k < j && Starts(states[k], inputs[k], d)
  {
    hide StatusOf, Starts, Consistent, Recorded;
    RunConsistent(states, inputs, j);
    RecordedIsFinished(states[j].current, d);
    RecordedExactly(states, inputs, i, j, d);
  }

  /** If one reconcile got through its collections without an error, a finished backup holds all of them. */
  lemma FinishedAfterCleanPass(states: seq<Status>, inputs: seq<Input>, i: nat, j: nat, k: nat, d: string)
    requires BackupOf(states, inputs, i, j) && states[j].current.finished && i <= k < j
    requires var e, b := inputs[k], At(states[k], inputs[k]);
             e.patchOk && LoopRuns(b, e.s) && !Work(b, e.s).failed && d in e.s.collections
    ensures StatusOf(states[j].current.statuses, d).finished
  {
    hide StatusOf, Starts, Consistent, Recorded, Work, LoopRuns, Step;
    RunConsistent(states, inputs, k);
    StepRecords(states[k], inputs[k], d);
    CollectionsMoveForward(states, inputs, k + 1, j);
    ForwardKeepsRecorded(states[k + 1].current.statuses, states[j].current.statuses, d);
    RunConsistent(states, inputs, j);
    RecordedIsFinished(states[j].current, d);
  }

  /** Two reconciles in which the start of the second collection fails finish a backup of the first alone. */
  lemma FinishedTooEarly()
    ensures var starts := Surroundings(false, false, false, false, ["a", "b"],
                                       [Answer(false, true, false, "", false),
                                        Answer(true, false, false, "", false)], 1);
            var ends := Surroundings(false, false, false, false, ["a", "b"],
                                     [Answer(false, true, false, "completed", false),
                                      Answer(true, false, false, "", false)], 2);
            var b := Advanced(Advanced(NO_BACKUP, starts), ends);
            b.finished && b.successful == Some(true) && b.finishTime.None? && !Recorded(b.statuses, "b")
  {
    var x, y := Answer(false, true, false, "", false), Answer(true, false, false, "", false);
    var z := Answer(false, true, false, "completed", false);
    var a1 := NewStatus("a").(inProgress := true, startTime := Some(1));
    var a2 := Checked(a1, z, 2);
    PairVisited([], "a", "b", x, y, 1);
    assert Visit([], "a", x, 1) == Visited([a1], false);
    assert Visit([a1], "b", y, 1) == Visited([a1], true) by { assert LastIndex([a1], "b") == 1; }
    PairVisited([a1], "a", "b", z, y, 2);
    assert Visit([a1], "a", z, 2) == Visited([a2], false) by { assert LastIndex([a1], "a") == 0; }
    assert Visit([a2], "b", y, 2) == Visited([a2], true) by { assert LastIndex([a2], "b") == 1; }
  }

  lemma PairVisited(statuses: seq<CollectionStatus>, a: string, b: string, x: Answer, y: Answer, now: int)
    ensures VisitAll(statuses, [a, b], [x, y], now) ==
            var v := Visit(statuses, a, x, now);
            if v.failed then v else Visit(v.statuses, b, y, now)
  {
    var v := Visit(statuses, a, x, now);
    assert [a, b][1..] == [b] && [x, y][1..] == [y];
    assert [b][1..] == [] && [y][1..] == [];
    assert VisitAll(v.statuses, [b], [y], now) == Visit(v.statuses, b, y, now);
  }
}
