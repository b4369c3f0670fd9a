/**
  Runs of a recurring backup: when a new backup begins, when the next one is scheduled for, that none starts
  before its time, and that the result of every collection is the one that Solr reported.
 */
module BackupRuns {
  import opened Prelude
  import opened Backup

  // ----- when a backup is replaced -----

  /**
    A reconcile whose patch is accepted replaces a finished backup exactly if it is due, and then the new one
    is what the reconcile makes of an empty status. Otherwise a finished backup stays.
   */
  lemma RotationExactly(st: Status, e: Input)
    requires e.s.Valid() && st.current.finished
    ensures var st' := Step(st, e);
            if e.patchOk && e.r.enabled && st.next.Some? && st.next.value < e.s.now then
              && st'.current == Step(Status(Individual(None, [], None, None, false), None, []), e).current
              && st'.history == (if |st.history| < e.r.maxSaved then [st.current] + st.history
                                 else ([st.current] + st.history)[..e.r.maxSaved])
            else
              st'.current == st.current && st'.history == st.history
  {
    FinishedStays(st.current, e.s);
    hide Advanced;
  }

  /** When the next backup is scheduled for after a reconcile whose patch is accepted. */
  lemma NextExactly(st: Status, e: Input)
    requires e.s.Valid() && e.patchOk
    ensures var st' := Step(st, e);
            st'.next ==
            if st'.current.finished && e.r.enabled && e.schedule(st'.current.startTime).Some? then
              e.schedule(st'.current.startTime)
            else if st.current.finished && st.next.Some? && (!e.r.enabled || st.next.value < e.s.now) then
              None
            else
              st.next
  {
    hide Advanced;
  }

  lemma StartStamp(b: Individual, s: Surroundings)
    requires Consistent(b) && s.Valid()
    ensures var b' := Advanced(b, s);
            b'.startTime == b.startTime || (b.startTime.None? && b'.startTime == Some(s.now))
  {
    hide Consistent, VisitAll, AllFinished, AllSuccessful;
  }

  /** A reconcile stamps the backup it works on with its own time, unless it started before. */
  lemma StepStamp(st: Status, e: Input)
    requires Consistent(st.current) && e.s.Valid()
    ensures var start := Step(st, e).current.startTime;
            if RotatesAt(st, e) then start in {None, Some(e.s.now)}
            else start == st.current.startTime || (st.current.startTime.None? && start == Some(e.s.now))
  {
    hide Consistent, Advanced;
    FreshIsConsistent();
    StartStamp(At(st, e), e.s);
  }

  /**
    In every run, a reconcile with an accepted patch replaces a finished backup by another one exactly if
    recurrence is enabled and the scheduled time is over, unless the backup started at this very time.
   */
  lemma RunRotatesExactly(states: seq<Status>, inputs: seq<Input>, i: nat)
    requires BackupRun(states, inputs) && states[0] == NEW_BACKUP && i < |inputs|
    requires states[i].current.finished && states[i].current.startTime != Some(inputs[i].s.now)
    ensures states[i + 1].current != states[i].current <==>
              && inputs[i].patchOk && inputs[i].r.enabled
              && states[i].next.Some? && states[i].next.value < inputs[i].s.now
  {
    hide Step, Consistent;
    RunConsistent(states, inputs, i);
    FinishedHasStarted(states[i].current);
    StepStamp(states[i], inputs[i]);
    RotationExactly(states[i], inputs[i]);
  }

  lemma FinishedHasStarted(b: Individual)
    requires Consistent(b) && b.finished
    ensures b.startTime.Some?
  {
  }

  // ----- recurrence on schedule -----

  /** Recurrence is enabled throughout, with one schedule, and the clock does not run backwards. */
  ghost predicate RecursBy(inputs: seq<Input>, schedule: Option<int> -> Option<int>) {
    && (forall i :: 0 <= i < |inputs| ==> inputs[i].r.enabled && inputs[i].schedule == schedule)
    && (forall i, j :: 0 <= i <= j < |inputs| ==> inputs[i].s.now <= inputs[j].s.now)
  }

  /** A time is scheduled only while the current backup is finished, and it is the one its start time gives. */
  lemma {:induction false} ScheduledByStart(
    states: seq<Status>, inputs: seq<Input>, schedule: Option<int> -> Option<int>, i: nat)
    requires BackupRun(states, inputs) && states[0] == NEW_BACKUP && RecursBy(inputs, schedule) && i < |states|
    ensures states[i].next.Some? ==>
              states[i].current.finished && states[i].next == schedule(states[i].current.startTime)
    ensures i > 0 && inputs[i - 1].patchOk && states[i].current.finished ==>
              states[i].next == schedule(states[i].current.startTime)
  {
    hide Step;
    if i > 0 {
      ScheduledByStart(states, inputs, schedule, i - 1);
      var st, e := states[i - 1], inputs[i - 1];
      if e.patchOk {
        NextExactly(st, e);
        if st.current.finished {
          RotationExactly(st, e);
        }
      } else {
        NoPatchNoStart(st, e, "");
      }
    }
  }

  lemma {:induction false} StartsAfterRotation(states: seq<Status>, inputs: seq<Input>, i: nat, j: nat)
    requires BackupRun(states, inputs) && states[0] == NEW_BACKUP && i < j < |states|
    requires forall a, b :: 0 <= a <= b < |inputs| ==> inputs[a].s.now <= inputs[b].s.now
    requires RotatesAt(states[i], inputs[i]) && forall k :: i < k < j ==> !RotatesAt(states[k], inputs[k])
    ensures states[j].current.startTime.Some? ==> states[j].current.startTime.value >= inputs[i].s.now
  {
    hide Step, Consistent;
    RunConsistent(states, inputs, j - 1);
    StepStamp(states[j - 1], inputs[j - 1]);
    if i < j - 1 {
      StartsAfterRotation(states, inputs, i, j - 1);
    }
  }

  /**
    No backup starts before its time. In every run of a recurring backup, whatever fails in between, the
    backup that follows another one starts later than the schedule says for the start of that other one.
   */
  lemma StartsOnSchedule(
    states: seq<Status>, inputs: seq<Input>, schedule: Option<int> -> Option<int>, i: nat, j: nat)
    requires BackupRun(states, inputs) && states[0] == NEW_BACKUP && RecursBy(inputs, schedule) && i < j < |states|
    requires RotatesAt(states[i], inputs[i]) && forall k :: i < k < j ==> !RotatesAt(states[k], inputs[k])
    ensures var due, start := schedule(states[i].current.startTime), states[j].current.startTime;
            due.Some? && (start.Some? ==> due.value < start.value)
  {
    hide Step;
    ScheduledByStart(states, inputs, schedule, i);
    StartsAfterRotation(states, inputs, i, j);
  }

  // ----- one collection -----

  /**
    Exactly when a visit finishes a collection, starts it, or fails, and that it leaves all others alone. A
    backup that Solr reports as failed is finished like one that it reports as completed.
   */
  lemma VisitExactly(statuses: seq<CollectionStatus>, collection: string, a: Answer, now: int, d: string)
    requires Proper(statuses)
    ensures var v := Visit(statuses, collection, a, now);
            var c, c' := StatusOf(statuses, collection), StatusOf(v.statuses, collection);
            var ends := c.inProgress && !a.checkFails && a.asyncStatus in {"completed", "failed"};
            && (c'.finished <==> c.finished || ends)
            && (c'.inProgress <==>
                  !c.finished && !ends && (c.inProgress || (a.started && !a.startFails)))
            && (v.failed <==>
                  !c.finished
                  && if c.inProgress then a.checkFails || (ends && a.cleanupFails) else a.startFails)
            && (c'.startTime ==
                  if !c.finished && !c.inProgress && !a.startFails && a.started && c.startTime.None? then Some(now)
                  else c.startTime)
            && (d != collection ==> StatusOf(v.statuses, d) == StatusOf(statuses, d))
  {
    hide LastIndex;
    var c := StatusOf(statuses, collection);
    ProperStatus(statuses, collection);
    if !c.finished && !c.inProgress && !a.startFails {
      PutAt(statuses, Started(c, a, now), d);
      PutAt(statuses, Started(c, a, now), collection);
    } else if c.inProgress && !c.finished && !a.checkFails {
      PutAt(statuses, Checked(c, a, now), d);
      PutAt(statuses, Checked(c, a, now), collection);
    }
  }

  /** A backup gets its finish time from the reconcile that finishes it, unless a call of that reconcile fails. */
  lemma FinishTimeExactly(b: Individual, s: Surroundings)
    requires Consistent(b) && s.Valid()
    ensures var b' := Advanced(b, s);
            b'.finishTime ==
            if !b.finished && b'.finished && !VisitAll(b.statuses, s.collections, s.answers, s.now).failed
            then Some(s.now) else b.finishTime
  {
    hide Visit, AllSuccessful, Proper;
    assert !b.finished ==> Summed(b) == b;
  }

  // ----- results -----

  /** Solr reported the end of the collection's backup to this reconcile, and this became the status. */
  ghost predicate Reported(s: Surroundings, m: nat, c: CollectionStatus) {
    && s.Valid() && m < |s.collections| && s.collections[m] == c.collection && !s.answers[m].checkFails
    && s.answers[m].asyncStatus in {"completed", "failed"}
    && c.finished && c.successful == Some(s.answers[m].asyncStatus == "completed") && c.finishTime == Some(s.now)
  }

  lemma VisitReports(statuses: seq<CollectionStatus>, collection: string, a: Answer, now: int, d: string)
    requires Proper(statuses) && !StatusOf(statuses, d).finished
    requires StatusOf(Visit(statuses, collection, a, now).statuses, d).finished
    ensures var c := StatusOf(Visit(statuses, collection, a, now).statuses, d);
            && d == collection && !a.checkFails && a.asyncStatus in {"completed", "failed"}
            && c.collection == d && c.successful == Some(a.asyncStatus == "completed") && c.finishTime == Some(now)
  {
    hide LastIndex;
    var c := StatusOf(statuses, collection);
    ProperStatus(statuses, collection);
    if !c.finished && !c.inProgress && !a.startFails {
      PutAt(statuses, Started(c, a, now), d);
    } else if c.inProgress && !c.finished && !a.checkFails {
      PutAt(statuses, Checked(c, a, now), d);
    }
  }

  lemma {:induction false} VisitAllReports(statuses: seq<CollectionStatus>, s: Surroundings, from: nat, d: string)
    returns (m: nat)
    requires Proper(statuses) && s.Valid() && from <= |s.collections| && !StatusOf(statuses, d).finished
    requires StatusOf(VisitAll(statuses, s.collections[from..], s.answers[from..], s.now).statuses, d).finished
    ensures Reported(s, m, StatusOf(VisitAll(statuses, s.collections[from..], s.answers[from..], s.now).statuses, d))
    decreases |s.collections| - from
  {
    hide Visit, Proper, StatusOf;
    var rest, answers := s.collections[from..], s.answers[from..];
    var v := Visit(statuses, rest[0], answers[0], s.now);
    VisitForward(statuses, rest[0], answers[0], s.now);
    assert rest[1..] == s.collections[from + 1..] && answers[1..] == s.answers[from + 1..];
    if StatusOf(v.statuses, d).finished {
      VisitReports(statuses, rest[0], answers[0], s.now, d);
      if !v.failed {
        VisitAllForward(v.statuses, rest[1..], answers[1..], s.now, d);
        FinishedKept(v.statuses, VisitAll(v.statuses, rest[1..], answers[1..], s.now).statuses, d);
      }
      m := from;
    } else {
      m := VisitAllReports(v.statuses, s, from + 1, d);
    }
  }

  lemma FinishedKept(a: seq<CollectionStatus>, b: seq<CollectionStatus>, d: string)
    requires Forward(a, b) && StatusOf(a, d).finished
    ensures StatusOf(b, d) == StatusOf(a, d)
  {
    hide StatusOf;
    assert IsLater(StatusOf(a, d), StatusOf(b, d));
  }

  lemma AdvancedReports(b: Individual, s: Surroundings, d: string) returns (m: nat)
    requires Consistent(b) && s.Valid() && !StatusOf(b.statuses, d).finished
    requires StatusOf(Advanced(b, s).statuses, d).finished
    ensures Reported(s, m, StatusOf(Advanced(b, s).statuses, d))
  {
    hide VisitAll, StatusOf, Proper, AllSuccessful;
    assert !b.finished ==> Summed(b) == b;
    assert s.collections[0..] == s.collections && s.answers[0..] == s.answers;
    m := VisitAllReports(b.statuses, s, 0, d);
  }

  lemma NothingFinished(d: string)
    ensures !StatusOf(NO_BACKUP.statuses, d).finished
  {
  }

  /** The collection was finished by this reconcile, as Solr reported it, or was so before and stays as it was. */
  lemma StepReports(st: Status, e: Input, d: string) returns (m: nat)
    requires Consistent(st.current) && e.s.Valid() && StatusOf(Step(st, e).current.statuses, d).finished
    ensures || (e.patchOk && Reported(e.s, m, StatusOf(Step(st, e).current.statuses, d)))
            || (&& !RotatesAt(st, e) && StatusOf(st.current.statuses, d).finished
                && StatusOf(st.current.statuses, d) == StatusOf(Step(st, e).current.statuses, d))
  {
    hide Consistent, Advanced, StatusOf, Reported;
    m := 0;
    FreshIsConsistent();
    NothingFinished(d);
    if e.patchOk {
      if StatusOf(At(st, e).statuses, d).finished {
        AdvancedForward(At(st, e), e.s, d);
        FinishedKept(At(st, e).statuses, Advanced(At(st, e), e.s).statuses, d);
      } else {
        m := AdvancedReports(At(st, e), e.s, d);
      }
    }
  }

  /**
    The result of a collection is what Solr reported. In every run, a collection that is finished in the
    current backup was reported so to an earlier reconcile, completed or failed, and both its result and its
    finish time are those of that reconcile.
   */
  lemma {:induction false} ResultsComeFromSolr(states: seq<Status>, inputs: seq<Input>, j: nat, d: string)
    returns (k: nat, m: nat)
    requires BackupRun(states, inputs) && states[0] == NEW_BACKUP && j < |states|
    requires StatusOf(states[j].current.statuses, d).finished
    ensures k < j && inputs[k].patchOk && Reported(inputs[k].s, m, StatusOf(states[j].current.statuses, d))
    ensures forall i :: k < i < j ==> !RotatesAt(states[i], inputs[i])
  {
    hide Consistent, Step, StatusOf, Reported;
    NothingFinished(d);
    RunConsistent(states, inputs, j - 1);
    m := StepReports(states[j - 1], inputs[j - 1], d);
    if inputs[j - 1].patchOk && Reported(inputs[j - 1].s, m, StatusOf(states[j].current.statuses, d)) {
      k := j - 1;
    } else {
      k, m := ResultsComeFromSolr(states, inputs, j - 1, d);
    }
  }

  /**
    In every run, a backup is finished exactly if it has collections and all of them are, and it is then
    successful exactly if Solr reported every one of them as completed.
   */
  lemma RunResultExactly(states: seq<Status>, inputs: seq<Input>, i: nat)
    requires BackupRun(states, inputs) && states[0] == NEW_BACKUP && i < |states|
    ensures var b := states[i].current;
            && (b.finished <==> b.statuses != [] && forall c :: c in b.statuses ==> c.finished)
            && (b.successful.Some? <==> b.finished)
            && (b.finished ==>
                  (b.successful.value <==> forall c :: c in b.statuses ==> c.successful == Some(true)))
  {
    RunConsistent(states, inputs, i);
    hide Proper;
  }
}
