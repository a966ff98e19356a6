// Outcomes: what each step does to the job it is about, in the terms of the state: its row, execution, allocation record
// and open allocation rows. What becomes of its place in the queue follows, since the queue is that of the QUEUED rows.

module Outcomes {
  import opened Wrappers
  import opened Jobs
  import opened Quotas
  import opened JobQueue
  import opened Lifecycle
  import opened Runs

  /** Everything the step leaves alone. */
  ghost predicate OthersAsBefore(s: State, t: State, i: Id) {
    forall k :: k != i ==>
      && RowOf(t, k) == RowOf(s, k) && (k in t.active <==> k in s.active) && (k in s.active ==> t.active[k] == s.active[k])
      && (k in t.held <==> k in s.held) && (k in t.open <==> k in s.open)
  }

  /** The job itself is as before. */
  ghost predicate AsBefore(s: State, t: State, i: Id) {
    && RowOf(t, i) == RowOf(s, i) && (i in t.active <==> i in s.active) && (i in s.active ==> t.active[i] == s.active[i])
    && (i in t.held <==> i in s.held) && (i in t.open <==> i in s.open)
  }

  lemma PutMeans(s: State, i: Id, v: Slice, w: Slice)
    ensures OthersAsBefore(s, Put(s, i, v, w), i)
    ensures var t := Put(s, i, v, w);
      && RowOf(t, i) == w.row
      && (i in t.active <==> w.phase.Some?) && (w.phase.Some? ==> t.active[i] == w.phase.value)
      && (i in t.held <==> w.held) && (i in t.open <==> w.open)
  {
  }

  /** What a slice says of its job. */
  predicate Shows(s: State, i: Id, v: Slice) {
    && RowOf(s, i) == v.row && (i in s.active <==> v.phase.Some?) && (v.phase.Some? ==> s.active[i] == v.phase.value)
    && (i in s.held <==> v.held) && (i in s.open <==> v.open)
  }

  lemma SliceShows(s: State, i: Id, entry: multiset<Job>)
    ensures Shows(s, i, SliceOf(s, i, entry))
  {
  }

  lemma SameSlice(s: State, t: State, i: Id, v: Slice)
    requires Shows(s, i, v) && Shows(t, i, v)
    ensures AsBefore(s, t, i)
  {
  }

  /** The step of an action as the move of its job's slice. */
  lemma StepMeans(qt: QuotaTable, s: State, a: Action) returns (v: Slice, w: Slice)
    requires Inv(s) && !a.Restart? && Enabled(s, a)
    ensures Fits(v, Subject(a)) && Fits(w, Subject(a)) && (v.seen <==> Subject(a) in s.seen)
    ensures w == Move(v, a, if v.row.Some? then DepsStatus(s.rows, v.row.value.dependsOn) else Satisfied,
                      a.Scan? && Admits(qt, s.rows, a.least))
    ensures Shows(s, Subject(a), v) && Shows(Step(qt, s, a), Subject(a), w)
    ensures OthersAsBefore(s, Step(qt, s, a), Subject(a))
    ensures v == w ==> AsBefore(s, Step(qt, s, a), Subject(a))
  {
    v, w := SubjectSlice(s, a), Moved(qt, s, a);
    SubjectFits(s, a);
    MovedFits(qt, s, a);
    PutMeans(s, Subject(a), v, w);
    SliceShows(s, Subject(a), v.entry);
    hide Inv, Fits, Put, Entry, OthersAsBefore, Enabled, Move, DepsStatus, Admits, AsBefore;
    if v == w { SameSlice(s, Step(qt, s, a), Subject(a), v); }
  }

  /** A running job that is overdue fails; if nothing executes it any more its record and open rows go as well. */
  lemma TimeoutMeans(qt: QuotaTable, s: State, i: Id)
    requires Inv(s)
    ensures var t := Step(qt, s, Timeout(i));
      && OthersAsBefore(s, t, i)
      && (StatusOf(s.rows, i) != Some(Running) ==> AsBefore(s, t, i))
      && (StatusOf(s.rows, i) == Some(Running) ==>
            && RowOf(t, i) == Some(s.rows[i].(status := Failed))
            && (i in t.active <==> i in s.active) && (i in s.active ==> t.active[i] == s.active[i])
            && (i in s.active ==> (i in t.held <==> i in s.held) && (i in t.open <==> i in s.open))
            && (i !in s.active ==> i !in t.held && i !in t.open))
  {
    hide Inv, Step, OthersAsBefore, AsBefore, DepsStatus, Admits, LeastAmong, NormalJob;
    hide Submitted, HeldChecked, Cancelling, Retried, Scanned, Ended, Freed, Enqueue;
    var v, w := StepMeans(qt, s, Timeout(i));
  }

  /** The end of a process is recorded once: SUCCEEDED for a running job whose process ended well, FAILED for one whose
      process did not; a job that was ended before keeps its status. */
  lemma FinishMeans(qt: QuotaTable, s: State, i: Id, ok: bool)
    requires Inv(s)
    ensures var t := Step(qt, s, Finish(i, ok));
      && OthersAsBefore(s, t, i)
      && (!(i in s.active && s.active[i] == Executing) ==> AsBefore(s, t, i))
      && (i in s.active && s.active[i] == Executing ==>
            && i in t.active && t.active[i] == Finished
            && (i in t.held <==> i in s.held) && (i in t.open <==> i in s.open)
            && (StatusOf(s.rows, i) == Some(Running) ==>
                  && (RowOf(t, i) == Some(s.rows[i].(status := Succeeded)) <==> ok)
                  && (RowOf(t, i) == Some(s.rows[i].(status := Failed)) <==> !ok))
            && (StatusOf(s.rows, i) != Some(Running) ==> RowOf(t, i) == RowOf(s, i)))
  {
    hide Inv, Step, OthersAsBefore, AsBefore, DepsStatus, Admits, LeastAmong, NormalJob;
    hide Submitted, HeldChecked, Cancelling, Retried, Scanned, TimedOut, Freed, Enqueue;
    var v, w := StepMeans(qt, s, Finish(i, ok));
  }

  lemma FreeSlice(v: Slice, i: Id, deps: Deps, admitted: bool)
    ensures Move(v, FreeAllocation(i), deps, admitted) ==
      if v.phase == Some(Finished) then v.(phase := Some(Released), held := false, open := false) else v
  {
  }

  /** The allocation goes after the end is recorded ... */
  lemma FreeMeans(qt: QuotaTable, s: State, i: Id)
    requires Inv(s)
    ensures var t := Step(qt, s, FreeAllocation(i));
      && OthersAsBefore(s, t, i) && RowOf(t, i) == RowOf(s, i)
      && (!(i in s.active && s.active[i] == Finished) ==> AsBefore(s, t, i))
      && (i in s.active && s.active[i] == Finished ==>
            i in t.active && t.active[i] == Released && i !in t.held && i !in t.open)
  {
    hide Inv, Step, OthersAsBefore, AsBefore, DepsStatus, Admits, LeastAmong, NormalJob;
    hide Submitted, HeldChecked, Cancelling, Retried, Scanned, TimedOut, Ended, Freed, Enqueue;
    hide Fits, Move;
    var v, w := StepMeans(qt, s, FreeAllocation(i));
    FreeSlice(v, i, if v.row.Some? then DepsStatus(s.rows, v.row.value.dependsOn) else Satisfied, false);
  }

  lemma LeaveSlice(v: Slice, i: Id, deps: Deps, admitted: bool)
    requires Fits(v, i)
    ensures Move(v, Leave(i), deps, admitted) == if v.phase == Some(Released) then v.(phase := None) else v
    ensures v.phase == Some(Released) ==> !v.held && !v.open
  {
    hide NormalJob, QueuedOf;
  }

  /** ... and the execution after the allocation. */
  lemma LeaveMeans(qt: QuotaTable, s: State, i: Id)
    requires Inv(s)
    ensures var t := Step(qt, s, Leave(i));
      && OthersAsBefore(s, t, i) && RowOf(t, i) == RowOf(s, i)
      && (!(i in s.active && s.active[i] == Released) ==> AsBefore(s, t, i))
      && (i in s.active && s.active[i] == Released ==> i !in t.active && i !in t.held && i !in t.open)
  {
    hide Inv, Step, OthersAsBefore, AsBefore, DepsStatus, Admits, LeastAmong, NormalJob;
    hide Submitted, HeldChecked, Cancelling, Retried, Scanned, TimedOut, Ended, Freed, Enqueue;
    hide Fits, Move;
    var v, w := StepMeans(qt, s, Leave(i));
    LeaveSlice(v, i, if v.row.Some? then DepsStatus(s.rows, v.row.value.dependsOn) else Satisfied, false);
  }

  lemma CancelSlice(v: Slice, i: Id)
    requires Fits(v, i)
    ensures var w := Cancelling(v);
      && w.phase == v.phase && w.held == v.held && w.open == v.open
      && (StatusIn(v) in {Some(Created), Some(Queued), Some(Running)} ==> w.row == Some(v.row.value.(status := Cancelled)))
      && (StatusIn(v) !in {Some(Created), Some(Queued), Some(Running)} ==> w == v)
  {
    hide NormalJob;
  }

  /** A job that has not ended is CANCELLED by a cancellation, wherever it is; one that has ended is left alone. */
  lemma CancelMeans(qt: QuotaTable, s: State, i: Id)
    requires Inv(s)
    ensures var t := Step(qt, s, Cancel(i));
      && OthersAsBefore(s, t, i)
      && (StatusOf(s.rows, i) in {Some(Created), Some(Queued), Some(Running)} ==>
            && RowOf(t, i) == Some(s.rows[i].(status := Cancelled))
            && (i in t.active <==> i in s.active) && (i in s.active ==> t.active[i] == s.active[i])
            && (i in t.held <==> i in s.held) && (i in t.open <==> i in s.open))
      && (StatusOf(s.rows, i) !in {Some(Created), Some(Queued), Some(Running)} ==> AsBefore(s, t, i))
  {
    hide Inv, Step, OthersAsBefore, AsBefore, DepsStatus, Admits, LeastAmong, NormalJob;
    hide Fits, Cancelling, Submitted, HeldChecked, Retried, Scanned, TimedOut, Ended, Freed, Enqueue;
    var v, w := StepMeans(qt, s, Cancel(i));
    CancelSlice(v, i);
  }

  /** A retry queues a failed or cancelled job afresh once nothing executes it; it does nothing to any other. */
  lemma RetryMeans(qt: QuotaTable, s: State, i: Id)
    requires Inv(s)
    ensures var t := Step(qt, s, Retry(i));
      && OthersAsBefore(s, t, i)
      && (StatusOf(s.rows, i) in {Some(Failed), Some(Cancelled)} && i !in s.active ==>
            && RowOf(t, i) == Some(s.rows[i].(status := Queued, machine := "", startedAt := 0))
            && i !in t.active && i !in t.held && i !in t.open)
      && (!(StatusOf(s.rows, i) in {Some(Failed), Some(Cancelled)} && i !in s.active) ==> AsBefore(s, t, i))
  {
    hide Inv, Step, OthersAsBefore, AsBefore, DepsStatus, Admits, LeastAmong, NormalJob;
    hide Submitted, HeldChecked, Cancelling, Scanned, TimedOut, Ended, Freed, Enqueue;
    var v, w := StepMeans(qt, s, Retry(i));
  }

  /** A purge removes the row of a job that has ended. */
  lemma PurgeMeans(qt: QuotaTable, s: State, i: Id)
    requires Inv(s)
    ensures var t := Step(qt, s, Purge(i));
      && OthersAsBefore(s, t, i)
      && (StatusOf(s.rows, i) in {Some(Succeeded), Some(Failed), Some(Cancelled)} ==> i !in t.rows)
      && (StatusOf(s.rows, i) !in {Some(Succeeded), Some(Failed), Some(Cancelled)} ==> AsBefore(s, t, i))
  {
    hide Inv, Step, OthersAsBefore, AsBefore, DepsStatus, Admits, LeastAmong, NormalJob;
    hide Submitted, HeldChecked, Cancelling, Retried, Scanned, TimedOut, Ended, Freed, Enqueue;
    var v, w := StepMeans(qt, s, Purge(i));
  }

  /** A held job that is released by hand, or by its last file, is queued. */
  lemma ReleaseMeans(qt: QuotaTable, s: State, i: Id)
    requires Inv(s)
    ensures var t := Step(qt, s, Release(i));
      && OthersAsBefore(s, t, i)
      && (StatusOf(s.rows, i) == Some(Created) ==> RowOf(t, i) == Some(s.rows[i].(status := Queued)))
      && (StatusOf(s.rows, i) != Some(Created) ==> AsBefore(s, t, i))
  {
    hide Inv, Step, OthersAsBefore, AsBefore, DepsStatus, Admits, LeastAmong, NormalJob;
    hide Submitted, HeldChecked, Cancelling, Retried, Scanned, TimedOut, Ended, Freed;
    var v, w := StepMeans(qt, s, Release(i));
  }

  /** The held-job pass, for a job with or without files: released when all it depends on has succeeded and its files are
      there; forgetting its dependencies when only files are missing; failed when something it depends on is lost. */
  lemma CheckHeldMeans(qt: QuotaTable, s: State, i: Id, ready: bool)
    requires Inv(s)
    ensures var t := Step(qt, s, CheckHeld(i, ready));
      && OthersAsBefore(s, t, i)
      && (StatusOf(s.rows, i) != Some(Created) ==> AsBefore(s, t, i))
      && (StatusOf(s.rows, i) == Some(Created) ==>
            var row := s.rows[i];
            var met := forall d :: d in row.dependsOn ==> StatusOf(s.rows, d) == Some(Succeeded);
            && (met && (|row.inputFiles| == 0 || ready) ==> RowOf(t, i) == Some(row.(dependsOn := [], status := Queued)))
            && (met && |row.inputFiles| > 0 && !ready ==> RowOf(t, i) == Some(row.(dependsOn := [])))
            && (!met ==> RowOf(t, i) in {Some(row), Some(row.(status := Failed))})
            && (RowOf(t, i) == Some(row.(status := Failed)) ==>
                  exists d :: d in row.dependsOn && StatusOf(s.rows, d) in {None, Some(Failed), Some(Cancelled)}))
  {
    hide Inv, Step, OthersAsBefore, AsBefore, DepsStatus, Admits, LeastAmong, NormalJob;
    hide Submitted, Cancelling, Retried, Scanned, TimedOut, Ended, Freed;
    var v, w := StepMeans(qt, s, CheckHeld(i, ready));
    if i in s.rows { DepsDecide(s.rows, s.rows[i].dependsOn); }
  }

  /** The scan, for the job it pops: started on the machine it was given when the quota admits it and it can be placed, failed
      when its launch fails, and left in the queue otherwise. */
  lemma ScanMeans(qt: QuotaTable, s: State, j: Job, fate: Fate)
    requires Inv(s) && LeastAmong(j, s.queue, x => true)
    ensures RowOf(s, j.id) == Some(j) && j.status == Queued && j.id !in s.active && j.id !in s.held && j.id !in s.open
    ensures var t, i := Step(qt, s, Scan(j, fate)), j.id;
      && OthersAsBefore(s, t, i)
      && (!Admits(qt, s.rows, j) || fate.Unplaced? ==> AsBefore(s, t, i))
      && (Admits(qt, s.rows, j) && fate.FailsToStart? ==>
            RowOf(t, i) == Some(j.(status := Failed)) && i !in t.active && i !in t.held && i !in t.open)
      && (Admits(qt, s.rows, j) && fate.Starts? ==>
            && RowOf(t, i) == Some(j.(status := Running, machine := fate.machine, startedAt := fate.at))
            && i in t.active && t.active[i] == Executing && i in t.held && i in t.open)
  {
    hide Inv, Step, OthersAsBefore, AsBefore, DepsStatus, Admits, LeastAmong, NormalJob;
    hide Submitted, HeldChecked, Cancelling, Retried, TimedOut, Ended, Freed, Enqueue;
    var a := Scan(j, fate);
    ScannedRow(s, a);
    var v, w := StepMeans(qt, s, a);
  }

  /** A submission takes a new id for good: the row is the one submitted. */
  lemma SubmitMeans(qt: QuotaTable, s: State, j: Job)
    requires Inv(s) && j.need.cores >= 1 && j.need.gpu >= 0 && j.need.ram >= 0 && j.need.disk >= 0
    ensures var t := Step(qt, s, Submit(j));
      && OthersAsBefore(s, t, j.id)
      && (j.id !in s.seen && j.status in {Created, Queued, Failed} ==>
            RowOf(t, j.id) == Some(j) && j.id !in t.active && j.id !in t.held && j.id !in t.open && j.id in t.seen)
      && (j.id in s.seen ==> AsBefore(s, t, j.id))
  {
    hide Inv, Step, OthersAsBefore, AsBefore, DepsStatus, Admits, LeastAmong;
    hide HeldChecked, Cancelling, Retried, Scanned, TimedOut, Ended, Freed, Enqueue;
    var v, w := StepMeans(qt, s, Submit(j));
    if j.status in {Created, Queued, Failed} { SubmittedIsSeen(qt, s, j); }
  }

  lemma SubmittedIsSeen(qt: QuotaTable, s: State, j: Job)
    requires NormalJob(j) && j.status in {Created, Queued, Failed}
    ensures j.id in Step(qt, s, Submit(j)).seen
  {
    hide Entry, DepsStatus;
  }
}
