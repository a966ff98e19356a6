// Lifecycle: what each request, scheduler pass and watcher stage does to one job: to its row, to its entry in the
// in-memory queue, to its execution and to its allocation.

module Lifecycle {
  import opened Wrappers
  import opened Jobs

  /** How far the watcher of an execution has come. */
  datatype Phase = Executing | Finished | Released

  /** What becomes of a job that passed its quota: it cannot be placed now, its launch fails, or it starts. */
  datatype Fate = Unplaced | FailsToStart | Starts(machine: string, at: int)

  datatype Action =
    | Submit(job: Job)                    // CREATED when it must wait, QUEUED, or FAILED when it could not be recorded
    | Release(id: Id)                     // by hand, or because the last input file was uploaded
    | CheckHeld(id: Id, filesReady: bool)
    | Cancel(id: Id) | Retry(id: Id) | Purge(id: Id)
    | Scan(least: Job, fate: Fate)
    | Timeout(id: Id)
    | Finish(id: Id, ok: bool) | FreeAllocation(id: Id) | Leave(id: Id)
    | Restart

  // ---------------------------------------------------------------- one job

  datatype Deps = Satisfied | Waiting | Broken

  /** Everything the state holds about one job. */
  datatype Slice = Slice(row: Option<Job>, phase: Option<Phase>, held: bool, open: bool, seen: bool, entry: multiset<Job>)

  function SetRow(v: Slice, to: Status): Slice {
    if v.row.Some? then v.(row := Some(v.row.value.(status := to))) else v
  }

  function StatusIn(v: Slice): Option<Status> { if v.row.Some? then Some(v.row.value.status) else None }

  /** The row becomes QUEUED and the job read back from it is pushed. */
  function Enqueue(v: Slice): Slice
    requires v.row.Some?
  {
    var w := SetRow(v, Queued);
    w.(entry := v.entry + multiset{w.row.value})
  }

  predicate NormalJob(j: Job) { j.need.NonNegative() && j.need.cores >= 1 }

  function Submitted(v: Slice, j: Job): Slice {
    if v.seen || j.status !in {Created, Queued, Failed} || !NormalJob(j) then v
    else v.(row := Some(j), seen := true, entry := if j.status == Queued then v.entry + multiset{j} else v.entry)
  }

  /** A held job whose dependencies have been met forgets them. */
  function Cleared(j: Job): Job { j.(dependsOn := []) }

  /** One job of scheduler_check_held_jobs. */
  function HeldChecked(v: Slice, filesReady: bool, deps: Deps): Slice {
    if StatusIn(v) != Some(Created) then v
    else
      match deps
      case Broken => SetRow(v, Failed)
      case Waiting => v
      case Satisfied =>
        var cleared := v.(row := Some(Cleared(v.row.value)));
        if |v.row.value.inputFiles| > 0 && !filesReady then cleared else Enqueue(cleared)
  }

  /** cancel_job and scheduler_cancel_job: from the queue, else at the executor, else in the table only. */
  function Cancelling(v: Slice): Slice {
    if v.row.None? || Terminal(v.row.value.status) then v
    else if v.entry != multiset{} then SetRow(v, Cancelled).(entry := multiset{})
    else if v.phase.Some? then (if v.row.value.status == Running then SetRow(v, Cancelled) else v)
    else if v.row.value.status == Created || v.row.value.status == Queued then SetRow(v, Cancelled)
    else v
  }

  /** db_retry_job on one row */
  function Anew(j: Job): Job { j.(status := Queued, machine := "", startedAt := 0) }

  /** retry_job: a stale queue entry is dropped, the row starts afresh and is queued again. */
  function Retried(v: Slice): Slice {
    if StatusIn(v) !in {Some(Failed), Some(Cancelled)} || v.phase.Some? then v
    else
      v.(row := Some(Anew(v.row.value)), entry := multiset{Anew(v.row.value)})
  }

  /** db_update_job_started on one row */
  function Started(j: Job, fate: Fate): Job
    requires fate.Starts?
  {
    j.(status := Running, machine := fate.machine, startedAt := fate.at)
  }

  /** One iteration of the scheduler's scan, for the job it has just popped. */
  function Scanned(v: Slice, fate: Fate, admitted: bool): Slice {
    if StatusIn(v) != Some(Queued) then v.(entry := multiset{})
    else if !admitted || fate.Unplaced? || v.held then v                     // pushed back
    else if fate.FailsToStart? then SetRow(v, Failed).(entry := multiset{})
    else
      v.(row := Some(Started(v.row.value, fate)),
         phase := Some(Executing), held := true, open := true, entry := multiset{})
  }

  /** A running job that is overdue: the executor is asked to end it, or its row is closed if none runs it. */
  function TimedOut(v: Slice): Slice {
    if StatusIn(v) != Some(Running) then v
    else if v.phase.Some? then SetRow(v, Failed)
    else SetRow(v, Failed).(held := false, open := false)
  }

  /** The watcher's stages: record how the process ended, release the allocation, leave the list. */
  function Ended(v: Slice, ok: bool): Slice {
    if v.phase != Some(Executing) then v
    else (if StatusIn(v) == Some(Running) then SetRow(v, if ok then Succeeded else Failed) else v).(phase := Some(Finished))
  }

  function Freed(v: Slice): Slice {
    if v.phase != Some(Finished) then v else v.(phase := Some(Released), held := false, open := false)
  }

  function Move(v: Slice, a: Action, deps: Deps, admitted: bool): Slice {
    match a
    case Submit(j) => Submitted(v, j)
    case Release(_) => if StatusIn(v) == Some(Created) then Enqueue(v) else v
    case CheckHeld(_, ready) => HeldChecked(v, ready, deps)
    case Cancel(_) => Cancelling(v)
    case Retry(_) => Retried(v)
    case Purge(_) => if v.row.Some? && Terminal(v.row.value.status) then v.(row := None) else v
    case Scan(_, fate) => Scanned(v, fate, admitted)
    case Timeout(_) => TimedOut(v)
    case Finish(_, ok) => Ended(v, ok)
    case FreeAllocation(_) => Freed(v)
    case Leave(_) => if v.phase == Some(Released) then v.(phase := None) else v
    case Restart => v
  }

  // ---------------------------------------------------------------- what holds of each job by itself

  function QueuedOf(row: Option<Job>): multiset<Job> {
    if row.Some? && row.value.status == Queued then multiset{row.value} else multiset{}
  }

  /** A job is in the queue exactly while its row is QUEUED, as that row; only an execution nobody has asked to end
      has a RUNNING row; an active job is running or ended, so never queued; and its allocation record and open
      allocation rows exist exactly until its watcher releases them. */
  predicate Fits(v: Slice, i: Id) {
    && v.entry == QueuedOf(v.row)
    && (v.row.Some? ==>
          && v.row.value.id == i && NormalJob(v.row.value) && v.row.value.status != Starting && v.seen
          && (v.row.value.status == Running ==> v.phase == Some(Executing)))
    && (v.phase.Some? ==> v.seen && (v.row.Some? ==> v.row.value.status == Running || Terminal(v.row.value.status)))
    && (v.held <==> v.phase.Some? && v.phase.value != Released)
    && (v.open <==> v.held)
  }

  /** How the status of a row may change: along the transition table, a held job to FAILED, or by a retry. */
  predicate StatusMove(from: Option<Status>, to: Option<Status>, retry: bool) {
    if from.None? then to.None? || to.value in {Created, Queued, Failed}
    else if to.None? then Terminal(from.value)
    else
      from == to || TransitionAllowed(from.value, to.value) || (from.value == Created && to.value == Failed)
      || (retry && (from.value == Failed || from.value == Cancelled) && to.value == Queued)
  }

  /** Status by status. */
  lemma StatusMoveMeans(from: Option<Status>, to: Option<Status>, retry: bool)
    requires StatusMove(from, to, retry) && from != to
    ensures
      match from
      case None => to in {Some(Created), Some(Queued), Some(Failed)}
      case Some(Created) => to in {Some(Queued), Some(Cancelled), Some(Failed)}
      case Some(Queued) => to in {Some(Running), Some(Cancelled), Some(Failed)}
      case Some(Running) => to in {Some(Succeeded), Some(Cancelled), Some(Failed)}
      case Some(Succeeded) => to == None
      case Some(Failed) => to == None || (retry && to == Some(Queued))
      case Some(Cancelled) => to == None || (retry && to == Some(Queued))
      case Some(Starting) => false
  {
  }

  /** Every step moves a job along the table; SUCCEEDED is left only by a purge; and only a retry takes a job back,
      when it has no execution and no allocation record. */
  predicate Legal(v: Slice, w: Slice, a: Action) {
    && StatusMove(StatusIn(v), StatusIn(w), a.Retry?)
    && (a.Retry? && w != v ==> v.phase.None? && !v.held && !v.open)
    && (v.row.Some? && w.row.None? ==> a.Purge?)
  }

  /** An id is taken for ever once it is used, and what a job asks for, and for whom, never changes. */
  predicate Keeps(v: Slice, w: Slice) {
    && (v.seen ==> w.seen && (v.row.None? ==> w.row.None?))
    && (v.row.Some? && w.row.Some? ==>
          w.row.value.need == v.row.value.need && w.row.value.user == v.row.value.user && w.row.value.app == v.row.value.app)
  }

  /** A row is RUNNING because it was, or because the scan has just started an admitted job, with its execution, record
      and open rows; nothing else creates an execution. */
  predicate StartsRight(v: Slice, w: Slice, a: Action, admitted: bool) {
    && (StatusIn(w) == Some(Running) ==> w.row == v.row || (a.Scan? && admitted && StatusIn(v) == Some(Queued) && !v.held))
    && (v.phase.None? && w.phase.Some? ==>
          a.Scan? && admitted && StatusIn(v) == Some(Queued) && !v.held && w.held && StatusIn(w) == Some(Running))
  }

  predicate Good(v: Slice, w: Slice, i: Id, a: Action, admitted: bool) {
    Fits(w, i) && Legal(v, w, a) && Keeps(v, w) && StartsRight(v, w, a, admitted)
  }

  lemma SubmitIsGood(v: Slice, i: Id, a: Action, admitted: bool)
    requires Fits(v, i) && a.Submit? && a.job.id == i
    ensures Good(v, Submitted(v, a.job), i, a, admitted)
  {
  }

  lemma ReleaseIsGood(v: Slice, i: Id, a: Action, admitted: bool)
    requires Fits(v, i) && StatusIn(v) == Some(Created) && !a.Retry?
    ensures Good(v, Enqueue(v), i, a, admitted)
  {
  }

  lemma HeldIsGood(v: Slice, i: Id, a: Action, deps: Deps, admitted: bool)
    requires Fits(v, i) && a.CheckHeld?
    ensures Good(v, HeldChecked(v, a.filesReady, deps), i, a, admitted)
  {
    if StatusIn(v) == Some(Created) {
      var cleared := v.(row := Some(Cleared(v.row.value)));
      assert Fits(cleared, i);
      ReleaseIsGood(cleared, i, a, admitted);
      hide Enqueue;
    }
  }

  lemma CancelIsGood(v: Slice, i: Id, a: Action, admitted: bool)
    requires Fits(v, i) && a.Cancel?
    ensures Good(v, Cancelling(v), i, a, admitted)
  {
  }

  lemma RetryIsGood(v: Slice, i: Id, a: Action, admitted: bool)
    requires Fits(v, i) && a.Retry?
    ensures Good(v, Retried(v), i, a, admitted)
  {
  }

  lemma ScanIsGood(v: Slice, i: Id, a: Action, admitted: bool)
    requires Fits(v, i) && a.Scan?
    ensures Good(v, Scanned(v, a.fate, admitted), i, a, admitted)
  {
  }

  lemma TimeoutIsGood(v: Slice, i: Id, a: Action, admitted: bool)
    requires Fits(v, i) && !a.Retry?
    ensures Good(v, TimedOut(v), i, a, admitted)
  {
  }

  lemma WatcherIsGood(v: Slice, i: Id, a: Action, admitted: bool)
    requires Fits(v, i) && !a.Retry?
    ensures a.Finish? ==> Good(v, Ended(v, a.ok), i, a, admitted)
    ensures Good(v, Freed(v), i, a, admitted)
  {
  }

  lemma RestIsGood(v: Slice, i: Id, a: Action, admitted: bool)
    requires Fits(v, i)
    ensures Good(v, v, i, a, admitted)
    ensures a.Purge? && v.row.Some? && Terminal(v.row.value.status) ==> Good(v, v.(row := None), i, a, admitted)
    ensures a.Leave? && v.phase == Some(Released) ==> Good(v, v.(phase := None), i, a, admitted)
  {
  }

  lemma MoveIsGood(v: Slice, i: Id, a: Action, deps: Deps, admitted: bool)
    requires Fits(v, i) && (a.Submit? ==> a.job.id == i)
    ensures Good(v, Move(v, a, deps, admitted), i, a, admitted)
  {
    hide Good, Fits, Submitted, HeldChecked, Cancelling, Retried, Scanned, TimedOut, Ended, Freed, Enqueue;
    RestIsGood(v, i, a, admitted);
    match a
    case Submit(_) => SubmitIsGood(v, i, a, admitted);
    case Release(_) => if StatusIn(v) == Some(Created) { ReleaseIsGood(v, i, a, admitted); }
    case CheckHeld(_, _) => HeldIsGood(v, i, a, deps, admitted);
    case Cancel(_) => CancelIsGood(v, i, a, admitted);
    case Retry(_) => RetryIsGood(v, i, a, admitted);
    case Scan(_, _) => ScanIsGood(v, i, a, admitted);
    case Timeout(_) => TimeoutIsGood(v, i, a, admitted);
    case _ => if a.Finish? || a.FreeAllocation? { WatcherIsGood(v, i, a, admitted); }
  }
}
