// Runs: the jobs table, the in-memory queue, the active executions and their allocation records over whole runs.
// One step is one request, one iteration of the scheduler's scan, one job of a periodic pass, or one stage of a
// watcher; a crash and restart may fall anywhere.

module Runs {
  import opened Wrappers
  import opened Jobs
  import opened Quotas
  import opened JobQueue
  import opened Lifecycle

  datatype State = State(
    rows: map<Id, Job>,
    queue: multiset<Job>,
    active: map<Id, Phase>,
    held: set<Id>,          // jobs with an active allocation record
    open: set<Id>,          // jobs with allocation rows that are not closed
    seen: set<Id>)          // job ids ever handed out

  function RowOf(s: State, i: Id): Option<Job> { if i in s.rows then Some(s.rows[i]) else None }

  function StatusOf(rows: map<Id, Job>, i: Id): Option<Status> { if i in rows then Some(rows[i].status) else None }

  /** db_check_deps_status: the first dependency that has not succeeded decides. */
  function DepsStatus(rows: map<Id, Job>, deps: seq<Id>): Deps {
    if |deps| == 0 then Satisfied
    else
      match StatusOf(rows, deps[0])
      case None => Broken
      case Some(status) =>
        if status == Failed || status == Cancelled then Broken
        else if status != Succeeded then Waiting
        else DepsStatus(rows, deps[1..])
  }

  // ---------------------------------------------------------------- steps

  /** The queued object with id `i`, if there is one. */
  ghost function Entry(q: multiset<Job>, i: Id): multiset<Job> {
    if exists j :: j in q && j.id == i then var j :| j in q && j.id == i; multiset{j} else multiset{}
  }

  function SliceOf(s: State, i: Id, entry: multiset<Job>): Slice {
    Slice(RowOf(s, i), if i in s.active then Some(s.active[i]) else None, i in s.held, i in s.open, i in s.seen, entry)
  }

  function With(ids: set<Id>, i: Id, member: bool): set<Id> { if member then ids + {i} else ids - {i} }

  /** The state once job `i` has gone from `v` to `w`. */
  function Put(s: State, i: Id, v: Slice, w: Slice): State {
    State(if w.row.Some? then s.rows[i := w.row.value] else s.rows - {i},
          s.queue - v.entry + w.entry,
          if w.phase.Some? then s.active[i := w.phase.value] else s.active - {i},
          With(s.held, i, w.held), With(s.open, i, w.open), With(s.seen, i, w.seen))
  }

  /** The job an action is about. */
  function Subject(a: Action): Id {
    match a
    case Submit(j) => j.id
    case Scan(j, _) => j.id
    case Release(i) => i
    case CheckHeld(i, _) => i
    case Cancel(i) => i
    case Retry(i) => i
    case Purge(i) => i
    case Timeout(i) => i
    case Finish(i, _) => i
    case FreeAllocation(i) => i
    case Leave(i) => i
    case Restart => ""
  }

  ghost function SubjectSlice(s: State, a: Action): Slice {
    SliceOf(s, Subject(a), if a.Scan? then multiset{a.least} else Entry(s.queue, Subject(a)))
  }

  ghost function Moved(qt: QuotaTable, s: State, a: Action): Slice {
    var v := SubjectSlice(s, a);
    Move(v, a, if v.row.Some? then DepsStatus(s.rows, v.row.value.dependsOn) else Satisfied,
         a.Scan? && Admits(qt, s.rows, a.least))
  }

  /** db_recover_after_restart on the table: what was running is over. */
  function Recovered(rows: map<Id, Job>): map<Id, Job> {
    map i | i in rows ::
      if rows[i].status == Running || rows[i].status == Starting then rows[i].(status := Failed) else rows[i]
  }

  /** The queued rows, as they are reloaded into the queue. */
  ghost function QueuedRows(rows: map<Id, Job>, ids: set<Id>): multiset<Job> {
    if ids == {} then multiset{}
    else
      var i :| i in ids;
      QueuedRows(rows, ids - {i}) + QueuedOf(if i in rows then Some(rows[i]) else None)
  }

  /** scheduler_init on whatever a crash left behind. */
  ghost function RestartStep(s: State): State {
    var rows := Recovered(s.rows);
    State(rows, QueuedRows(rows, rows.Keys), map[], {}, {}, s.seen)
  }

  /** The scan takes the least job of the queue; everything else names its job. */
  ghost predicate Enabled(s: State, a: Action) { a.Scan? ==> LeastAmong(a.least, s.queue, x => true) }

  ghost function Step(qt: QuotaTable, s: State, a: Action): State {
    if a.Restart? then RestartStep(s)
    else if !Enabled(s, a) then s
    else Put(s, Subject(a), SubjectSlice(s, a), Moved(qt, s, a))
  }

  ghost function Run(qt: QuotaTable, s: State, acts: seq<Action>): State {
    if |acts| == 0 then s else Step(qt, Run(qt, s, acts[..|acts| - 1]), acts[|acts| - 1])
  }

  // ---------------------------------------------------------------- the invariant

  /** How often a job belongs in the queue. */
  function Share(rows: map<Id, Job>, j: Job): nat {
    if j.id in rows && rows[j.id] == j && j.status == Queued then 1 else 0
  }

  /** The queue is the index of the QUEUED rows: each of them once, exactly as its row, and nothing else. */
  ghost predicate IsQueueOf(q: multiset<Job>, rows: map<Id, Job>) { forall j: Job :: q[j] == Share(rows, j) }

  ghost predicate Local(s: State, i: Id) { Fits(SliceOf(s, i, QueuedOf(RowOf(s, i))), i) }

  ghost predicate Inv(s: State) { IsQueueOf(s.queue, s.rows) && forall i :: Local(s, i) }

  /** A database as it may be found at startup: keyed by id, with the requirements job_create_ex writes. */
  ghost predicate Persisted(s: State) {
    forall i :: i in s.rows ==> s.rows[i].id == i && NormalJob(s.rows[i]) && i in s.seen
  }

  lemma InvKeyed(s: State, i: Id)
    requires Inv(s) && i in s.rows
    ensures s.rows[i].id == i && NormalJob(s.rows[i]) && i in s.seen && s.rows[i].status != Starting
  {
    assert Local(s, i);
  }

  lemma EntryIs(s: State, i: Id)
    requires Inv(s)
    ensures Entry(s.queue, i) == QueuedOf(RowOf(s, i)) <= s.queue
  {
    if i in s.rows && s.rows[i].status == Queued {
      InvKeyed(s, i);
      assert s.queue[s.rows[i]] == Share(s.rows, s.rows[i]) == 1;
    }
    forall j | j in s.queue && j.id == i ensures QueuedOf(RowOf(s, i)) == multiset{j} {
      assert s.queue[j] == Share(s.rows, j);
    }
  }

  /** What a step finds of its job is what the invariant says of it. */
  lemma SubjectFits(s: State, a: Action)
    requires Inv(s) && Enabled(s, a)
    ensures Fits(SubjectSlice(s, a), Subject(a)) && SubjectSlice(s, a).entry == QueuedOf(RowOf(s, Subject(a))) <= s.queue
  {
    EntryIs(s, Subject(a));
    assert Local(s, Subject(a));
    if a.Scan? {
      assert s.queue[a.least] == Share(s.rows, a.least);
      assert QueuedOf(RowOf(s, a.least.id)) == multiset{a.least};
    }
    hide Fits, Entry, Share;
  }

  lemma QueuedOfCounts(row: Option<Job>, i: Id, j: Job)
    requires row.Some? ==> row.value.id == i
    ensures QueuedOf(row)[j] == if row == Some(j) && j.status == Queued then 1 else 0
  {
  }

  lemma PutKeepsShare(s: State, i: Id, v: Slice, w: Slice, j: Job)
    requires s.queue[j] == Share(s.rows, j) && (i in s.rows ==> s.rows[i].id == i) && (w.row.Some? ==> w.row.value.id == i)
    requires v.entry == QueuedOf(RowOf(s, i)) && w.entry == QueuedOf(w.row)
    ensures Put(s, i, v, w).queue[j] == Share(Put(s, i, v, w).rows, j)
  {
    QueuedOfCounts(RowOf(s, i), i, j);
    QueuedOfCounts(w.row, i, j);
    hide QueuedOf, With;
    assert Put(s, i, v, w).queue[j] == s.queue[j] - v.entry[j] + w.entry[j];
  }

  /** The queue follows the row. */
  lemma PutKeepsQueue(s: State, i: Id, v: Slice, w: Slice)
    requires Inv(s) && v.entry == QueuedOf(RowOf(s, i)) && Fits(w, i)
    ensures IsQueueOf(Put(s, i, v, w).queue, Put(s, i, v, w).rows)
  {
    if i in s.rows { InvKeyed(s, i); }
    assert w.entry == QueuedOf(w.row) && (w.row.Some? ==> w.row.value.id == i);
    assert IsQueueOf(s.queue, s.rows);
    hide Inv, Fits, QueuedOf, Put, Share;
    forall j: Job ensures Put(s, i, v, w).queue[j] == Share(Put(s, i, v, w).rows, j) {
      assert s.queue[j] == Share(s.rows, j);
      PutKeepsShare(s, i, v, w, j);
    }
  }

  lemma PutElsewhere(s: State, i: Id, v: Slice, w: Slice, k: Id)
    requires k != i
    ensures SliceOf(Put(s, i, v, w), k, multiset{}) == SliceOf(s, k, multiset{})
  {
  }

  lemma PutHere(s: State, i: Id, v: Slice, w: Slice)
    ensures SliceOf(Put(s, i, v, w), i, w.entry) == w
  {
  }

  lemma PutKeepsLocal(s: State, i: Id, v: Slice, w: Slice, k: Id)
    requires Local(s, k) && Fits(w, i)
    ensures Local(Put(s, i, v, w), k)
  {
    var t := Put(s, i, v, w);
    if k == i {
      PutHere(s, i, v, w);
      assert w.entry == QueuedOf(w.row);
    } else {
      PutElsewhere(s, i, v, w, k);
      assert SliceOf(t, k, QueuedOf(RowOf(t, k))) == SliceOf(s, k, QueuedOf(RowOf(s, k))) by { hide Fits, QueuedOf; }
    }
    hide Fits, Put;
  }

  lemma PutKeepsInv(s: State, i: Id, v: Slice, w: Slice)
    requires Inv(s) && v.entry == QueuedOf(RowOf(s, i)) <= s.queue && Fits(w, i)
    ensures Inv(Put(s, i, v, w))
  {
    PutKeepsQueue(s, i, v, w);
    hide Put, Fits;
    forall k ensures Local(Put(s, i, v, w), k) {
      assert Local(s, k);
      hide Local;
      PutKeepsLocal(s, i, v, w, k);
    }
  }

  lemma MovedIsGood(qt: QuotaTable, s: State, a: Action)
    requires Inv(s) && Enabled(s, a)
    ensures Good(SubjectSlice(s, a), Moved(qt, s, a), Subject(a), a, a.Scan? && Admits(qt, s.rows, a.least))
  {
    SubjectFits(s, a);
    var v := SubjectSlice(s, a);
    hide Good, Fits, Move, SubjectSlice, Inv;
    MoveIsGood(v, Subject(a), a, if v.row.Some? then DepsStatus(s.rows, v.row.value.dependsOn) else Satisfied,
               a.Scan? && Admits(qt, s.rows, a.least));
  }

  /** The parts of it one by one. */
  lemma MovedFits(qt: QuotaTable, s: State, a: Action)
    requires Inv(s) && Enabled(s, a)
    ensures Fits(Moved(qt, s, a), Subject(a)) && Legal(SubjectSlice(s, a), Moved(qt, s, a), a)
    ensures Keeps(SubjectSlice(s, a), Moved(qt, s, a))
    ensures StartsRight(SubjectSlice(s, a), Moved(qt, s, a), a, a.Scan? && Admits(qt, s.rows, a.least))
  {
    hide Fits, Legal, Keeps, StartsRight, Moved, SubjectSlice, Inv;
    MovedIsGood(qt, s, a);
  }

  lemma {:induction false} ReloadIsQueue(rows: map<Id, Job>, ids: set<Id>)
    requires ids <= rows.Keys && forall i :: i in rows ==> rows[i].id == i
    ensures forall j: Job :: QueuedRows(rows, ids)[j] == if j.id in ids then Share(rows, j) else 0
    decreases |ids|
  {
    if ids != {} {
      var i :| i in ids && QueuedRows(rows, ids) == QueuedRows(rows, ids - {i}) + QueuedOf(Some(rows[i]));
      ReloadIsQueue(rows, ids - {i});
      hide QueuedRows, QueuedOf;
      forall j: Job ensures QueuedRows(rows, ids)[j] == if j.id in ids then Share(rows, j) else 0 {
        QueuedOfCounts(Some(rows[i]), i, j);
      }
    }
  }

  lemma RestartLocal(s: State, i: Id)
    requires Persisted(s)
    ensures Local(RestartStep(s), i)
  {
    hide QueuedRows, NormalJob;
    if i in s.rows { StillNormal(s.rows[i]); }
  }

  lemma StillNormal(j: Job)
    requires NormalJob(j)
    ensures NormalJob(j.(status := Failed))
  {
  }

  /** Whatever a crash left behind, a restart puts in order. */
  lemma RestartInv(s: State)
    requires Persisted(s)
    ensures Inv(RestartStep(s))
  {
    var t := RestartStep(s);
    hide Local, QueuedRows;
    ReloadIsQueue(t.rows, t.rows.Keys);
    forall i ensures Local(t, i) { RestartLocal(s, i); }
  }

  lemma InvIsPersisted(s: State)
    requires Inv(s)
    ensures Persisted(s)
  {
    forall i | i in s.rows ensures s.rows[i].id == i && NormalJob(s.rows[i]) && i in s.seen { InvKeyed(s, i); }
  }

  lemma StepKeepsInv(qt: QuotaTable, s: State, a: Action)
    requires Inv(s)
    ensures Inv(Step(qt, s, a))
  {
    if a.Restart? {
      InvIsPersisted(s);
      hide Inv, RestartStep;
      RestartInv(s);
    } else if Enabled(s, a) {
      SubjectFits(s, a);
      MovedFits(qt, s, a);
      hide Inv, Fits, Moved, SubjectSlice, Put;
      PutKeepsInv(s, Subject(a), SubjectSlice(s, a), Moved(qt, s, a));
    }
  }

  /** After every step of every run that starts on a persisted database, crashes included, the queue holds exactly
      the QUEUED rows, each once, and every job is in order. */
  lemma {:induction false} QueueAgrees(qt: QuotaTable, s: State, acts: seq<Action>)
    requires Persisted(s)
    ensures Inv(Run(qt, RestartStep(s), acts))
  {
    if |acts| == 0 {
      RestartInv(s);
    } else {
      hide Inv, Step;
      QueueAgrees(qt, s, acts[..|acts| - 1]);
      StepKeepsInv(qt, Run(qt, RestartStep(s), acts[..|acts| - 1]), acts[|acts| - 1]);
    }
  }

  // ---------------------------------------------------------------- lifecycle safety

  lemma OtherRows(qt: QuotaTable, s: State, a: Action, i: Id)
    requires !a.Restart? && (i != Subject(a) || !Enabled(s, a))
    ensures RowOf(Step(qt, s, a), i) == RowOf(s, i)
  {
    hide Moved, Enabled, Entry;
  }

  lemma SubjectRow(qt: QuotaTable, s: State, a: Action)
    requires !a.Restart? && Enabled(s, a)
    ensures RowOf(Step(qt, s, a), Subject(a)) == Moved(qt, s, a).row
    ensures RowOf(s, Subject(a)) == SubjectSlice(s, a).row
  {
    hide Moved, Enabled, Entry;
  }

  /** In one step, a restart apart, every row moves along the transition table, from CREATED to FAILED, or by a retry
      back to QUEUED; only a purge removes a row, and only a terminal one. */
  lemma LifecycleSafety(qt: QuotaTable, s: State, a: Action, i: Id)
    requires Inv(s) && !a.Restart?
    ensures var t := Step(qt, s, a);
      && StatusMove(StatusOf(s.rows, i), StatusOf(t.rows, i), a.Retry?)
      && (i in s.rows && i !in t.rows ==> a == Purge(i))
    ensures var from, to := StatusOf(s.rows, i), StatusOf(Step(qt, s, a).rows, i);
      from != to ==>
        match from
        case None => to in {Some(Created), Some(Queued), Some(Failed)}
        case Some(Created) => to in {Some(Queued), Some(Cancelled), Some(Failed)}
        case Some(Queued) => to in {Some(Running), Some(Cancelled), Some(Failed)}
        case Some(Running) => to in {Some(Succeeded), Some(Cancelled), Some(Failed)}
        case Some(Succeeded) => a == Purge(i)
        case _ => a == Purge(i) || (a.Retry? && to == Some(Queued))
  {
    if i == Subject(a) && Enabled(s, a) {
      MovedFits(qt, s, a);
      SubjectRow(qt, s, a);
    } else {
      OtherRows(qt, s, a, i);
    }
    hide Inv, Moved, Fits, Enabled, Entry, StatusMove, Step, SubjectSlice;
    var from, to := StatusOf(s.rows, i), StatusOf(Step(qt, s, a).rows, i);
    if from != to { StatusMoveMeans(from, to, a.Retry?); }
  }

  /** A retry that does anything finds neither an execution nor an allocation of the job. */
  lemma RetryFindsNothing(qt: QuotaTable, s: State, a: Action)
    requires Inv(s) && a.Retry? && RowOf(Step(qt, s, a), a.id) != RowOf(s, a.id)
    ensures a.id !in s.active && a.id !in s.held && a.id !in s.open
  {
    if Enabled(s, a) {
      MovedFits(qt, s, a);
      SubjectRow(qt, s, a);
    } else {
      OtherRows(qt, s, a, a.id);
    }
    hide Inv, Moved, Fits, Enabled, Entry, StatusMove, Step;
  }

  /** A restart ends what was running and leaves every other row alone. */
  lemma RestartRows(s: State, i: Id)
    ensures StatusOf(RestartStep(s).rows, i) ==
              if StatusOf(s.rows, i) in {Some(Running), Some(Starting)} then Some(Failed) else StatusOf(s.rows, i)
  {
  }

  /** An id that has been used is never given to another job. */
  lemma GoneStaysGone(qt: QuotaTable, s: State, a: Action, i: Id)
    requires Inv(s) && i in s.seen && i !in s.rows
    ensures i in Step(qt, s, a).seen && i !in Step(qt, s, a).rows
  {
    if !a.Restart? && Enabled(s, a) { MovedFits(qt, s, a); }
    hide Inv, Moved, Entry, Enabled, Fits, Legal, StartsRight;
  }

  lemma SucceededIsFinal(to: Option<Status>, retry: bool)
    requires StatusMove(Some(Succeeded), to, retry)
    ensures to in {None, Some(Succeeded)}
  {
  }

  lemma SucceededStays(qt: QuotaTable, s: State, a: Action, i: Id)
    requires Inv(s) && i in s.seen && StatusOf(s.rows, i) in {None, Some(Succeeded)}
    ensures var t := Step(qt, s, a);
      i in t.seen && StatusOf(t.rows, i) in {None, Some(Succeeded)} && (i !in s.rows ==> i !in t.rows)
  {
    hide Inv;
    if i !in s.rows {
      GoneStaysGone(qt, s, a, i);
    } else if a.Restart? {
      RestartRows(s, i);
    } else {
      LifecycleSafety(qt, s, a, i);
      SeenGrows(qt, s, a, i);
      hide Step, StatusMove;
      assert StatusMove(Some(Succeeded), StatusOf(Step(qt, s, a).rows, i), a.Retry?);
      SucceededIsFinal(StatusOf(Step(qt, s, a).rows, i), a.Retry?);
    }
  }

  /** SUCCEEDED is for ever: whatever happens later, crashes included, the job is still SUCCEEDED or has been purged. */
  lemma {:induction false} SucceededForever(qt: QuotaTable, s: State, acts: seq<Action>, i: Id)
    requires Inv(s) && i in s.seen && StatusOf(s.rows, i) in {None, Some(Succeeded)}
    ensures var t := Run(qt, s, acts);
      Inv(t) && i in t.seen && StatusOf(t.rows, i) in {None, Some(Succeeded)} && (i !in s.rows ==> i !in t.rows)
  {
    if |acts| > 0 {
      hide Step, Inv;
      SucceededForever(qt, s, acts[..|acts| - 1], i);
      StepKeepsInv(qt, Run(qt, s, acts[..|acts| - 1]), acts[|acts| - 1]);
      SucceededStays(qt, Run(qt, s, acts[..|acts| - 1]), acts[|acts| - 1], i);
    }
  }

  lemma SeenGrows(qt: QuotaTable, s: State, a: Action, i: Id)
    requires Inv(s) && i in s.seen
    ensures i in Step(qt, s, a).seen
  {
    if !a.Restart? && Enabled(s, a) { MovedFits(qt, s, a); }
    hide Inv, Moved, Entry, Enabled, Fits, Legal, StartsRight;
  }

  /** A job is started only from QUEUED, when nothing of an earlier start is left, so never twice at once. */
  lemma StartedOnce(qt: QuotaTable, s: State, a: Action, i: Id)
    requires Inv(s) && i in Step(qt, s, a).active && i !in s.active
    ensures a.Scan? && a.least.id == i && RowOf(s, i) == Some(a.least) && a.least.status == Queued
    ensures i !in s.held && i !in s.open && i in Step(qt, s, a).held && StatusOf(Step(qt, s, a).rows, i) == Some(Running)
    ensures Admits(qt, s.rows, a.least)
  {
    assert !a.Restart? && Enabled(s, a);
    assert Local(s, i);
    MovedFits(qt, s, a);
    hide Moved, Entry, Admits, Legal, Keeps;
    assert i == Subject(a);
    if a.Scan? { ScannedRow(s, a); }
  }

  /** The scan's job is the row it stands for. */
  lemma ScannedRow(s: State, a: Action)
    requires Inv(s) && a.Scan? && Enabled(s, a)
    ensures RowOf(s, a.least.id) == Some(a.least) && a.least.status == Queued
  {
    assert s.queue[a.least] == Share(s.rows, a.least);
  }

  // ---------------------------------------------------------------- crash recovery

  lemma QueueIsUnique(q: multiset<Job>, q2: multiset<Job>, rows: map<Id, Job>)
    requires IsQueueOf(q, rows) && IsQueueOf(q2, rows)
    ensures q == q2
  {
    forall j: Job ensures q[j] == q2[j] { assert q[j] == Share(rows, j); }
  }

  lemma InvIsQueue(s: State)
    requires Inv(s)
    ensures IsQueueOf(s.queue, s.rows)
  {
  }

  /** From anything a crash may leave: nothing is running, reserved or open, the queue is that of the QUEUED rows;
      CREATED, QUEUED and terminal rows are as they were, and interrupted ones FAILED. Recovering again changes nothing. */
  lemma CrashRecovery(s: State)
    requires Persisted(s)
    ensures var t := RestartStep(s);
      && t.active == map[] && t.held == {} && t.open == {} && IsQueueOf(t.queue, t.rows) && t.rows.Keys == s.rows.Keys
      && (forall i :: i in s.rows ==>
            if s.rows[i].status == Running || s.rows[i].status == Starting
            then t.rows[i] == s.rows[i].(status := Failed) else t.rows[i] == s.rows[i])
      && RestartStep(t) == t
  {
    hide QueuedRows, Inv, Persisted, IsQueueOf;
    var t := RestartStep(s);
    RestartInv(s);
    InvIsPersisted(t);
    RestartInv(t);
    InvIsQueue(t);
    InvIsQueue(RestartStep(t));
    assert Recovered(t.rows) == t.rows;
    QueueIsUnique(t.queue, RestartStep(t).queue, t.rows);
  }

  /** A crash does not disturb the queue: it is reloaded as it was. */
  lemma ReloadSameQueue(s: State)
    requires Inv(s)
    ensures RestartStep(s).queue == s.queue
  {
    var t := RestartStep(s);
    InvIsPersisted(s);
    RestartInv(s);
    assert IsQueueOf(s.queue, s.rows) && IsQueueOf(t.queue, t.rows);
    hide Inv, QueuedRows;
    forall j: Job ensures s.queue[j] == t.queue[j] {
      assert s.queue[j] == Share(s.rows, j) && t.queue[j] == Share(t.rows, j);
    }
  }

  // ---------------------------------------------------------------- service order

  /** The rows with status QUEUED, ordered by priority, submission time and id. */
  ghost predicate IsDbListing(rows: map<Id, Job>, listed: seq<Job>) {
    Sorted(listed) && forall j: Job :: multiset(listed)[j] == Share(rows, j)
  }

  /** The listing on the fields, for any two of its jobs; and it holds the QUEUED rows and no others, each once. */
  lemma ListedMeans(rows: map<Id, Job>, listed: seq<Job>)
    requires IsDbListing(rows, listed) && forall i :: i in rows ==> rows[i].id == i
    ensures forall i, l :: 0 <= i < l < |listed| ==> var j, k := listed[i], listed[l];
        (j.priority < k.priority
         || (j.priority == k.priority && j.submittedAt < k.submittedAt)
         || (j.priority == k.priority && j.submittedAt == k.submittedAt &&
             (j.id <= k.id || exists n :: 0 <= n < |j.id| && n < |k.id| && j.id[..n] == k.id[..n] && j.id[n] < k.id[n])))
    ensures forall i :: i in rows && rows[i].status == Queued ==> multiset(listed)[rows[i]] == 1
    ensures forall j :: j in listed ==> j.id in rows && rows[j.id] == j && j.status == Queued
  {
    SortedMeans(listed);
    forall j | j in listed ensures j.id in rows && rows[j.id] == j && j.status == Queued {
      assert multiset(listed)[j] == Share(rows, j);
    }
    hide Sorted;
  }

  /** Draining the queue serves the jobs in the order the database lists them, before and after a restart, however the
      queue came about. */
  lemma DrainsAsListed(s: State, served: seq<Job>, reloaded: seq<Job>, listed: seq<Job>)
    requires Inv(s) && IsListing(served, s.queue) && IsListing(reloaded, RestartStep(s).queue) && IsDbListing(s.rows, listed)
    ensures served == listed && reloaded == listed
  {
    ReloadSameQueue(s);
    QueueIsUnique(s.queue, multiset(listed), s.rows);
    assert DistinctIds(s.queue) by {
      forall a, b | a in s.queue && b in s.queue && a.id == b.id ensures a == b && s.queue[a] == 1 {
        assert s.queue[a] == Share(s.rows, a) && s.queue[b] == Share(s.rows, b);
      }
      forall a | a in s.queue ensures s.queue[a] == 1 { assert s.queue[a] == Share(s.rows, a); }
    }
    hide Inv, Sorted;
    ListingUnique(served, listed, s.queue);
    ListingUnique(reloaded, listed, s.queue);
  }

  // ---------------------------------------------------------------- quotas

  /** A row is running after a step because it was before, or because the scan started it. */
  lemma StillRunning(qt: QuotaTable, s: State, a: Action, i: Id)
    requires Inv(s) && !a.Restart? && StatusOf(Step(qt, s, a).rows, i) in {Some(Running), Some(Starting)}
    ensures
      || RowOf(s, i) == RowOf(Step(qt, s, a), i)
      || (a.Scan? && Enabled(s, a) && i == a.least.id && Admits(qt, s.rows, a.least))
  {
    if i == Subject(a) && Enabled(s, a) {
      MovedFits(qt, s, a);
      SubjectRow(qt, s, a);
    } else {
      OtherRows(qt, s, a, i);
      if i in s.rows { InvKeyed(s, i); }
    }
    hide Moved, Entry, Admits, Enabled, Step, Inv, Legal, Keeps, SubjectSlice;
  }

  lemma StartIsAdmitted(qt: QuotaTable, s: State, a: Action)
    requires Inv(s) && a.Scan? && Enabled(s, a) && a.least.id in Step(qt, s, a).rows
    ensures RowOf(s, a.least.id) == Some(a.least) && a.least.status == Queued
    ensures var t := Step(qt, s, a);
      t.rows == s.rows[a.least.id := t.rows[a.least.id]] && t.rows[a.least.id].need == a.least.need
      && t.rows[a.least.id].user == a.least.user && t.rows[a.least.id].app == a.least.app
  {
    ScannedRow(s, a);
    InvKeyed(s, a.least.id);
    MovedFits(qt, s, a);
    hide Moved, Entry, Enabled, Inv, Fits, Legal, StartsRight;
  }

  lemma StepRespects(qt: QuotaTable, s: State, a: Action)
    requires Inv(s) && Respected(qt, s.rows)
    ensures Respected(qt, Step(qt, s, a).rows)
  {
    var t := Step(qt, s, a);
    InvIsNormal(s);
    hide Respected, Admits, Inv;
    if a.Scan? && Enabled(s, a) && a.least.id in t.rows && t.rows[a.least.id] != s.rows[a.least.id]
       && Admits(qt, s.rows, a.least) {
      StartIsAdmitted(qt, s, a);
      hide Step;
      StartRespects(qt, s.rows, a.least, t.rows[a.least.id]);
    } else {
      forall i | i in t.rows && (t.rows[i].status == Running || t.rows[i].status == Starting)
        ensures i in s.rows && s.rows[i] == t.rows[i]
      {
        if a.Restart? { RestartRows(s, i); } else { StillRunning(qt, s, a, i); }
      }
      hide Step;
      EndingRespects(qt, s.rows, t.rows);
    }
  }

  lemma InvIsNormal(s: State)
    requires Inv(s)
    ensures Normal(s.rows)
  {
    forall i | i in s.rows ensures NormalJob(s.rows[i]) { InvKeyed(s, i); }
  }

  /** With fixed quotas, at every point of every run: for each user and application, the running jobs of exactly that
      pair keep within the limits of the most specific quota that matches it. */
  lemma {:induction false} QuotaSafety(qt: QuotaTable, s: State, acts: seq<Action>)
    requires Persisted(s)
    ensures Respected(qt, Run(qt, RestartStep(s), acts).rows)
  {
    if |acts| == 0 {
      IdleRespects(qt, RestartStep(s).rows);
    } else {
      hide Respected, Step, Inv;
      QuotaSafety(qt, s, acts[..|acts| - 1]);
      QueueAgrees(qt, s, acts[..|acts| - 1]);
      StepRespects(qt, Run(qt, RestartStep(s), acts[..|acts| - 1]), acts[|acts| - 1]);
    }
  }

  // ---------------------------------------------------------------- workflows

  /** A job that will not move any more by itself, or is gone. */
  predicate Settled(rows: map<Id, Job>, i: Id) { i in rows ==> Terminal(rows[i].status) }

  /** The check of a dependency list: all succeeded, or the first that did not is lost, or it is still to come. */
  lemma {:induction false} DepsDecide(rows: map<Id, Job>, deps: seq<Id>)
    ensures DepsStatus(rows, deps).Satisfied? <==> forall d :: d in deps ==> StatusOf(rows, d) == Some(Succeeded)
    ensures DepsStatus(rows, deps).Broken? ==> exists d :: d in deps && StatusOf(rows, d) in {None, Some(Failed), Some(Cancelled)}
    ensures (forall d :: d in deps ==> Settled(rows, d)) ==> !DepsStatus(rows, deps).Waiting?
  {
    if |deps| > 0 {
      DepsDecide(rows, deps[1..]);
      assert forall d :: d in deps <==> d == deps[0] || d in deps[1..];
      if forall d :: d in deps ==> Settled(rows, d) { assert Settled(rows, deps[0]); }
    }
  }

  /** A held job without input files is released exactly when all its dependencies have succeeded, and marked FAILED
      only when one has failed, was cancelled or is gone. */
  lemma HeldOutcome(qt: QuotaTable, s: State, a: Action)
    requires Inv(s) && a.CheckHeld? && StatusOf(s.rows, a.id) == Some(Created) && s.rows[a.id].inputFiles == []
    ensures var t := Step(qt, s, a); var deps := s.rows[a.id].dependsOn;
      && (StatusOf(t.rows, a.id) == Some(Queued) <==> forall d :: d in deps ==> StatusOf(s.rows, d) == Some(Succeeded))
      && (StatusOf(t.rows, a.id) == Some(Failed) ==>
            exists d :: d in deps && StatusOf(s.rows, d) in {None, Some(Failed), Some(Cancelled)})
      && (RowOf(t, a.id) == RowOf(s, a.id) || StatusOf(t.rows, a.id) in {Some(Queued), Some(Failed)})
      && ((forall d :: d in deps ==> Settled(s.rows, d)) ==> StatusOf(t.rows, a.id) != Some(Created))
  {
    DepsDecide(s.rows, s.rows[a.id].dependsOn);
    SubjectRow(qt, s, a);
    hide Inv, Entry, DepsStatus, Admits, Step, Settled;
  }

  /** Some action of the list is about job `i`. */
  predicate Reached(acts: seq<Action>, i: Id) {
    |acts| > 0 && (Subject(acts[|acts| - 1]) == i || Reached(acts[..|acts| - 1], i))
  }

  predicate OnlyHeldChecks(acts: seq<Action>) { forall k :: 0 <= k < |acts| ==> acts[k].CheckHeld? }

  /** One pass over the held jobs: any order, each CREATED job of `w` at least once, nothing else meanwhile. */
  ghost predicate IsPass(s: State, acts: seq<Action>, w: seq<Id>) {
    OnlyHeldChecks(acts) && forall i :: i in w && StatusOf(s.rows, i) == Some(Created) ==> Reached(acts, i)
  }

  lemma CheckHeldLeaves(qt: QuotaTable, s: State, a: Action, i: Id)
    requires Inv(s) && a.CheckHeld? && StatusOf(s.rows, i) != Some(Created)
    ensures RowOf(Step(qt, s, a), i) == RowOf(s, i)
  {
    if i == a.id { SubjectRow(qt, s, a); } else { OtherRows(qt, s, a, i); }
    hide Inv, Entry, DepsStatus, Admits, Step;
  }

  lemma {:induction false} PassLeaves(qt: QuotaTable, s: State, acts: seq<Action>, i: Id)
    requires Inv(s) && OnlyHeldChecks(acts) && StatusOf(s.rows, i) != Some(Created)
    ensures Inv(Run(qt, s, acts)) && RowOf(Run(qt, s, acts), i) == RowOf(s, i)
  {
    if |acts| > 0 {
      hide Step, Inv;
      PassLeaves(qt, s, acts[..|acts| - 1], i);
      StepKeepsInv(qt, Run(qt, s, acts[..|acts| - 1]), acts[|acts| - 1]);
      CheckHeldLeaves(qt, Run(qt, s, acts[..|acts| - 1]), acts[|acts| - 1], i);
    }
  }

  lemma CheckDecides(qt: QuotaTable, s: State, a: Action, i: Id)
    requires Inv(s) && a.CheckHeld? && StatusOf(s.rows, i) == Some(Created) && s.rows[i].inputFiles == []
    requires DepsSettled(s.rows, i)
    ensures RowOf(Step(qt, s, a), i) == RowOf(s, i) || Decided(Step(qt, s, a), i)
    ensures a.id == i ==> Decided(Step(qt, s, a), i)
  {
    if a.id == i { HeldOutcome(qt, s, a); } else { OtherRows(qt, s, a, i); }
    hide Step, Inv;
  }

  predicate DepsSettled(rows: map<Id, Job>, i: Id) {
    i in rows ==> forall d :: d in rows[i].dependsOn ==> Settled(rows, d)
  }

  lemma DepsStaySettled(qt: QuotaTable, s: State, acts: seq<Action>, i: Id)
    requires Inv(s) && OnlyHeldChecks(acts) && i in s.rows && DepsSettled(s.rows, i) && RowOf(Run(qt, s, acts), i) == RowOf(s, i)
    ensures DepsSettled(Run(qt, s, acts).rows, i)
  {
    hide Run, Inv;
    forall d | d in s.rows[i].dependsOn ensures Settled(Run(qt, s, acts).rows, d) {
      assert Settled(s.rows, d);
      PassLeaves(qt, s, acts, d);
    }
  }

  predicate Decided(s: State, i: Id) { StatusOf(s.rows, i) in {Some(Queued), Some(Failed)} }

  lemma PassStep(qt: QuotaTable, s: State, u: State, a: Action, i: Id)
    requires Inv(u) && a.CheckHeld? && StatusOf(s.rows, i) == Some(Created) && s.rows[i].inputFiles == []
    requires Decided(u, i) || (RowOf(u, i) == RowOf(s, i) && DepsSettled(u.rows, i))
    ensures Decided(Step(qt, u, a), i) || (RowOf(Step(qt, u, a), i) == RowOf(s, i) && a.id != i)
    ensures Decided(u, i) ==> Decided(Step(qt, u, a), i)
  {
    hide Step, Inv, DepsSettled;
    if Decided(u, i) { CheckHeldLeaves(qt, u, a, i); } else { CheckDecides(qt, u, a, i); }
  }

  /** A pass decides every held job whose dependencies have come to an end. */
  lemma {:induction false} PassDecides(qt: QuotaTable, s: State, acts: seq<Action>, i: Id)
    requires Inv(s) && OnlyHeldChecks(acts)
    requires StatusOf(s.rows, i) == Some(Created) && s.rows[i].inputFiles == [] && DepsSettled(s.rows, i)
    ensures var u := Run(qt, s, acts);
      Inv(u) && (RowOf(u, i) == RowOf(s, i) || Decided(u, i)) && (Reached(acts, i) ==> Decided(u, i))
  {
    hide Step, Inv, Decided, DepsSettled, StatusOf;
    if |acts| > 0 {
      var before := acts[..|acts| - 1];
      var u := Run(qt, s, before);
      var a := acts[|acts| - 1];
      PassDecides(qt, s, before, i);
      StepKeepsInv(qt, u, a);
      if !Decided(u, i) { RowThere(s, i); DepsStaySettled(qt, s, before, i); }
      PassStep(qt, s, u, a, i);
    }
  }

  lemma RowThere(s: State, i: Id)
    requires StatusOf(s.rows, i).Some?
    ensures i in s.rows
  {
  }
}
