// Scheduler: the loops and handlers that keep the jobs table and the heap together, each shown to be the steps of Runs.

module Scheduling {
  import opened Wrappers
  import opened Jobs
  import opened Quotas
  import opened JobQueue
  import opened Lifecycle
  import opened Runs
  import opened Workflows

  /** A step that rewrites the row of its job and its queue entry, and no more. */
  lemma PutRow(s: State, i: Id, entry: multiset<Job>, row: Job, entry2: multiset<Job>)
    ensures Put(s, i, SliceOf(s, i, entry), SliceOf(s, i, entry).(row := Some(row), entry := entry2)) ==
              s.(rows := s.rows[i := row], queue := s.queue - entry + entry2)
  {
    var v := SliceOf(s, i, entry);
    PutRest(s, i);
  }

  lemma PutRest(s: State, i: Id)
    ensures i in s.active ==> s.active[i := s.active[i]] == s.active
    ensures i !in s.active ==> s.active - {i} == s.active
    ensures With(s.held, i, i in s.held) == s.held && With(s.open, i, i in s.open) == s.open
    ensures With(s.seen, i, i in s.seen) == s.seen
  {
  }

  /** A step that changes nothing. */
  lemma PutNothing(s: State, i: Id, entry: multiset<Job>)
    requires entry <= s.queue
    ensures Put(s, i, SliceOf(s, i, entry), SliceOf(s, i, entry)) == s
  {
    if i in s.rows { assert s.rows[i := s.rows[i]] == s.rows; } else { assert s.rows - {i} == s.rows; }
    if i in s.active { assert s.active[i := s.active[i]] == s.active; } else { assert s.active - {i} == s.active; }
    assert With(s.held, i, i in s.held) == s.held && With(s.open, i, i in s.open) == s.open;
    assert With(s.seen, i, i in s.seen) == s.seen;
  }

  lemma {:induction false} RunAppend(qt: QuotaTable, s: State, acts: seq<Action>, a: Action)
    ensures Run(qt, s, acts + [a]) == Step(qt, Run(qt, s, acts), a)
  {
    assert (acts + [a])[..|acts + [a]| - 1] == acts;
  }

  function Marked(rows: map<Id, Job>, i: Id, to: Status): map<Id, Job>
    requires i in rows
  {
    rows[i := rows[i].(status := to)]
  }

  lemma StepIsPut(qt: QuotaTable, s: State, a: Action)
    requires a.Cancel? || a.Retry?
    ensures var v := SliceOf(s, a.id, Entry(s.queue, a.id));
      Step(qt, s, a) == Put(s, a.id, v, if a.Cancel? then Cancelling(v) else Retried(v))
  {
    hide Put, Entry, SliceOf, Cancelling, Retried, DepsStatus, Admits, LeastAmong;
  }

  /** What a cancellation comes to, by the state its job is in. */
  function AfterCancel(s: State, i: Id): State {
    if i !in s.rows || Terminal(s.rows[i].status) then s
    else if s.rows[i].status == Queued then s.(rows := Marked(s.rows, i, Cancelled), queue := s.queue - multiset{s.rows[i]})
    else if (i in s.active && s.rows[i].status == Running) || (i !in s.active && s.rows[i].status == Created)
    then s.(rows := Marked(s.rows, i, Cancelled))
    else s
  }

  /** The ways a cancellation may go. */
  lemma AfterCancelIs(s: State, i: Id)
    requires i in s.rows && !Terminal(s.rows[i].status)
    ensures var status := s.rows[i].status; var marked := s.(rows := Marked(s.rows, i, Cancelled));
      && (status == Queued ==> AfterCancel(s, i) == marked.(queue := s.queue - multiset{s.rows[i]}))
      && (status == Running && i in s.active ==> AfterCancel(s, i) == marked)
      && (status == Created && i !in s.active ==> AfterCancel(s, i) == marked)
      && (status != Queued && i in s.active && status != Running ==> AfterCancel(s, i) == s)
      && (status != Queued && i !in s.active && status != Created ==> AfterCancel(s, i) == s)
  {
    hide Marked;
  }

  lemma NothingToCancel(s: State, i: Id)
    ensures i !in s.rows || Terminal(s.rows[i].status) ==> AfterCancel(s, i) == s
  {
  }

  lemma CancelIs(qt: QuotaTable, s: State, i: Id)
    requires Inv(s)
    ensures Step(qt, s, Cancel(i)) == AfterCancel(s, i)
  {
    StepIsPut(qt, s, Cancel(i));
    EntryIs(s, i);
    hide Inv, Entry, Step;
    var entry := QueuedOf(RowOf(s, i));
    var v := SliceOf(s, i, entry);
    CancellingIs(v);
    PutNothing(s, i, entry);
    if i in s.rows {
      PutRow(s, i, entry, s.rows[i].(status := Cancelled), entry);
      PutRow(s, i, entry, s.rows[i].(status := Cancelled), multiset{});
    }
    hide Put, Cancelling;
  }

  lemma CancellingIs(v: Slice)
    requires v.entry == QueuedOf(v.row)
    ensures Cancelling(v) ==
      if v.row.None? || Terminal(v.row.value.status) then v
      else
        var row := Some(v.row.value.(status := Cancelled));
        if v.row.value.status == Queued then v.(row := row, entry := multiset{})
        else if (v.phase.Some? && v.row.value.status == Running) || (v.phase.None? && v.row.value.status == Created)
        then v.(row := row, entry := v.entry)
        else v
  {
  }

  lemma RetriedIs(v: Slice)
    requires v.entry == QueuedOf(v.row)
    ensures Retried(v) ==
      if StatusIn(v) !in {Some(Failed), Some(Cancelled)} || v.phase.Some? then v
      else
        v.(row := Some(Anew(v.row.value)), entry := multiset{Anew(v.row.value)})
    ensures StatusIn(v) in {Some(Failed), Some(Cancelled)} ==> v.entry == multiset{}
  {
  }

  /** What a retry comes to. */
  function AfterRetry(s: State, i: Id): State {
    if StatusOf(s.rows, i) !in {Some(Failed), Some(Cancelled)} || i in s.active then s
    else
      s.(rows := s.rows[i := Anew(s.rows[i])], queue := s.queue + multiset{Anew(s.rows[i])})
  }

  lemma RetryIs(qt: QuotaTable, s: State, i: Id)
    requires Inv(s)
    ensures Step(qt, s, Retry(i)) == AfterRetry(s, i)
  {
    StepIsPut(qt, s, Retry(i));
    EntryIs(s, i);
    hide Inv, Entry, Step;
    var entry := QueuedOf(RowOf(s, i));
    PutNothing(s, i, entry);
    RetriedIs(SliceOf(s, i, entry));
    if StatusOf(s.rows, i) in {Some(Failed), Some(Cancelled)} && i !in s.active {
      PutRow(s, i, entry, Anew(s.rows[i]), multiset{Anew(s.rows[i])});
      assert s.queue - entry == s.queue;
      hide Put, Retried, Anew, QueuedOf;
    } else {
      hide Put, Retried, Anew, QueuedOf;
    }
  }

  /** What one iteration of the scan comes to for the job it has popped. */
  function AfterScan(s: State, j: Job, fate: Fate, admitted: bool): State {
    var i := j.id;
    if StatusOf(s.rows, i) != Some(Queued) then s.(queue := s.queue - multiset{j})
    else if !admitted || fate.Unplaced? || i in s.held then s
    else if fate.FailsToStart? then s.(rows := Marked(s.rows, i, Failed), queue := s.queue - multiset{j})
    else
      State(s.rows[i := Started(s.rows[i], fate)], s.queue - multiset{j},
            s.active[i := Executing], s.held + {i}, s.open + {i}, s.seen)
  }

  /** The ways a popped job may go. */
  lemma AfterScanIs(s: State, j: Job, fate: Fate, admitted: bool)
    requires j in s.queue
    ensures var i := j.id; var kept := !admitted || fate.Unplaced? || i in s.held; var t := AfterScan(s, j, fate, admitted);
      && (StatusOf(s.rows, i) != Some(Queued) ==> t == s.(queue := s.queue - multiset{j}))
      && (StatusOf(s.rows, i) == Some(Queued) && kept ==> t == s)
      && (StatusOf(s.rows, i) == Some(Queued) && !kept && fate.FailsToStart? ==>
            t == s.(rows := Marked(s.rows, i, Failed), queue := s.queue - multiset{j}))
      && (StatusOf(s.rows, i) == Some(Queued) && !kept && fate.Starts? ==>
            t == State(s.rows[i := Started(s.rows[i], fate)], s.queue - multiset{j}, s.active[i := Executing],
                       s.held + {i}, s.open + {i}, s.seen))
    ensures s.queue - multiset{j} + multiset{j} == s.queue
  {
    hide Started;
  }

  lemma ScanIs(qt: QuotaTable, s: State, j: Job, fate: Fate)
    requires LeastAmong(j, s.queue, x => true) && (j.id in s.rows ==> j.id in s.seen)
    ensures Step(qt, s, Scan(j, fate)) == AfterScan(s, j, fate, Admits(qt, s.rows, j))
  {
    var i := j.id;
    var v := SliceOf(s, i, multiset{j});
    var admitted := Admits(qt, s.rows, j);
    assert j in s.queue;
    ScanIsPut(qt, s, j, fate);
    hide Step, LeastAmong, Admits;
    PutNothing(s, i, multiset{j});
    if StatusOf(s.rows, i) != Some(Queued) {
      PutSameRow(s, i, multiset{j});
    } else if admitted && !fate.Unplaced? && i !in s.held {
      if fate.FailsToStart? {
        PutRow(s, i, multiset{j}, s.rows[i].(status := Failed), multiset{});
      } else {
        assert s.seen + {i} == s.seen;
      }
    }
    hide Started;
  }

  lemma PutSameRow(s: State, i: Id, entry: multiset<Job>)
    ensures Put(s, i, SliceOf(s, i, entry), SliceOf(s, i, entry).(entry := multiset{})) == s.(queue := s.queue - entry)
  {
    PutRest(s, i);
    if i in s.rows { assert s.rows[i := s.rows[i]] == s.rows; } else { assert s.rows - {i} == s.rows; }
  }

  lemma ScanIsPut(qt: QuotaTable, s: State, j: Job, fate: Fate)
    requires LeastAmong(j, s.queue, x => true)
    ensures var v := SliceOf(s, j.id, multiset{j});
      Step(qt, s, Scan(j, fate)) == Put(s, j.id, v, Scanned(v, fate, Admits(qt, s.rows, j)))
  {
    hide Put, Entry, SliceOf, Scanned, DepsStatus, Admits;
  }

  /** The row of a held job that is released. */
  function Unheld(j: Job): Job { Cleared(j).(status := Queued) }

  /** What one job of the held-job pass comes to. */
  function AfterHeld(s: State, i: Id, ready: bool): State {
    if StatusOf(s.rows, i) != Some(Created) then s
    else
      match DepsStatus(s.rows, s.rows[i].dependsOn)
      case Broken => s.(rows := Marked(s.rows, i, Failed))
      case Waiting => s
      case Satisfied =>
        var row := s.rows[i];
        if |row.inputFiles| > 0 && !ready then s.(rows := s.rows[i := Cleared(row)])
        else s.(rows := s.rows[i := Unheld(row)], queue := s.queue + multiset{Unheld(row)})
  }

  /** The four ways a held job may go. */
  lemma AfterHeldIs(s: State, i: Id, ready: bool)
    requires StatusOf(s.rows, i) == Some(Created)
    ensures var row := s.rows[i]; var deps := DepsStatus(s.rows, row.dependsOn);
      && (deps == Broken ==> AfterHeld(s, i, ready) == s.(rows := Marked(s.rows, i, Failed)))
      && (deps == Waiting ==> AfterHeld(s, i, ready) == s)
      && (deps == Satisfied && |row.inputFiles| > 0 && !ready ==> AfterHeld(s, i, ready) == s.(rows := s.rows[i := Cleared(row)]))
      && (deps == Satisfied && (|row.inputFiles| == 0 || ready) ==>
            AfterHeld(s, i, ready) == s.(rows := s.rows[i := Unheld(row)], queue := s.queue + multiset{Unheld(row)}))
  {
    hide DepsStatus, Cleared, Unheld;
  }

  lemma Unholding(rows: map<Id, Job>, i: Id)
    requires i in rows
    ensures Marked(rows[i := Cleared(rows[i])], i, Queued) == rows[i := Unheld(rows[i])]
    ensures Cleared(rows[i]).inputFiles == rows[i].inputFiles
  {
  }

  lemma HeldIsPut(qt: QuotaTable, s: State, i: Id, ready: bool)
    requires Inv(s) && StatusOf(s.rows, i) == Some(Created)
    ensures Entry(s.queue, i) == multiset{}
    ensures var v := SliceOf(s, i, multiset{});
      Step(qt, s, CheckHeld(i, ready)) == Put(s, i, v, HeldChecked(v, ready, DepsStatus(s.rows, s.rows[i].dependsOn)))
  {
    EntryIs(s, i);
    hide Put, Entry, HeldChecked, DepsStatus, Admits, LeastAmong, Inv;
  }

  lemma HeldIs(qt: QuotaTable, s: State, i: Id, ready: bool)
    requires Inv(s)
    ensures Step(qt, s, CheckHeld(i, ready)) == AfterHeld(s, i, ready)
  {
    if StatusOf(s.rows, i) != Some(Created) {
      NotHeldIs(qt, s, i, ready);
    } else {
      HeldIsPut(qt, s, i, ready);
      hide Inv, Step, DepsStatus;
      var row := s.rows[i];
      var v := SliceOf(s, i, multiset{});
      HeldCheckedIs(v, ready, DepsStatus(s.rows, row.dependsOn));
      PutNothing(s, i, multiset{});
      PutRow(s, i, multiset{}, row.(status := Failed), multiset{});
      PutRow(s, i, multiset{}, Cleared(row), multiset{});
      PutRow(s, i, multiset{}, Unheld(row), multiset{Unheld(row)});
      assert s.queue - multiset{} == s.queue;
      hide Put, HeldChecked, Cleared, Unheld;
    }
  }

  lemma HeldCheckedIs(v: Slice, ready: bool, deps: Deps)
    requires StatusIn(v) == Some(Created) && v.entry == multiset{}
    ensures HeldChecked(v, ready, deps) ==
      if deps == Broken then v.(row := Some(v.row.value.(status := Failed)), entry := multiset{})
      else if deps == Waiting then v
      else if |v.row.value.inputFiles| > 0 && !ready then v.(row := Some(Cleared(v.row.value)), entry := multiset{})
      else v.(row := Some(Unheld(v.row.value)), entry := multiset{Unheld(v.row.value)})
  {
  }

  lemma NotHeldIs(qt: QuotaTable, s: State, i: Id, ready: bool)
    requires Inv(s) && StatusOf(s.rows, i) != Some(Created)
    ensures Step(qt, s, CheckHeld(i, ready)) == s
  {
    EntryIs(s, i);
    PutNothing(s, i, Entry(s.queue, i));
    hide Put, Entry, DepsStatus, Admits, Inv;
  }

  // ---------------------------------------------------------------- submissions

  /** Jobs as job_create_ex makes them: with ids not used before, and requirements put in order. */
  predicate New(jobs: seq<Job>, seen: set<Id>) {
    && (forall k :: 0 <= k < |jobs| ==> jobs[k].id !in seen && NormalJob(jobs[k]))
    && (forall k, m :: 0 <= k < m < |jobs| ==> jobs[k].id != jobs[m].id)
  }

  function RowsWith(rows: map<Id, Job>, jobs: seq<Job>): map<Id, Job> {
    if |jobs| == 0 then rows else RowsWith(rows, jobs[..|jobs| - 1])[jobs[|jobs| - 1].id := jobs[|jobs| - 1]]
  }

  function QueuedAmong(jobs: seq<Job>): multiset<Job> {
    if |jobs| == 0 then multiset{} else QueuedAmong(jobs[..|jobs| - 1]) + QueuedOf(Some(jobs[|jobs| - 1]))
  }

  lemma NoneAmong(jobs: seq<Job>)
    requires |jobs| == 0
    ensures QueuedAmong(jobs) == multiset{}
  {
  }

  lemma QueuedAmongNext(jobs: seq<Job>, k: nat, was: multiset<Job>)
    requires k < |jobs|
    ensures was + QueuedAmong(jobs[..k]) + QueuedOf(Some(jobs[k])) == was + QueuedAmong(jobs[..k + 1])
  {
    hide QueuedOf;
    assert jobs[..k + 1][..k] == jobs[..k];
  }

  function IdsOf(jobs: seq<Job>): set<Id> { set k | 0 <= k < |jobs| :: jobs[k].id }

  function AfterSubmissions(s: State, jobs: seq<Job>): State {
    s.(rows := RowsWith(s.rows, jobs), queue := s.queue + QueuedAmong(jobs), seen := s.seen + IdsOf(jobs))
  }

  function Submissions(jobs: seq<Job>): (acts: seq<Action>)
    ensures |acts| == |jobs|
  {
    seq(|jobs|, k requires 0 <= k < |jobs| => Submit(jobs[k]))
  }

  lemma SubmitIsPut(qt: QuotaTable, s: State, j: Job)
    requires Inv(s) && j.id !in s.seen
    ensures j.id !in s.rows && j.id !in s.active
    ensures var v := SliceOf(s, j.id, multiset{}); Step(qt, s, Submit(j)) == Put(s, j.id, v, Submitted(v, j))
  {
    EntryIs(s, j.id);
    assert Local(s, j.id);
    hide Put, Entry, Submitted, DepsStatus, Admits, LeastAmong, IsQueueOf;
  }

  lemma SubmitIs(qt: QuotaTable, s: State, j: Job)
    requires Inv(s) && j.id !in s.seen && j.status in {Created, Queued} && NormalJob(j)
    ensures Step(qt, s, Submit(j)) ==
              s.(rows := s.rows[j.id := j], queue := s.queue + QueuedOf(Some(j)), seen := s.seen + {j.id})
  {
    SubmitIsPut(qt, s, j);
    hide Step, Inv;
    PutRest(s, j.id);
    assert s.queue - multiset{} == s.queue;
    if j.status != Queued { assert s.queue + multiset{} == s.queue; }
  }

  lemma NewButLast(jobs: seq<Job>, seen: set<Id>, n: nat)
    requires New(jobs, seen) && |jobs| == n + 1
    ensures New(jobs[..n], seen) && jobs[n].id !in seen + IdsOf(jobs[..n])
    ensures IdsOf(jobs) == IdsOf(jobs[..n]) + {jobs[n].id}
  {
    assert forall k :: 0 <= k < n ==> jobs[..n][k] == jobs[k];
    forall i | i in IdsOf(jobs) ensures i in IdsOf(jobs[..n]) + {jobs[n].id} {
      var k :| 0 <= k < |jobs| && jobs[k].id == i;
      if k < n { assert jobs[..n][k].id == i; }
    }
    forall i | i in IdsOf(jobs[..n]) ensures i in IdsOf(jobs) {
      var k :| 0 <= k < n && jobs[..n][k].id == i;
      assert jobs[k].id == i;
    }
  }

  lemma SubmitOne(s: State, jobs: seq<Job>, n: nat)
    requires |jobs| == n + 1 && IdsOf(jobs) == IdsOf(jobs[..n]) + {jobs[n].id}
    ensures var t := AfterSubmissions(s, jobs[..n]);
      AfterSubmissions(s, jobs) == t.(rows := t.rows[jobs[n].id := jobs[n]], queue := t.queue + QueuedOf(Some(jobs[n])),
                                      seen := t.seen + {jobs[n].id})
  {
    hide QueuedOf, IdsOf;
  }

  lemma NothingSubmitted(qt: QuotaTable, s: State, jobs: seq<Job>)
    requires |jobs| == 0
    ensures AfterSubmissions(s, jobs) == s == Run(qt, s, Submissions(jobs))
  {
    assert IdsOf(jobs) == {};
    assert s.queue + multiset{} == s.queue;
  }

  lemma LastSubmission(qt: QuotaTable, s: State, jobs: seq<Job>, n: nat)
    requires |jobs| == n + 1
    ensures Run(qt, s, Submissions(jobs)) == Step(qt, Run(qt, s, Submissions(jobs[..n])), Submit(jobs[n]))
  {
    hide Step;
    assert Submissions(jobs)[..n] == Submissions(jobs[..n]);
  }

  /** Inserting all rows and pushing the queued ones is submitting the jobs one after the other. */
  lemma {:induction false} SubmissionsAre(qt: QuotaTable, s: State, jobs: seq<Job>)
    requires Inv(s) && New(jobs, s.seen) && forall k :: 0 <= k < |jobs| ==> jobs[k].status in {Created, Queued}
    ensures Inv(AfterSubmissions(s, jobs)) && Run(qt, s, Submissions(jobs)) == AfterSubmissions(s, jobs)
  {
    hide Inv, Step, Run, AfterSubmissions, Submissions, New, IdsOf, NormalJob;
    if |jobs| == 0 {
      NothingSubmitted(qt, s, jobs);
    } else {
      var n := |jobs| - 1;
      var t := AfterSubmissions(s, jobs[..n]);
      NewButLast(jobs, s.seen, n);
      SubmissionsAre(qt, s, jobs[..n]);
      LastSubmission(qt, s, jobs, n);
      LastIsNormal(jobs, s.seen, n);
      AfterSeen(s, jobs[..n]);
      SubmitIs(qt, t, jobs[n]);
      SubmitOne(s, jobs, n);
      StepKeepsInv(qt, t, Submit(jobs[n]));
    }
  }

  lemma LastIsNormal(jobs: seq<Job>, seen: set<Id>, n: nat)
    requires New(jobs, seen) && n < |jobs|
    ensures NormalJob(jobs[n])
  {
  }

  lemma AfterSeen(s: State, jobs: seq<Job>)
    ensures AfterSubmissions(s, jobs).seen == s.seen + IdsOf(jobs)
  {
    hide IdsOf, QueuedAmong, RowsWith;
  }

  /** db_check_deps_status as a loop over the list. */
  method CheckDeps(rows: map<Id, Job>, deps: seq<Id>) returns (r: Deps)
    ensures r == DepsStatus(rows, deps)
    ensures r.Satisfied? <==> forall d :: d in deps ==> StatusOf(rows, d) == Some(Succeeded)
  {
    DepsDecide(rows, deps);
    for i := 0 to |deps|
      invariant DepsStatus(rows, deps) == DepsStatus(rows, deps[i..])
    {
      assert deps[i..][1..] == deps[i + 1..];
      var status := StatusOf(rows, deps[i]);
      if status.None? { return Broken; }
      if status.value == Failed || status.value == Cancelled { return Broken; }
      if status.value != Succeeded { return Waiting; }
    }
    r := Satisfied;
  }

  lemma QueuedOfIs(j: Job)
    ensures QueuedOf(Some(j)) == if j.status == Queued then multiset{j} else multiset{}
  {
  }

  lemma LoadedShare(rows: map<Id, Job>, i: Id, j: Job)
    requires i in rows && rows[i].id == i
    ensures QueuedOf(Some(rows[i]))[j] == if j.id == i then Share(rows, j) else 0
  {
  }

  /** The queue of a table, loaded row by row in any order. */
  method LoadQueue(rows: map<Id, Job>) returns (q: JobQueue)
    requires forall i :: i in rows ==> rows[i].id == i
    ensures q.Valid() && !q.closed && fresh(q) && fresh(q.heap) && IsQueueOf(q.Contents(), rows)
  {
    assert forall j: Job :: j.id !in rows ==> Share(rows, j) == 0;
    hide HeapOrdered, Share, QueuedOf;
    q := new JobQueue(64);
    var todo := rows.Keys;
    while todo != {}
      invariant q.Valid() && !q.closed && fresh(q) && fresh(q.heap) && todo <= rows.Keys
      invariant forall j: Job :: q.Contents()[j] == if j.id in todo then 0 else Share(rows, j)
      decreases |todo|
    {
      var i :| i in todo;
      ghost var before := q.Contents();
      if rows[i].status == Queued { var _ := q.Push(rows[i]); }
      QueuedOfIs(rows[i]);
      assert q.Contents() == before + QueuedOf(Some(rows[i]));
      forall j: Job ensures q.Contents()[j] == if j.id in todo - {i} then 0 else Share(rows, j) {
        LoadedShare(rows, i, j);
      }
      todo := todo - {i};
    }
  }

  lemma ReachedMore(acts: seq<Action>, a: Action)
    ensures Reached(acts + [a], Subject(a)) && forall i :: Reached(acts, i) ==> Reached(acts + [a], i)
  {
    assert (acts + [a])[..|acts + [a]| - 1] == acts;
  }

  class Scheduler {
    const qt: QuotaTable
    const queue: JobQueue
    var rows: map<Id, Job>
    var active: map<Id, Phase>
    var held: set<Id>
    var open: set<Id>
    var seen: set<Id>

    ghost function Now(): State
      reads this, queue, queue.heap
      requires queue.Valid()
    {
      State(rows, queue.Contents(), active, held, open, seen)
    }

    ghost predicate Valid()
      reads this, queue, queue.heap
    {
      queue.Valid() && !queue.closed && Inv(Now())
    }

    /** scheduler_init on the table `left` behind */
    constructor (qt: QuotaTable, ghost left: State, rows: map<Id, Job>, seen: set<Id>)
      requires Persisted(left) && left.rows == rows && left.seen == seen
      ensures Valid() && fresh(queue) && fresh(queue.heap) && Now() == RestartStep(left) && this.qt == qt
    {
      var recovered := Recovered(rows);
      var q := LoadQueue(recovered);
      this.qt, this.queue, this.rows, this.seen := qt, q, recovered, seen;
      active, held, open := map[], {}, {};
      new;
      RestartInv(left);
      QueueIsUnique(q.Contents(), RestartStep(left).queue, recovered);
    }

    /** cancel_job and scheduler_cancel_job */
    method CancelJob(i: Id)
      requires Valid()
      modifies this`rows, queue`size, queue.heap
      ensures Valid() && Now() == Step(qt, old(Now()), Cancel(i))
    {
      hide Step, Inv, AfterCancel, HeapOrdered;
      ghost var s := Now();
      CancelIs(qt, s, i);
      StepKeepsInv(qt, s, Cancel(i));
      NothingToCancel(s, i);
      if i in rows && !Terminal(rows[i].status) {
        QueuedIsInQueue(s, i);
        CancelUnfinished(i);
      }
    }

    /** submit_workflow: all steps or none. `stored` tells whose rows can be written, `commits` how the transaction ends. */
    method SubmitWorkflow(steps: seq<StepDef>, stored: nat -> bool, commits: bool) returns (r: Option<seq<Job>>)
      requires Valid() && New(seq(|steps|, k requires 0 <= k < |steps| => steps[k].job), seen)
      modifies this`rows, this`seen, queue`size, queue`heap, queue.heap
      ensures Valid() && (queue.heap == old(queue.heap) || fresh(queue.heap))
      ensures r.Some? <==> AllAccepted(steps) && commits && forall k: nat :: k < |steps| ==> stored(k)
      ensures r.None? ==> Now() == old(Now())
      ensures r.Some? ==> |r.value| == |steps| && forall k :: 0 <= k < |steps| ==> r.value[k] == StepJob(steps, k)
      ensures r.Some? ==> PointsBack(r.value) && Now() == Run(qt, old(Now()), Submissions(r.value))
      ensures r.Some? ==> forall k :: 0 <= k < |steps| ==>
                var j, given, deps := r.value[k], steps[k].job, steps[k].dependsOnSteps;
                && (j.status == Created <==> |deps| > 0 || |given.inputFiles| > 0)
                && (j.status == Queued <==> |deps| == 0 && |given.inputFiles| == 0)
                && |j.dependsOn| == |deps|
                && (forall i :: 0 <= i < |deps| ==>
                      && 0 <= deps[i].Floor < k && deps[i] == deps[i].Floor as real
                      && j.dependsOn[i] == steps[deps[i].Floor].job.id)
                && j == given.(dependsOn := j.dependsOn, status := j.status)
                && j.id in rows && rows[j.id] == j && (j in queue.Contents() <==> j.status == Queued)
    {
      hide Inv, Step, Run, New, StepJob, StepAccepted, Submissions, HeapOrdered, PointsBack;
      r := StoreAndQueue(steps, stored, commits);
      if r.Some? { WorkflowRows(qt, old(Now()), steps, r.value); }
    }

    method StoreAndQueue(steps: seq<StepDef>, stored: nat -> bool, commits: bool) returns (r: Option<seq<Job>>)
      requires Valid() && New(seq(|steps|, k requires 0 <= k < |steps| => steps[k].job), seen)
      modifies this`rows, this`seen, queue`size, queue`heap, queue.heap
      ensures Valid() && (queue.heap == old(queue.heap) || fresh(queue.heap))
      ensures r.Some? <==> AllAccepted(steps) && commits && forall k: nat :: k < |steps| ==> stored(k)
      ensures r.None? ==> Now() == old(Now())
      ensures r.Some? ==> |r.value| == |steps| && forall k :: 0 <= k < |steps| ==> r.value[k] == StepJob(steps, k)
      ensures r.Some? ==> PointsBack(r.value) && Now() == Run(qt, old(Now()), Submissions(r.value))
    {
      hide Inv, Step, Run, New, StepJob, StepAccepted, Submissions, HeapOrdered, PointsBack;
      if |steps| < 1 || |steps| > MAX_WORKFLOW_STEPS { return None; }
      var created := StoreSteps(steps, stored, commits);
      if created.None? { return None; }
      WorkflowSubmitted(qt, old(Now()), steps, created.value);
      seen := seen + IdsOf(created.value);
      PushQueued(created.value);
      r := created;
    }

    /** The transaction: the rows of all steps, or what was there before. */
    method StoreSteps(steps: seq<StepDef>, stored: nat -> bool, commits: bool) returns (r: Option<seq<Job>>)
      modifies this`rows
      ensures r.Some? <==> commits && forall k: nat :: k < |steps| ==> StepAccepted(steps, k) && stored(k)
      ensures r.Some? ==> |r.value| == |steps| && forall k :: 0 <= k < |steps| ==> r.value[k] == StepJob(steps, k)
      ensures rows == if r.Some? then RowsWith(old(rows), r.value) else old(rows)
    {
      hide StepAccepted;
      var before := rows;
      var created: seq<Job> := [];
      for k := 0 to |steps|
        invariant |created| == k && rows == RowsWith(before, created)
        invariant forall m: nat :: m < k ==> StepAccepted(steps, m) && stored(m) && created[m] == StepJob(steps, m)
      {
        var deps := ReadDependencies(steps, k);
        if deps.None? || !stored(k) {
          rows := before;
          return None;
        }
        var held := deps.value != [] || steps[k].job.inputFiles != [];
        var job := steps[k].job.(dependsOn := deps.value, status := if held then Created else Queued);
        assert (created + [job])[..k] == created;
        created := created + [job];
        rows := rows[job.id := job];
      }
      if !commits {
        rows := before;
        return None;
      }
      r := Some(created);
    }

    /** After the commit: what need not wait is queued. */
    method PushQueued(jobs: seq<Job>)
      requires queue.Valid() && !queue.closed
      modifies queue`size, queue`heap, queue.heap
      ensures queue.Valid() && (queue.heap == old(queue.heap) || fresh(queue.heap))
      ensures queue.Contents() == old(queue.Contents()) + QueuedAmong(jobs)
    {
      hide HeapOrdered, QueuedAmong, QueuedOf;
      ghost var was := queue.Contents();
      NoneAmong(jobs[..0]);
      for k := 0 to |jobs|
        invariant queue.Valid() && !queue.closed && (queue.heap == old(queue.heap) || fresh(queue.heap))
        invariant queue.Contents() == was + QueuedAmong(jobs[..k])
      {
        PushIfQueued(jobs[k]);
        QueuedAmongNext(jobs, k, was);
      }
      assert jobs[..|jobs|] == jobs;
    }

    method PushIfQueued(j: Job)
      requires queue.Valid() && !queue.closed
      modifies queue`size, queue`heap, queue.heap
      ensures queue.Valid() && !queue.closed && (queue.heap == old(queue.heap) || fresh(queue.heap))
      ensures queue.Contents() == old(queue.Contents()) + QueuedOf(Some(j))
    {
      hide HeapOrdered, QueuedOf;
      QueuedOfIs(j);
      if j.status == Queued { var _ := queue.Push(j); }
    }

    /** retry_job */
    method RetryJob(i: Id)
      requires Valid()
      modifies this`rows, queue`size, queue`heap, queue.heap
      ensures Valid() && (queue.heap == old(queue.heap) || fresh(queue.heap))
      ensures Now() == Step(qt, old(Now()), Retry(i))
    {
      ghost var s := Now();
      if i in rows { QueuedIsInQueue(s, i); }
      StepKeepsInv(qt, s, Retry(i));
      RetryIs(qt, s, i);
      hide Step, Inv, Anew;
      if i in rows && (rows[i].status == Failed || rows[i].status == Cancelled) && i !in active {
        Requeue(i);
      }
    }

    /** A stale entry, which is not there, goes; the row starts anew and is queued. */
    method Requeue(i: Id)
      requires queue.Valid() && !queue.closed && i in rows && forall j :: j in queue.Contents() ==> j.id != i
      modifies this`rows, queue`size, queue`heap, queue.heap
      ensures queue.Valid() && !queue.closed && (queue.heap == old(queue.heap) || fresh(queue.heap))
      ensures Now() == old(Now()).(rows := old(rows)[i := Anew(old(rows)[i])],
                                   queue := old(queue.Contents()) + multiset{Anew(old(rows)[i])})
    {
      hide Anew;
      var stale := queue.Remove(i);
      rows := rows[i := Anew(rows[i])];
      var _ := queue.Push(rows[i]);
    }

    /** One iteration of the scan: pop the least job; drop it, push it back, fail it or start it. */
    method ScanOne(fate: Fate) returns (popped: Option<Job>)
      requires queue.Valid() && !queue.closed && rows.Keys <= seen
      modifies this, queue`size, queue`heap, queue.heap
      ensures queue.Valid() && !queue.closed && (queue.heap == old(queue.heap) || fresh(queue.heap))
      ensures popped.None? ==> old(queue.Contents()) == multiset{} && Now() == old(Now())
      ensures popped.Some? ==> LeastAmong(popped.value, old(queue.Contents()), x => true)
                               && Now() == Step(qt, old(Now()), Scan(popped.value, fate))
    {
      ghost var s := Now();
      popped := queue.TryPop();
      if popped.None? { return; }
      var j := popped.value;
      ScanIs(qt, s, j, fate);
      hide Step, Started;
      Place(j, fate, s);
    }

    /** What happens to a job that has been popped. */
    method Place(j: Job, fate: Fate, ghost s: State)
      requires queue.Valid() && !queue.closed && j in s.queue && Now() == s.(queue := s.queue - multiset{j})
      modifies this, queue`size, queue`heap, queue.heap
      ensures queue.Valid() && !queue.closed && (queue.heap == old(queue.heap) || fresh(queue.heap))
      ensures Now() == AfterScan(s, j, fate, Admits(qt, s.rows, j))
    {
      AfterScanIs(s, j, fate, Admits(qt, s.rows, j));
      hide Started, Admits, AfterScan, HeapOrdered;
      if j.id in rows && rows[j.id].status == Queued {
        var admitted := QuotaCheck(qt, rows, j);
        if !admitted || fate.Unplaced? || j.id in held {
          PutBack(j, s);
        } else {
          Dispatch(j.id, fate);
        }
      }
    }

    /** The job waits for another scan. */
    method PutBack(j: Job, ghost s: State)
      requires queue.Valid() && !queue.closed && j in s.queue && Now() == s.(queue := s.queue - multiset{j})
      modifies queue`size, queue`heap, queue.heap
      ensures queue.Valid() && !queue.closed && (queue.heap == old(queue.heap) || fresh(queue.heap))
      ensures Now() == s
    {
      hide HeapOrdered;
      assert s.queue - multiset{j} + multiset{j} == s.queue;
      var _ := queue.Push(j);
    }

    /** The job is failed or started. */
    method Dispatch(i: Id, fate: Fate)
      requires queue.Valid() && i in rows && !fate.Unplaced?
      modifies this
      ensures fate.FailsToStart? ==> Now() == old(Now()).(rows := Marked(old(rows), i, Failed))
      ensures fate.Starts? ==>
                Now() == State(old(rows)[i := Started(old(rows)[i], fate)], old(queue.Contents()), old(active)[i := Executing],
                               old(held) + {i}, old(open) + {i}, old(seen))
    {
      hide Started, Marked, HeapOrdered;
      if fate.FailsToStart? { rows := Marked(rows, i, Failed); } else { Launch(i, fate); }
    }

    /** The reservation, its rows, the execution and the start on record. */
    method Launch(i: Id, fate: Fate)
      requires i in rows && fate.Starts?
      modifies this
      ensures rows == old(rows)[i := Started(old(rows)[i], fate)] && active == old(active)[i := Executing]
      ensures held == old(held) + {i} && open == old(open) + {i} && seen == old(seen)
    {
      held, open := held + {i}, open + {i};
      active := active[i := Executing];
      rows := rows[i := Started(rows[i], fate)];
    }

    /** One job of scheduler_check_held_jobs; `ready` says whether all its input files are there. */
    method CheckHeldJob(i: Id, ready: bool)
      requires Valid()
      modifies this`rows, queue`size, queue`heap, queue.heap
      ensures Valid() && (queue.heap == old(queue.heap) || fresh(queue.heap))
      ensures Now() == Step(qt, old(Now()), CheckHeld(i, ready))
    {
      ghost var s := Now();
      StepKeepsInv(qt, s, CheckHeld(i, ready));
      HeldIs(qt, s, i, ready);
      hide Step, Inv;
      if i in rows && rows[i].status == Created {
        var deps := CheckDeps(rows, rows[i].dependsOn);
        SettleHeld(i, ready, deps);
      }
    }

    method SettleHeld(i: Id, ready: bool, deps: Deps)
      requires queue.Valid() && !queue.closed && i in rows && rows[i].status == Created
      requires deps == DepsStatus(rows, rows[i].dependsOn)
      modifies this`rows, queue`size, queue`heap, queue.heap
      ensures queue.Valid() && !queue.closed && (queue.heap == old(queue.heap) || fresh(queue.heap))
      ensures Now() == AfterHeld(old(Now()), i, ready)
    {
      AfterHeldIs(Now(), i, ready);
      Unholding(rows, i);
      hide DepsStatus, Inv, AfterHeld, Cleared, Unheld, HeapOrdered;
      if deps == Broken {
        rows := Marked(rows, i, Failed);
      } else if deps == Satisfied {
        rows := rows[i := Cleared(rows[i])];
        if |rows[i].inputFiles| == 0 || ready { ReleaseHeld(i); }
      }
    }

    /** The job's row becomes QUEUED and the job read back from it is pushed. */
    method ReleaseHeld(i: Id)
      requires queue.Valid() && !queue.closed && i in rows
      modifies this`rows, queue`size, queue`heap, queue.heap
      ensures queue.Valid() && !queue.closed && (queue.heap == old(queue.heap) || fresh(queue.heap))
      ensures rows == Marked(old(rows), i, Queued) && queue.Contents() == old(queue.Contents()) + multiset{rows[i]}
    {
      rows := Marked(rows, i, Queued);
      var _ := queue.Push(rows[i]);
    }

    /** scheduler_check_held_jobs: every job that was CREATED at its beginning, once, in any order. */
    method CheckHeldJobs(ready: set<Id>) returns (ghost acts: seq<Action>)
      requires Valid()
      modifies this`rows, queue`size, queue`heap, queue.heap
      ensures Valid() && (queue.heap == old(queue.heap) || fresh(queue.heap))
      ensures Now() == Run(qt, old(Now()), acts) && OnlyHeldChecks(acts)
      ensures forall i :: StatusOf(old(rows), i) == Some(Created) ==> Reached(acts, i)
    {
      hide Inv, Step;
      acts := [];
      var held := set i | i in rows && rows[i].status == Created;
      ghost var all := held;
      while held != {}
        invariant Valid() && (queue.heap == old(queue.heap) || fresh(queue.heap))
        invariant Now() == Run(qt, old(Now()), acts) && OnlyHeldChecks(acts) && held <= all
        invariant forall i :: i in all && i !in held ==> Reached(acts, i)
        decreases |held|
      {
        var i :| i in held;
        CheckHeldJob(i, i in ready);
        ghost var a := CheckHeld(i, i in ready);
        RunAppend(qt, old(Now()), acts, a);
        ReachedMore(acts, a);
        acts := acts + [a];
        held := held - {i};
      }
    }

    /** One tick of scheduler_thread: no more iterations than there were jobs at its beginning. */
    method ScanTick(fates: seq<Fate>) returns (ghost acts: seq<Action>)
      requires Valid()
      modifies this, queue`size, queue`heap, queue.heap
      ensures Valid() && (queue.heap == old(queue.heap) || fresh(queue.heap))
      ensures |acts| <= old(queue.size) && (forall k :: 0 <= k < |acts| ==> acts[k].Scan?)
      ensures Now() == Run(qt, old(Now()), acts)
    {
      hide Inv, Step;
      acts := [];
      var jobsToScan := queue.size;
      var scan := 0;
      while scan < jobsToScan
        invariant |acts| <= scan <= jobsToScan && forall k :: 0 <= k < |acts| ==> acts[k].Scan?
        invariant queue.Valid() && !queue.closed && Inv(Now()) && (queue.heap == old(queue.heap) || fresh(queue.heap))
        invariant Now() == Run(qt, old(Now()), acts)
      {
        ghost var s := Now();
        InvSeen(s);
        var fate := if scan < |fates| then fates[scan] else Unplaced;
        var popped := ScanOne(fate);
        if popped.None? { break; }
        StepKeepsInv(qt, s, Scan(popped.value, fate));
        RunAppend(qt, old(Now()), acts, Scan(popped.value, fate));
        acts := acts + [Scan(popped.value, fate)];
        scan := scan + 1;
      }
    }

    method CancelUnfinished(i: Id)
      requires queue.Valid() && i in rows && !Terminal(rows[i].status)
      requires forall j :: j in queue.Contents() && j.id == i ==> j == rows[i]
      requires rows[i].status == Queued <==> rows[i] in queue.Contents()
      requires rows[i].id == i
      modifies this`rows, queue`size, queue.heap
      ensures queue.Valid() && Now() == AfterCancel(old(Now()), i)
    {
      AfterCancelIs(Now(), i);
      hide AfterCancel, Terminal, Marked, HeapOrdered;
      var queued := queue.Remove(i);
      if queued.Some? {
        rows := Marked(rows, i, Cancelled);
      } else {
        assert rows[i].status != Queued;
        CancelElsewhere(i);
      }
    }

    /** A job that is not in the queue: executing, or held. */
    method CancelElsewhere(i: Id)
      requires i in rows
      modifies this`rows
      ensures var status := old(rows)[i].status;
        rows == if (if i in active then status == Running else status == Created || status == Queued)
                then Marked(old(rows), i, Cancelled) else old(rows)
    {
      if i in active {
        if rows[i].status == Running { rows := Marked(rows, i, Cancelled); }
      } else if rows[i].status == Created || rows[i].status == Queued {
        rows := Marked(rows, i, Cancelled);
      }
    }
  }

  lemma NewSteps(steps: seq<StepDef>, jobs: seq<Job>, seen: set<Id>)
    requires New(seq(|steps|, k requires 0 <= k < |steps| => steps[k].job), seen) && |jobs| == |steps|
    requires forall k: nat :: k < |steps| ==> StepAccepted(steps, k) && jobs[k] == StepJob(steps, k)
    ensures New(jobs, seen) && forall k :: 0 <= k < |jobs| ==> jobs[k].status in {Created, Queued}
  {
    hide StepAccepted;
    var given := seq(|steps|, k requires 0 <= k < |steps| => steps[k].job);
    forall k | 0 <= k < |jobs|
      ensures jobs[k].id == given[k].id && jobs[k].need == given[k].need && jobs[k].status in {Created, Queued}
    {
      assert jobs[k] == StepJob(steps, k);
    }
  }

  lemma StepsMean(steps: seq<StepDef>, jobs: seq<Job>)
    requires |jobs| == |steps| && forall k: nat :: k < |steps| ==> StepAccepted(steps, k) && jobs[k] == StepJob(steps, k)
    ensures forall k :: 0 <= k < |steps| ==>
              var j, given, deps := jobs[k], steps[k].job, steps[k].dependsOnSteps;
              && (j.status == Created <==> |deps| > 0 || |given.inputFiles| > 0)
              && (j.status == Queued <==> |deps| == 0 && |given.inputFiles| == 0)
              && |j.dependsOn| == |deps|
              && (forall i :: 0 <= i < |deps| ==>
                    && 0 <= deps[i].Floor < k && deps[i] == deps[i].Floor as real
                    && j.dependsOn[i] == steps[deps[i].Floor].job.id)
              && j == given.(dependsOn := j.dependsOn, status := j.status)
  {
    hide StepAccepted, StepJob;
    forall k: nat | k < |steps|
      ensures
        var j, given, deps := jobs[k], steps[k].job, steps[k].dependsOnSteps;
        && (j.status == Created <==> |deps| > 0 || |given.inputFiles| > 0)
        && (j.status == Queued <==> |deps| == 0 && |given.inputFiles| == 0)
        && |j.dependsOn| == |deps|
        && (forall i :: 0 <= i < |deps| ==>
              && 0 <= deps[i].Floor < k && deps[i] == deps[i].Floor as real
              && j.dependsOn[i] == steps[deps[i].Floor].job.id)
        && j == given.(dependsOn := j.dependsOn, status := j.status)
    {
      StepJobMeans(steps, k);
    }
  }

  /** Every submitted job has its row, and its entry in the queue exactly when it is QUEUED. */
  lemma SubmittedRows(s: State, jobs: seq<Job>)
    requires New(jobs, s.seen) && Inv(AfterSubmissions(s, jobs))
    ensures var t := AfterSubmissions(s, jobs);
      forall k :: 0 <= k < |jobs| ==>
        jobs[k].id in t.rows && t.rows[jobs[k].id] == jobs[k] && (jobs[k] in t.queue <==> jobs[k].status == Queued)
  {
    var t := AfterSubmissions(s, jobs);
    RowsWithHas(s.rows, jobs, s.seen);
    InvIsQueue(t);
    hide Inv, AfterSubmissions;
    forall k | 0 <= k < |jobs| ensures jobs[k] in t.queue <==> jobs[k].status == Queued {
      assert t.queue[jobs[k]] == Share(t.rows, jobs[k]);
    }
  }

  lemma WorkflowRows(qt: QuotaTable, s: State, steps: seq<StepDef>, jobs: seq<Job>)
    requires Inv(s) && AllAccepted(steps) && New(seq(|steps|, k requires 0 <= k < |steps| => steps[k].job), s.seen)
    requires |jobs| == |steps| && forall k: nat :: k < |steps| ==> jobs[k] == StepJob(steps, k)
    ensures var t := Run(qt, s, Submissions(jobs));
      forall k :: 0 <= k < |steps| ==>
        var j, given, deps := jobs[k], steps[k].job, steps[k].dependsOnSteps;
        && (j.status == Created <==> |deps| > 0 || |given.inputFiles| > 0)
        && (j.status == Queued <==> |deps| == 0 && |given.inputFiles| == 0)
        && |j.dependsOn| == |deps|
        && (forall i :: 0 <= i < |deps| ==>
              && 0 <= deps[i].Floor < k && deps[i] == deps[i].Floor as real
              && j.dependsOn[i] == steps[deps[i].Floor].job.id)
        && j == given.(dependsOn := j.dependsOn, status := j.status)
        && j.id in t.rows && t.rows[j.id] == j && (j in t.queue <==> j.status == Queued)
  {
    hide Inv, Step, Run, New, StepJob, StepAccepted, Submissions, AfterSubmissions;
    NewSteps(steps, jobs, s.seen);
    SubmissionsAre(qt, s, jobs);
    StepsMean(steps, jobs);
    SubmittedRows(s, jobs);
  }

  lemma {:induction false} RowsWithHas(rows: map<Id, Job>, jobs: seq<Job>, seen: set<Id>)
    requires New(jobs, seen)
    ensures forall k :: 0 <= k < |jobs| ==> jobs[k].id in RowsWith(rows, jobs) && RowsWith(rows, jobs)[jobs[k].id] == jobs[k]
  {
    hide NormalJob;
    if |jobs| > 0 {
      var n := |jobs| - 1;
      NewButLast(jobs, seen, n);
      RowsWithHas(rows, jobs[..n], seen);
      assert forall k :: 0 <= k < n ==> jobs[..n][k] == jobs[k];
    }
  }

  lemma WorkflowSubmitted(qt: QuotaTable, s: State, steps: seq<StepDef>, jobs: seq<Job>)
    requires Inv(s) && AllAccepted(steps) && New(seq(|steps|, k requires 0 <= k < |steps| => steps[k].job), s.seen)
    requires |jobs| == |steps| && forall k: nat :: k < |steps| ==> jobs[k] == StepJob(steps, k)
    ensures PointsBack(jobs)
    ensures Inv(AfterSubmissions(s, jobs)) && Run(qt, s, Submissions(jobs)) == AfterSubmissions(s, jobs)
  {
    hide Inv, Run, New, StepJob, StepAccepted, Submissions, PointsBack, AfterSubmissions;
    AcceptedPointBack(steps, jobs);
    NewSteps(steps, jobs, s.seen);
    SubmissionsAre(qt, s, jobs);
  }

  lemma InvSeen(s: State)
    requires Inv(s)
    ensures s.rows.Keys <= s.seen
  {
    forall i | i in s.rows ensures i in s.seen { InvKeyed(s, i); }
  }

  lemma QueuedIsInQueue(s: State, i: Id)
    requires Inv(s) && i in s.rows
    ensures s.rows[i].id == i && (s.rows[i].status == Queued <==> s.rows[i] in s.queue)
    ensures forall j :: j in s.queue && j.id == i ==> j == s.rows[i]
  {
    InvKeyed(s, i);
    assert s.queue[s.rows[i]] == Share(s.rows, s.rows[i]);
    forall j | j in s.queue && j.id == i ensures j == s.rows[i] && j.status == Queued { assert s.queue[j] == Share(s.rows, j); }
  }
}
