// Agreement: the executor's protocol and the job lifecycle say the same of a job's row.

module Agreement {
  import opened Wrappers
  import opened Jobs
  import opened Quotas
  import L = Lifecycle
  import R = Runs
  import O = Outcomes
  import E = Executor
  import X = Exits

  /** Both speak of the same row, of a job that nothing executes. */
  ghost predicate SameIdleRow(r: R.State, s: E.State, i: Id) {
    R.Inv(r) && i !in r.active && !E.Active(s, i) && R.StatusOf(r.rows, i) == E.RowOf(s, i) && (i in r.seen <==> i in s.seen)
  }

  /** A cancellation, a retry, a purge and a release by hand do the same to it. */
  lemma IdleRowsAgree(qt: QuotaTable, r: R.State, s: E.State, i: Id)
    requires SameIdleRow(r, s, i)
    ensures R.StatusOf(R.Step(qt, r, L.Cancel(i)).rows, i) == E.RowOf(E.Step(s, E.Row(i, E.CancelRow)), i)
    ensures R.StatusOf(R.Step(qt, r, L.Retry(i)).rows, i) == E.RowOf(E.Step(s, E.Row(i, E.Retry)), i)
    ensures R.StatusOf(R.Step(qt, r, L.Purge(i)).rows, i) == E.RowOf(E.Step(s, E.Row(i, E.Purge)), i)
    ensures R.StatusOf(R.Step(qt, r, L.Release(i)).rows, i) == E.RowOf(E.Step(s, E.Row(i, E.ReleaseHeld)), i)
  {
    hide R.Inv, R.Step, E.Step, E.Active, R.StatusOf, E.RowOf;
    CancelsAgree(qt, r, s, i);
    RetriesAgree(qt, r, s, i);
    PurgesAgree(qt, r, s, i);
    ReleasesAgree(qt, r, s, i);
  }

  lemma CancelsAgree(qt: QuotaTable, r: R.State, s: E.State, i: Id)
    requires SameIdleRow(r, s, i)
    ensures R.StatusOf(R.Step(qt, r, L.Cancel(i)).rows, i) == E.RowOf(E.Step(s, E.Row(i, E.CancelRow)), i)
  {
    hide R.Inv, R.Step, E.Active, O.OthersAsBefore;
    O.CancelMeans(qt, r, i);
    IdleIsNotRunning(r, i);
  }

  lemma RetriesAgree(qt: QuotaTable, r: R.State, s: E.State, i: Id)
    requires SameIdleRow(r, s, i)
    ensures R.StatusOf(R.Step(qt, r, L.Retry(i)).rows, i) == E.RowOf(E.Step(s, E.Row(i, E.Retry)), i)
  {
    hide R.Inv, R.Step, E.Active, O.OthersAsBefore;
    O.RetryMeans(qt, r, i);
  }

  lemma PurgesAgree(qt: QuotaTable, r: R.State, s: E.State, i: Id)
    requires SameIdleRow(r, s, i)
    ensures R.StatusOf(R.Step(qt, r, L.Purge(i)).rows, i) == E.RowOf(E.Step(s, E.Row(i, E.Purge)), i)
  {
    hide R.Inv, R.Step, E.Active, O.OthersAsBefore;
    O.PurgeMeans(qt, r, i);
  }

  lemma ReleasesAgree(qt: QuotaTable, r: R.State, s: E.State, i: Id)
    requires SameIdleRow(r, s, i)
    ensures R.StatusOf(R.Step(qt, r, L.Release(i)).rows, i) == E.RowOf(E.Step(s, E.Row(i, E.ReleaseHeld)), i)
  {
    hide R.Inv, R.Step, E.Active, O.OthersAsBefore;
    O.ReleaseMeans(qt, r, i);
  }

  lemma IdleIsNotRunning(r: R.State, i: Id)
    requires R.Inv(r) && i !in r.active
    ensures R.StatusOf(r.rows, i) !in {Some(Running), Some(Starting)}
  {
    assert R.Local(r, i);
  }

  /** So does the held-job pass, whichever way it goes, and a submission. */
  lemma HeldRowsAgree(qt: QuotaTable, r: R.State, s: E.State, i: Id, ready: bool)
    requires SameIdleRow(r, s, i)
    ensures var after := R.StatusOf(R.Step(qt, r, L.CheckHeld(i, ready)).rows, i);
      || after == E.RowOf(s, i)
      || after == E.RowOf(E.Step(s, E.Row(i, E.ReleaseHeld)), i) || after == E.RowOf(E.Step(s, E.Row(i, E.FailHeld)), i)
  {
    O.CheckHeldMeans(qt, r, i, ready);
    hide R.Inv, R.Step, E.Active;
  }

  lemma SubmissionsAgree(qt: QuotaTable, r: R.State, s: E.State, j: Job)
    requires SameIdleRow(r, s, j.id) && j.status in {Created, Queued} && L.NormalJob(j)
    ensures R.StatusOf(R.Step(qt, r, L.Submit(j)).rows, j.id) ==
      E.RowOf(E.Step(s, E.Row(j.id, E.Submit(j.status == Created))), j.id)
  {
    O.SubmitMeans(qt, r, j);
    hide R.Inv, R.Step, E.Active;
  }

  /** A job that is running, in both: a cancellation, or a timeout, ends it with the same status. */
  lemma RequestsAgree(qt: QuotaTable, r: R.State, s: E.State, i: Id, reason: string, e: E.ExecId)
    requires R.Inv(r) && E.Inv(s) && E.FirstWith(s, s.active, i) == Some(e) && !s.execs[e].requested
    requires s.execs[e].jobStatus == Running && R.StatusOf(r.rows, i) == E.RowOf(s, i) == Some(Running)
    ensures R.StatusOf(R.Step(qt, r, L.Cancel(i)).rows, i) == E.RowOf(E.Step(s, E.Cancel(i, reason)), i)
    ensures R.StatusOf(R.Step(qt, r, L.Timeout(i)).rows, i) == E.RowOf(E.Step(s, E.Timeout(i, reason)), i)
  {
    O.CancelMeans(qt, r, i);
    O.TimeoutMeans(qt, r, i);
    X.RequestMeans(s, i, reason, e);
    hide R.Inv, R.Step, E.Inv, E.Step, E.FirstWith;
  }
}
