// Exits: over any run of the executor, what became of the process and what is recorded.

module Exits {
  import opened Wrappers
  import opened Jobs
  import opened Execution
  import opened Executor
  import opened ExecutorRuns

  // ---------------------------------------------------------------- one step

  lemma WriteRow(s: State, e: ExecId, v: View, j: Id)
    ensures RowOf(Write(s, e, v), j) == if j == v.exec.job && v.row.Some? then v.row else RowOf(s, j)
  {
  }

  lemma RequestRow(v: View, status: Status, reason: string)
    ensures var w := Requested(v, status, reason); w.exec.job == v.exec.job && w.row in {v.row, Some(status)}
    ensures var w := ShutDown(v); w.exec.job == v.exec.job && w.row in {v.row, Some(Cancelled)}
  {
  }

  lemma MarkRow(s: State, e: ExecId, status: Status, reason: string, j: Id)
    ensures RowOf(Mark(s, e, status, reason), j) in {RowOf(s, j), Some(status)}
  {
    if e in s.execs && e in s.procs {
      var v := ViewOf(s, Owner(e, Registered));
      RequestRow(v, status, reason);
      hide Requested;
      WriteRow(s, e, Requested(v, status, reason), j);
    }
    hide Write;
  }

  lemma SweepOneRow(s: State, e: ExecId, j: Id)
    ensures RowOf(SweepOne(s, e), j) in {RowOf(s, j), Some(Cancelled)}
  {
    if e in s.execs && e in s.procs {
      var v := ViewOf(s, Owner(e, Registered));
      RequestRow(v, Cancelled, "");
      hide ShutDown;
      WriteRow(s, e, ShutDown(v), j);
    }
    hide Write;
  }

  lemma {:induction false} SweepRow(s: State, ids: seq<ExecId>, j: Id)
    ensures RowOf(Sweep(s, ids), j) in {RowOf(s, j), Some(Cancelled)}
    decreases |ids|
  {
    if |ids| > 0 {
      SweepOneRow(s, ids[0], j);
      hide SweepOne, RowOf;
      SweepRow(SweepOne(s, ids[0]), ids[1..], j);
    }
  }

  /** The owner whose step it is, with its view and where its move leads. */
  predicate Moves(s: State, a: Action) {
    && a.Own? && a.who in s.owners && s.owners[a.who].e in s.execs && s.owners[a.who].e in s.procs
    && var v := ViewOf(s, s.owners[a.who]); !v.pc.Unregister? && !Blocked(v)
  }

  lemma OwnRow(s: State, a: Action, j: Id)
    requires a.Own? && RowOf(Step(s, a), j) != RowOf(s, j)
    ensures Moves(s, a) && s.execs[s.owners[a.who].e].job == j
    ensures var v := ViewOf(s, s.owners[a.who]); RowOf(s, j) == v.row && RowOf(Step(s, a), j) == Move(v, a.c).row
  {
    hide Move, Write, HandsOver;
    if Moves(s, a) {
      var o := s.owners[a.who];
      var v := ViewOf(s, o);
      MoveKeepsJob(v, a.c);
      WriteRow(s, o.e, Move(v, a.c), j);
      WriteRow(Leave(s, a.who), o.e, Move(v, a.c), j);
      MoveKeepsRow(v, a.c);
    }
  }

  lemma OtherRow(s: State, a: Action, j: Id)
    requires !a.Own? && !a.Cancel? && !a.Timeout? && !a.Shutdown?
    ensures
      || RowOf(Step(s, a), j) == RowOf(s, j)
      || RowOf(Step(s, a), j) in {None, Some(Created), Some(Queued), Some(Failed), Some(Cancelled)}
  {
    hide Active;
  }

  /** A row becomes SUCCEEDED only by the step of the job's owner, nobody having asked it to end, after a good exit. */
  lemma SucceedsByOwner(s: State, a: Action, j: Id)
    requires Inv(s) && RowOf(s, j) != Some(Succeeded) && RowOf(Step(s, a), j) == Some(Succeeded)
    ensures a.Own? && a.who in s.owners && s.owners[a.who].e in s.execs
    ensures var o := s.owners[a.who];
      s.execs[o.e].job == j && o.pc.Decide? && o.pc.exitOk && !s.execs[o.e].requested
  {
    match a
    case Cancel(_, reason) => RequestStepRow(s, a.job, Cancelled, reason, j); hide RequestStep;
    case Timeout(_, reason) => RequestStepRow(s, a.job, Failed, reason, j); hide RequestStep;
    case Shutdown => SweepRow(s, s.active, j); hide Sweep;
    case Own(who, c, _) =>
      OwnRow(s, a, j);
      OwnerIsSane(s, who);
      OnlyGoodExitsSucceed(ViewOf(s, s.owners[who]), c);
      hide Inv, Move, OwnStep, StatusFits;
    case _ => OtherRow(s, a, j); hide Step;
  }

  lemma RequestStepRow(s: State, job: Id, status: Status, reason: string, j: Id)
    ensures RowOf(RequestStep(s, job, status, reason), j) in {RowOf(s, j), Some(status)}
  {
    hide FirstWith, RowOf;
    var r := FirstWith(s, s.active, job);
    if r.Some? { MarkRow(s, r.value, status, reason, j); }
    hide Mark;
  }

  lemma OwnerIsSane(s: State, who: Who)
    requires Inv(s) && who in s.owners
    ensures s.owners[who].e in s.execs && s.owners[who].e in s.procs
    ensures StatusFits(ViewOf(s, s.owners[who])) && ProcFits(ViewOf(s, s.owners[who]))
  {
    assert SaneAt(s, s.owners[who]);
    hide ProcFits, StatusFits, Covered, PendingFits;
  }

  // ---------------------------------------------------------------- requests and rows

  /** A cancellation of a job whose execution is under way makes it CANCELLED, a timeout makes it FAILED, in memory and in
      the row, with the requester's reason; and a published process becomes the requester's to kill. */
  lemma RequestMeans(s: State, j: Id, reason: string, e: ExecId)
    requires Inv(s) && FirstWith(s, s.active, j) == Some(e)
    requires !s.execs[e].requested && s.execs[e].jobStatus in {Queued, Running}
    ensures var t := Step(s, Cancel(j, reason));
      && e in t.execs && t.execs[e].requested && t.execs[e].status == Cancelled && t.execs[e].reason == reason
      && t.execs[e].jobStatus == Cancelled && RowOf(t, j) == (if j in s.db then Some(Cancelled) else None)
      && t.killers == (if s.execs[e].pid then s.killers + multiset{e} else s.killers)
    ensures var t := Step(s, Timeout(j, reason));
      && e in t.execs && t.execs[e].requested && t.execs[e].status == Failed && t.execs[e].reason == reason
      && t.execs[e].jobStatus == Failed && RowOf(t, j) == (if j in s.db then Some(Failed) else None)
      && t.killers == (if s.execs[e].pid then s.killers + multiset{e} else s.killers)
  {
    MarkIsStep(s, j, reason, e);
    MarkMeans(s, e, Cancelled, reason);
    MarkMeans(s, e, Failed, reason);
    hide Inv, FirstWith, Mark, Step, RowOf;
  }

  lemma MarkIsStep(s: State, j: Id, reason: string, e: ExecId)
    requires Inv(s) && FirstWith(s, s.active, j) == Some(e)
    ensures e in s.procs && e in s.execs && s.execs[e].job == j
    ensures Step(s, Cancel(j, reason)) == Mark(s, e, Cancelled, reason)
    ensures Step(s, Timeout(j, reason)) == Mark(s, e, Failed, reason)
  {
    hide Mark, Owned, AllSane, Distinct, Holding, NoneLeft, IdsSeen, ShutFits;
  }

  lemma MarkMeans(s: State, e: ExecId, status: Status, reason: string)
    requires e in s.execs && e in s.procs && status in {Cancelled, Failed}
    requires !s.execs[e].requested && s.execs[e].jobStatus in {Queued, Running}
    ensures var t, j := Mark(s, e, status, reason), s.execs[e].job;
      && e in t.execs && t.execs[e].requested && t.execs[e].status == status && t.execs[e].reason == reason
      && t.execs[e].jobStatus == status && RowOf(t, j) == (if j in s.db then Some(status) else None)
      && t.killers == (if s.execs[e].pid then s.killers + multiset{e} else s.killers)
  {
    var v := ViewOf(s, Owner(e, Registered));
    RequestIsRecorded(v, status, reason);
    RequestRow(v, status, reason);
    hide Requested;
    WriteRow(s, e, Requested(v, status, reason), s.execs[e].job);
  }

  /** A running row without an execution is failed by the timeout pass, and its record goes. */
  lemma StaleMeans(s: State, j: Id)
    ensures var t := Step(s, Row(j, FailStale));
      if s.sched.Idle? && RowOf(s, j) == Some(Running) && FirstWith(s, s.active, j).None?
      then RowOf(t, j) == Some(Failed) && j !in t.held
      else t == s
  {
    hide FirstWith;
  }

  // ---------------------------------------------------------------- the scheduler's thread

  /** A reserved job is handed to the executor only while its row says QUEUED; otherwise its record is given back and nothing
      else changes. */
  lemma DispatchMeans(s: State, j: Id)
    requires s.sched == Reserved(j)
    ensures RowOf(s, j) == Some(Queued) ==> Step(s, Dispatch) == s.(sched := Admitted(j))
    ensures RowOf(s, j) != Some(Queued) ==> Step(Step(s, Dispatch), LetGo) == s.(sched := Idle, held := s.held - {j})
  {
    hide RowOf;
  }

  /** Once shutdown has begun no execution is made of it: the job fails and its record is given back. */
  lemma RefusedMeans(s: State, j: Id)
    requires s.sched == Admitted(j) && s.shutting
    ensures Step(Step(Step(s, Register), Refuse), LetGo) ==
      s.(sched := Idle, held := s.held - {j}, db := if j in s.db then s.db[j := Failed] else s.db)
  {
    var t := Step(s, Register);
    assert t == s.(sched := Refused(j));
    var u := Step(t, Refuse);
    assert u.sched == Releasing(j);
  }

  // ---------------------------------------------------------------- processes and threads

  /** A requester that has copied the id of a live process kills it, once for each copy; and a process that is alive or killed
      may be gone the next moment. */
  lemma ProcessMeans(s: State, e: ExecId)
    requires e in s.procs
    ensures var t := Step(s, KillStep(e));
      e in s.killers ==>
        && t == s.(killers := t.killers, procs := t.procs) && t.killers == s.killers - multiset{e}
        && t.procs == s.procs[e := if s.procs[e] == Alive then Killed else s.procs[e]]
    ensures e !in s.killers ==> Step(s, KillStep(e)) == s
    ensures var t := Step(s, ProcExit(e));
      if s.procs[e] == Alive || s.procs[e] == Killed then t == s.(procs := s.procs[e := Exited]) else t == s
  {
  }

  /** A start that is recorded goes on in a launcher thread and a process that runs in a watcher thread, each time a new one;
      any other move stays with its thread. */
  lemma ThreadMeans(s: State, who: Who, c: Choice, tid: nat)
    requires who in s.owners && s.owners[who].e in s.execs && s.owners[who].e in s.procs && Thread(tid) !in s.owners
    requires var v := ViewOf(s, s.owners[who]); !Blocked(v) && !v.pc.Unregister?
    ensures var t, o := Step(s, Own(who, c, tid)), s.owners[who];
      if c.ok && (o.pc.Persisted? || o.pc.Published?)
      then who !in t.owners && Thread(tid) in t.owners && t.owners[Thread(tid)].e == o.e && (who.Scheduler? ==> t.sched.Idle?)
      else who in t.owners && t.owners[who].e == o.e && t.sched == s.sched
  {
    hide Move;
  }

  // ---------------------------------------------------------------- shutdown

  /** The execution has been told to end by the shutdown, in memory and in the row, and its published process is killed. */
  predicate Told(s: State, e: ExecId, row: bool, pid: bool) {
    && e in s.execs && e in s.procs && s.execs[e].requested && s.execs[e].status == Cancelled
    && s.execs[e].jobStatus == Cancelled && (row ==> RowOf(s, s.execs[e].job) == Some(Cancelled)) && (pid ==> s.procs[e] != Alive)
  }

  lemma SweepOneTells(s: State, e: ExecId)
    requires e in s.execs && e in s.procs && !s.execs[e].requested && s.execs[e].jobStatus in {Queued, Running}
    ensures Told(SweepOne(s, e), e, s.execs[e].job in s.db, s.execs[e].pid)
  {
    var v := ViewOf(s, Owner(e, Registered));
    RequestIsRecorded(v, Cancelled, "");
    RequestRow(v, Cancelled, "");
    WriteRow(s, e, ShutDown(v), s.execs[e].job);
    hide Requested, RowOf;
  }

  /** One more of the list changes nothing of another job's execution, and nothing of one that has been told. */
  lemma SweepOneSpares(s: State, d: ExecId, e: ExecId)
    requires e in s.execs && e in s.procs && e != d && (d in s.execs ==> s.execs[d].job != s.execs[e].job)
    ensures var t := SweepOne(s, d);
      && e in t.execs && e in t.procs && t.execs[e] == s.execs[e] && t.procs[e] == s.procs[e]
      && RowOf(t, s.execs[e].job) == RowOf(s, s.execs[e].job)
  {
    if d in s.execs && d in s.procs {
      var v := ViewOf(s, Owner(d, Registered));
      RequestRow(v, Cancelled, "");
      hide ShutDown;
      WriteRow(s, d, ShutDown(v), s.execs[e].job);
    }
    hide RowOf;
  }

  lemma SweepOneKeepsJobs(s: State, d: ExecId)
    ensures var t := SweepOne(s, d); t.execs.Keys == s.execs.Keys && t.procs.Keys >= s.procs.Keys
    ensures forall x :: x in s.execs ==> SweepOne(s, d).execs[x].job == s.execs[x].job
  {
    if d in s.execs && d in s.procs { RequestRow(ViewOf(s, Owner(d, Registered)), Cancelled, ""); }
    hide ShutDown;
  }

  lemma SweepOneKeepsTold(s: State, d: ExecId, e: ExecId, row: bool, pid: bool)
    requires Told(s, e, row, pid) && Distinct(s)
    ensures Told(SweepOne(s, d), e, row, pid)
  {
    if d == e {
      var v := ViewOf(s, Owner(e, Registered));
      RequestRow(v, Cancelled, "");
      FirstRequestStands(v, Cancelled, "");
      ToldProcess(v);
      hide ShutDown;
      WriteRow(s, e, ShutDown(v), s.execs[e].job);
    } else {
      SweepOneSpares(s, d, e);
    }
    hide RowOf, SweepOne;
  }

  lemma ToldProcess(v: View)
    ensures v.proc != Alive ==> ShutDown(v).proc != Alive
  {
  }

  /** Everything on the list that had not ended is told. */
  lemma {:induction false} SweepTells(s: State, ids: seq<ExecId>, e: ExecId, row: bool, pid: bool)
    requires Distinct(s) && e in s.execs && e in s.procs
    requires Told(s, e, row, pid) || (e in ids && !s.execs[e].requested && s.execs[e].jobStatus in {Queued, Running}
                                      && row == (s.execs[e].job in s.db) && pid == s.execs[e].pid)
    ensures Told(Sweep(s, ids), e, row, pid)
    decreases |ids|
  {
    if |ids| > 0 {
      var d := ids[0];
      var u := SweepOne(s, d);
      SweepOneKeepsJobs(s, d);
      if Told(s, e, row, pid) { SweepOneKeepsTold(s, d, e, row, pid); }
      else if d == e { SweepOneTells(s, e); }
      else { SweepOneSpares(s, d, e); }
      hide SweepOne, Told;
      SweepTells(u, ids[1..], e, row, pid);
    }
  }

  /** Shutdown cancels every job on the list that has not ended, in memory and in its row, and kills its published process. */
  lemma ShutdownMeans(s: State, e: ExecId)
    requires Inv(s) && e in s.active && !s.execs[e].requested && s.execs[e].jobStatus in {Queued, Running}
    ensures var t, j := Step(s, Shutdown), s.execs[e].job;
      && t.shutting && t.active == s.active
      && e in t.execs && t.execs[e].requested && t.execs[e].status == Cancelled && t.execs[e].jobStatus == Cancelled
      && (j in s.db ==> RowOf(t, t.execs[e].job) == Some(Cancelled))
      && (s.execs[e].pid ==> e in t.procs && t.procs[e] != Alive)
  {
    hide Sweep, Inv, Distinct;
    ListedIsKnown(s, e);
    SweepTells(s, s.active, e, s.execs[e].job in s.db, s.execs[e].pid);
    SweepKeepsList(s, s.active);
  }

  lemma ListedIsKnown(s: State, e: ExecId)
    requires Inv(s) && e in s.active
    ensures Distinct(s) && e in s.execs && e in s.procs
  {
    hide AllSane, Holding, Owned, NoneLeft, Distinct, IdsSeen, ShutFits;
  }

  lemma {:induction false} SweepKeepsList(s: State, ids: seq<ExecId>)
    ensures Sweep(s, ids).active == s.active
    decreases |ids|
  {
    if |ids| > 0 {
      assert SweepOne(s, ids[0]).active == s.active by { hide ShutDown, ViewOf; }
      hide SweepOne;
      SweepKeepsList(SweepOne(s, ids[0]), ids[1..]);
    }
  }

  // ---------------------------------------------------------------- runs

  /** After the wait for the process has returned, an owner carries its exit along. */
  predicate Carries(pc: Pc) { pc.WReaped? || pc.WCleared? || pc.Decide? }

  /** The exit code the owner of `e` carries is that of a wait that has returned for its process. */
  ghost predicate WaitedAt(s: State, acts: seq<Action>, e: ExecId, ok: bool, k: nat) {
    && k < |acts| && acts[k].Own? && acts[k].c.exitOk == ok
    && var u := Run(s, acts[..k]);
       acts[k].who in u.owners && u.owners[acts[k].who] == Owner(e, Watching) && e in u.procs && u.procs[e] == Exited
  }

  ghost predicate Waited(s: State, acts: seq<Action>, e: ExecId, ok: bool) {
    exists k: nat :: WaitedAt(s, acts, e, ok, k)
  }

  lemma WaitedBefore(s: State, acts: seq<Action>, a: Action, e: ExecId, ok: bool)
    requires Waited(s, acts, e, ok)
    ensures Waited(s, acts + [a], e, ok)
  {
    hide Run;
    var k: nat :| WaitedAt(s, acts, e, ok, k);
    assert (acts + [a])[..k] == acts[..k];
    assert WaitedAt(s, acts + [a], e, ok, k);
  }

  /** Where an owner with an exit code was one step before. */
  ghost predicate CameFrom(s: State, a: Action, w: Who, o: Owner) {
    && w in s.owners
    && (|| s.owners[w] == o
        || (&& s.owners[w].e == o.e && Carries(o.pc)
            && (|| (Carries(s.owners[w].pc) && s.owners[w].pc.exitOk == o.pc.exitOk)
                || (a.Own? && a.who == w && s.owners[w].pc == Watching && o.e in s.procs && s.procs[o.e] == Exited
                    && a.c.exitOk == o.pc.exitOk))))
  }

  lemma MoverCameFrom(s: State, a: Action, w: Who)
    requires Moves(s, a) && w in Step(s, a).owners && Carries(Step(s, a).owners[w].pc)
    ensures CameFrom(s, a, w, Step(s, a).owners[w])
  {
    var v := ViewOf(s, s.owners[a.who]);
    ExitIsReaped(v, a.c);
    if HandsOver(v, a.c) { HandOverCarriesNothing(v, a.c); }
    hide Move, Write;
  }

  lemma HandOverCarriesNothing(v: View, c: Choice)
    requires !Blocked(v) && !v.pc.Unregister? && HandsOver(v, c)
    ensures !Carries(Move(v, c).pc)
  {
  }

  lemma OwnersOfRest(s: State, a: Action)
    requires !Moves(s, a) && !a.Cancel? && !a.Timeout? && !a.Shutdown?
    ensures forall w :: w in Step(s, a).owners && Carries(Step(s, a).owners[w].pc) ==>
              w in s.owners && s.owners[w] == Step(s, a).owners[w]
  {
    hide Move, Active, RowOf, HandsOver;
  }

  lemma {:induction false} SweepOwners(s: State, ids: seq<ExecId>)
    ensures Sweep(s, ids).owners == s.owners
    decreases |ids|
  {
    if |ids| > 0 {
      assert SweepOne(s, ids[0]).owners == s.owners by { hide ShutDown, ViewOf; }
      hide SweepOne;
      SweepOwners(SweepOne(s, ids[0]), ids[1..]);
    }
  }

  lemma RequestOwners(s: State, j: Id, status: Status, reason: string)
    ensures RequestStep(s, j, status, reason).owners == s.owners
  {
    hide FirstWith, ViewOf, Requested;
  }

  lemma OwnersCameFrom(s: State, a: Action, w: Who)
    requires w in Step(s, a).owners && Carries(Step(s, a).owners[w].pc)
    ensures CameFrom(s, a, w, Step(s, a).owners[w])
  {
    if Moves(s, a) {
      MoverCameFrom(s, a, w);
    } else {
      match a
      case Cancel(j, reason) => RequestOwners(s, j, Cancelled, reason); hide RequestStep, Moves;
      case Timeout(j, reason) => RequestOwners(s, j, Failed, reason); hide RequestStep, Moves;
      case Shutdown => SweepOwners(s, s.active); hide Sweep, Moves;
      case _ => OwnersOfRest(s, a); hide Step, Moves;
    }
  }

  /** In every reachable state an exit code that is carried is the one the wait for that process returned. */
  lemma {:induction false} ExitsAreReal(s: State, acts: seq<Action>, w: Who)
    requires Fresh(s) && w in Run(s, acts).owners && Carries(Run(s, acts).owners[w].pc)
    ensures Waited(s, acts, Run(s, acts).owners[w].e, Run(s, acts).owners[w].pc.exitOk)
  {
    hide Step, CameFrom, WaitedAt, Waited;
    if |acts| > 0 {
      var before, a := acts[..|acts| - 1], acts[|acts| - 1];
      var u, o := Run(s, before), Run(s, acts).owners[w];
      assert acts == before + [a];
      OwnersCameFrom(u, a, w);
      if JustWaited(u, a, w, o) {
        NowWaited(s, before, a, w, o);
      } else {
        EarlierExit(u, a, w, o);
        ExitsAreReal(s, before, w);
        WaitedBefore(s, before, a, o.e, o.pc.exitOk);
      }
    }
  }

  predicate JustWaited(s: State, a: Action, w: Who, o: Owner) {
    && a.Own? && a.who == w && w in s.owners && s.owners[w] == Owner(o.e, Watching) && o.e in s.procs && s.procs[o.e] == Exited
    && Carries(o.pc) && a.c.exitOk == o.pc.exitOk
  }

  lemma NowWaited(s: State, before: seq<Action>, a: Action, w: Who, o: Owner)
    requires JustWaited(Run(s, before), a, w, o)
    ensures Waited(s, before + [a], o.e, o.pc.exitOk)
  {
    hide Run;
    assert (before + [a])[..|before|] == before;
    assert WaitedAt(s, before + [a], o.e, o.pc.exitOk, |before|);
  }

  lemma EarlierExit(s: State, a: Action, w: Who, o: Owner)
    requires CameFrom(s, a, w, o) && Carries(o.pc) && !JustWaited(s, a, w, o)
    ensures w in s.owners && s.owners[w].e == o.e && Carries(s.owners[w].pc) && s.owners[w].pc.exitOk == o.pc.exitOk
  {
  }

  /** In every run from a fresh start: a row becomes SUCCEEDED only by the step of the thread that owns an execution of the
      job, nobody having asked it to end, and that thread has waited for the process and seen it exit well. */
  lemma SucceededMeansExitedWell(s: State, acts: seq<Action>, a: Action, j: Id)
    requires Fresh(s) && RowOf(Run(s, acts), j) != Some(Succeeded) && RowOf(Step(Run(s, acts), a), j) == Some(Succeeded)
    ensures var u := Run(s, acts);
      && a.Own? && a.who in u.owners && u.owners[a.who].e in u.execs
      && var e := u.owners[a.who].e;
         u.execs[e].job == j && !u.execs[e].requested && Waited(s, acts, e, true)
  {
    AlwaysInv(s, acts);
    hide Inv, Step, Waited, Run, RowOf;
    SucceedsByOwner(Run(s, acts), a, j);
    ExitsAreReal(s, acts, a.who);
  }
}
