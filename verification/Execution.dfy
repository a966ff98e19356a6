// Execution: the life of one execution as its owning thread drives it, and what others may do to it meanwhile.
// Each move is one section of the code that runs under the executor's lock, or one call between two of them.

module Execution {
  import opened Wrappers
  import opened Jobs

  /** The process behind an execution. A killed process has been sent SIGKILL and may not be gone yet. */
  datatype Proc = NotStarted | Alive | Killed | Exited | Reaped

  datatype Exec = Exec(
    job: Id,
    requested: bool,        // termination_requested
    status: Status,         // terminal_status
    reason: string,         // terminal_reason
    pid: bool,              // the process is published in the execution
    jobStatus: Status,      // job->status, the in-memory copy
    late: bool)             // the start was persisted after termination had been requested

  /** Where the owning thread stands. */
  datatype Pc =
    // spawner: executor_spawn on the scheduler's thread
    | Registered
    | Checked
    | Marked
    | Persisted
    // launcher
    | LStart
    | Launching
    | Forked
    | MustKill
    | Published
    | AbortWait(published: bool)
    | AbortClear
    // watcher
    | Watching
    | WReaped(exitOk: bool)
    | WCleared(exitOk: bool)
    | Decide(terminated: bool, status: Status, reason: string, exitOk: bool)
    // finish_without_process, and the common end
    | FSnapshot(status: Status, reason: string)
    | FStatus(status: Status, reason: string)
    | Release
    | Unregister

  /** One execution with everything its owner's moves depend on. */
  datatype View = View(
    exec: Exec,
    proc: Proc,
    pc: Pc,
    holds: bool,            // an allocation record for the job is active
    row: Option<Status>,    // the persisted status of the job, if its row still exists
    pending: bool)          // some requester has copied the process id and is about to kill it

  /** job_set_status_r: refused by the transition table, or written to the job and to its row. */
  function SetStatus(v: View, to: Status): View {
    if TransitionAllowed(v.exec.jobStatus, to)
    then v.(exec := v.exec.(jobStatus := to), row := if v.row.Some? then Some(to) else None)
    else v
  }

  function Kill(p: Proc): Proc { if p == Alive then Killed else p }

  /** How the environment decides a call that may fail. */
  datatype Choice = Choice(ok: bool, exitOk: bool)

  /** waitpid blocks until the process is gone. */
  predicate Blocked(v: View) { (v.pc.Watching? || v.pc.AbortWait?) && v.proc != Exited }

  predicate HandsOver(v: View, c: Choice) { c.ok && (v.pc.Persisted? || v.pc.Published?) }

  /** One move of the owning thread. */
  function Move(v: View, c: Choice): View
    requires !Blocked(v) && !v.pc.Unregister?
  {
    match v.pc
    case Registered =>
      if v.row != Some(Queued) then v.(pc := Release) else v.(pc := Checked)
    case Checked =>
      if !c.ok then SetStatus(v, Failed).(pc := Release)            // job storage could not be created
      else if !TransitionAllowed(v.exec.jobStatus, Running) then v.(pc := Release)
      else SetStatus(v, Running).(pc := Marked)
    case Marked =>
      if !c.ok then v.(pc := FSnapshot(Failed, "Failed to persist job start"))
      else v.(pc := Persisted, row := if v.row.Some? then Some(Running) else None,
              exec := v.exec.(late := v.exec.requested))
    case Persisted =>
      if c.ok then v.(pc := LStart) else v.(pc := FSnapshot(Failed, "Failed to create launcher thread"))
    case LStart =>
      if v.exec.requested then v.(pc := FSnapshot(Cancelled, "Cancelled before launch")) else v.(pc := Launching)
    case Launching =>
      if c.ok then v.(pc := Forked, proc := Alive) else v.(pc := FSnapshot(Failed, "Failed to spawn process"))
    case Forked =>
      if !c.ok then v.(pc := AbortWait(false), proc := Kill(v.proc))
      else v.(pc := if v.exec.requested then MustKill else Published, exec := v.exec.(pid := true))
    case MustKill => v.(pc := Published, proc := Kill(v.proc))
    case Published => if c.ok then v.(pc := Watching) else v.(pc := AbortWait(true), proc := Kill(v.proc))
    case AbortWait(published) =>
      v.(pc := if published then AbortClear else FSnapshot(Failed, "Failed to spawn process"), proc := Reaped)
    case AbortClear => v.(pc := FSnapshot(Failed, "Failed to spawn process"), exec := v.exec.(pid := false))
    case Watching => v.(pc := WReaped(c.exitOk), proc := Reaped)
    case WReaped(exitOk) => v.(pc := WCleared(exitOk), exec := v.exec.(pid := false))
    case WCleared(exitOk) =>
      v.(pc := if v.exec.requested then Decide(true, v.exec.status, v.exec.reason, exitOk) else Decide(false, Failed, "", exitOk))
    case Decide(terminated, status, reason, exitOk) =>
      (if terminated then
         if v.exec.jobStatus != Cancelled && v.exec.jobStatus != Failed then SetStatus(v, status) else v
       else SetStatus(v, if exitOk then Succeeded else Failed)).(pc := Release)
    case FSnapshot(status, reason) =>
      v.(pc := if v.exec.requested then FStatus(v.exec.status, v.exec.reason) else FStatus(status, reason))
    case FStatus(status, reason) =>
      (if Terminal(v.exec.jobStatus) then v else SetStatus(v, status)).(pc := Release)
    case Release => v.(pc := Unregister, holds := false)
    case Unregister => v
  }

  /** Only the first request is recorded; it also ends the job, unless its status is terminal already. */
  predicate Ends(x: Exec, status: Status) {
    !x.requested && (x.jobStatus == Queued || x.jobStatus == Running) && TransitionAllowed(x.jobStatus, status)
  }

  function Asked(x: Exec, status: Status, reason: string): Exec {
    if x.requested then x
    else Exec(x.job, true, status, reason, x.pid, if Ends(x, status) then status else x.jobStatus, x.late)
  }

  /** The locked section of active_request_termination; a published process becomes the requester's to kill. */
  function Requested(v: View, status: Status, reason: string): View {
    View(Asked(v.exec, status, reason), v.proc, v.pc, v.holds,
         if Ends(v.exec, status) && v.row.Some? then Some(status) else v.row, v.pending || v.exec.pid)
  }

  /** What executor_shutdown does to one execution of the list: request, and kill on the spot. */
  function ShutDown(v: View): View {
    var w := Requested(v, Cancelled, "Orchestrator shutting down");
    View(w.exec, if v.exec.pid then Kill(v.proc) else v.proc, v.pc, v.holds, w.row, v.pending)
  }

  // ---------------------------------------------------------------- what always holds of one execution

  /** Process and published id fit the owner's position. */
  predicate ProcFits(v: View) {
    match v.pc
    case Registered | Checked | Marked | Persisted | LStart | Launching => v.proc == NotStarted && !v.exec.pid
    case Forked => (v.proc == Alive || v.proc == Exited) && !v.exec.pid
    case MustKill => (v.proc == Alive || v.proc == Killed || v.proc == Exited) && v.exec.pid && v.exec.requested
    case Published | Watching => (v.proc == Alive || v.proc == Killed || v.proc == Exited) && v.exec.pid
    case AbortWait(p) => (v.proc == Killed || v.proc == Exited) && v.exec.pid == p
    case AbortClear | WReaped(_) => v.proc == Reaped && v.exec.pid
    case WCleared(_) | Decide(_, _, _, _) => v.proc == Reaped && !v.exec.pid
    case FSnapshot(_, _) | FStatus(_, _) | Release | Unregister => (v.proc == NotStarted || v.proc == Reaped) && !v.exec.pid
  }

  /** Once termination is requested, a live process has someone about to kill it: a requester with its id, or
      the launcher, which has yet to publish it and will then see the request. */
  predicate Covered(v: View) {
    v.exec.requested && v.proc == Alive ==> v.pending || v.pc.Forked? || v.pc.MustKill?
  }

  /** Row and in-memory status agree once the job has been marked running, unless its start was persisted late. */
  predicate InStep(v: View) {
    if v.exec.late then v.row in {None, Some(Running)}
    else v.row in {None, Some(v.exec.jobStatus)}
  }

  predicate StatusFits(v: View) {
    && (v.exec.requested ==> Terminal(v.exec.jobStatus) && v.exec.status in {Cancelled, Failed})
    && v.exec.jobStatus != Created && v.exec.jobStatus != Starting && (v.exec.late ==> v.exec.requested)
    && match v.pc
       case Registered | Checked =>
         && !v.exec.late
         && (v.row == None || v.row == Some(Queued) || Terminal(v.row.value))
         && (if v.exec.requested then v.row != Some(Queued) else v.exec.jobStatus == Queued)
       case Marked => !v.exec.late && InStep(v) && (v.exec.requested || v.exec.jobStatus == Running)
       case Release | Unregister =>
         v.row == None || (v.row == Some(Running) && v.exec.late) || (Terminal(v.row.value) && !v.exec.late)
       case Decide(terminated, status, _, _) =>
         InStep(v) && (v.exec.requested || v.exec.jobStatus == Running) && (terminated ==> v.exec.requested)
       case FSnapshot(status, _) =>
         InStep(v) && (v.exec.requested || v.exec.jobStatus == Running) && status in {Cancelled, Failed}
       case FStatus(status, _) => InStep(v) && (v.exec.requested || v.exec.jobStatus == Running) && status in {Cancelled, Failed}
       case _ => InStep(v) && (v.exec.requested || v.exec.jobStatus == Running)
  }

  /** The allocation is held until the owner has released it, and it leaves the list only afterwards. */
  predicate HoldsFits(v: View) { v.holds <==> !v.pc.Unregister? }

  /** Nobody can be about to kill a process whose id has never been published. */
  predicate PendingFits(v: View) { v.pending ==> v.proc != NotStarted && !v.pc.Forked? }

  predicate Sane(v: View) {
    ProcFits(v) && Covered(v) && StatusFits(v) && HoldsFits(v) && PendingFits(v)
  }

  lemma MoveKeepsProc(v: View, c: Choice)
    requires ProcFits(v) && Covered(v) && PendingFits(v) && !Blocked(v) && !v.pc.Unregister?
    ensures ProcFits(Move(v, c)) && Covered(Move(v, c)) && PendingFits(Move(v, c))
  {
    hide StatusFits, HoldsFits;
  }

  predicate Spawning(pc: Pc) { pc.Registered? || pc.Checked? || pc.Marked? || pc.Persisted? }

  predicate Launched(pc: Pc) {
    pc.LStart? || pc.Launching? || pc.Forked? || pc.MustKill? || pc.Published? || pc.AbortWait? || pc.AbortClear?
  }

  predicate Watched(pc: Pc) { pc.Watching? || pc.WReaped? || pc.WCleared? || pc.Decide? }

  lemma SpawnKeepsStatus(v: View, c: Choice)
    requires StatusFits(v) && Spawning(v.pc)
    ensures StatusFits(Move(v, c))
  {
    hide Kill;
  }

  lemma LaunchKeepsStatus(v: View, c: Choice)
    requires StatusFits(v) && Launched(v.pc) && !Blocked(v)
    ensures StatusFits(Move(v, c))
  {
    hide Kill, SetStatus;
  }

  lemma WatchKeepsStatus(v: View, c: Choice)
    requires StatusFits(v) && Watched(v.pc) && !Blocked(v)
    ensures StatusFits(Move(v, c))
  {
    hide Kill;
  }

  lemma EndKeepsStatus(v: View, c: Choice)
    requires StatusFits(v) && (v.pc.FSnapshot? || v.pc.FStatus? || v.pc.Release?)
    ensures StatusFits(Move(v, c))
  {
    hide Kill;
  }

  lemma MoveKeepsStatus(v: View, c: Choice)
    requires StatusFits(v) && !Blocked(v) && !v.pc.Unregister?
    ensures StatusFits(Move(v, c))
  {
    hide StatusFits, Move;
    if Spawning(v.pc) {
      SpawnKeepsStatus(v, c);
    } else if Launched(v.pc) {
      LaunchKeepsStatus(v, c);
    } else if Watched(v.pc) {
      WatchKeepsStatus(v, c);
    } else {
      EndKeepsStatus(v, c);
    }
  }

  lemma MoveKeepsSane(v: View, c: Choice)
    requires Sane(v) && !Blocked(v) && !v.pc.Unregister?
    ensures Sane(Move(v, c))
  {
    MoveKeepsProc(v, c);
    MoveKeepsStatus(v, c);
    hide ProcFits, StatusFits, Covered, PendingFits;
  }

  lemma RequestKeepsSane(v: View, status: Status, reason: string)
    requires Sane(v) && status in {Cancelled, Failed}
    ensures Sane(Requested(v, status, reason))
  {
    var w := Requested(v, status, reason);
    assert StatusFits(w) by { hide ProcFits, HoldsFits, Covered; }
    assert ProcFits(w) && Covered(w) && HoldsFits(w) && PendingFits(w) by {
      hide StatusFits, TransitionAllowed;
    }
  }

  lemma ShutDownKeepsSane(v: View)
    requires Sane(v)
    ensures Sane(ShutDown(v)) && ShutDown(v).exec.requested && (ShutDown(v).exec.pid ==> ShutDown(v).proc != Alive)
  {
    var w := ShutDown(v);
    assert StatusFits(w) by { hide ProcFits, HoldsFits, Covered; }
    assert ProcFits(w) && Covered(w) && HoldsFits(w) && PendingFits(w) by {
      hide StatusFits, TransitionAllowed;
    }
  }

  /** A killer acts, or the process ends by itself. */
  lemma ProcessKeepsSane(v: View, pending: bool)
    requires Sane(v)
    ensures v.pending && (pending ==> v.pending) ==> Sane(v.(proc := Kill(v.proc), pending := pending))
    ensures v.proc == Alive || v.proc == Killed ==> Sane(v.(proc := Exited))
  {
  }

  /** A requester may have copied an id once it is published. */
  lemma PublishedMayBeKilled(v: View)
    requires Sane(v) && v.exec.pid
    ensures Sane(v.(pending := true))
  {
    assert StatusFits(v.(pending := true));
  }

  /** The row is cancelled while queued, or purged once terminal, by someone who never looks at the execution. */
  lemma RowKeepsSane(v: View)
    requires Sane(v)
    ensures v.row != Some(Created) && v.row != Some(Starting)
    ensures v.row == Some(Queued) ==> Sane(v.(row := Some(Cancelled)))
    ensures v.row.Some? && Terminal(v.row.value) ==> Sane(v.(row := None))
  {
    assert forall r: Option<Status> :: ProcFits(v.(row := r));
  }

  /** While its row still says QUEUED, a job is either not executing or has its allocation. */
  lemma QueuedIsHeld(v: View)
    requires Sane(v) && v.row == Some(Queued)
    ensures v.holds
  {
    hide ProcFits;
  }

  lemma MoveKeepsRow(v: View, c: Choice)
    requires !Blocked(v) && !v.pc.Unregister?
    ensures (Move(v, c).row.Some? <==> v.row.Some?) && (Move(v, c).holds ==> v.holds)
  {
    hide TransitionAllowed, Terminal, Kill;
  }

  /** The first requester's status and reason stand, whoever asks later ... */
  lemma FirstRequestStands(v: View, status: Status, reason: string)
    requires v.exec.requested
    ensures Requested(v, status, reason).exec == v.exec && ShutDown(v).exec == v.exec
  {
  }

  predicate SameRequest(a: Exec, b: Exec) {
    a.requested == b.requested && a.status == b.status && a.reason == b.reason && a.job == b.job
  }

  lemma SetStatusKeepsRequest(v: View, to: Status)
    ensures SameRequest(SetStatus(v, to).exec, v.exec) && SetStatus(v, to).pending == v.pending
  {
    hide TransitionAllowed;
  }

  lemma EarlyMoveKeepsRequest(v: View, c: Choice)
    requires (Spawning(v.pc) || Launched(v.pc)) && !Blocked(v)
    ensures SameRequest(Move(v, c).exec, v.exec) && Move(v, c).pending == v.pending
  {
    hide SetStatus, Terminal, TransitionAllowed, Kill, Blocked;
    SetStatusKeepsRequest(v, Running);
    SetStatusKeepsRequest(v, Failed);
  }

  lemma LateMoveKeepsRequest(v: View, c: Choice)
    requires !Spawning(v.pc) && !Launched(v.pc) && !v.pc.Unregister? && !Blocked(v)
    ensures SameRequest(Move(v, c).exec, v.exec) && Move(v, c).pending == v.pending
  {
    hide SetStatus, Terminal, TransitionAllowed, Kill, Blocked;
    SetStatusKeepsRequest(v, Succeeded);
    SetStatusKeepsRequest(v, Failed);
    if v.pc.Decide? || v.pc.FStatus? { SetStatusKeepsRequest(v, v.pc.status); }
  }

  /** The owner changes neither the job nor whether its row exists, and acquires nothing. */
  lemma MoveKeepsJob(v: View, c: Choice)
    requires !Blocked(v) && !v.pc.Unregister?
    ensures Move(v, c).exec.job == v.exec.job && Move(v, c).pending == v.pending
  {
    hide Move;
    if Spawning(v.pc) || Launched(v.pc) { EarlyMoveKeepsRequest(v, c); } else { LateMoveKeepsRequest(v, c); }
  }

  /** ... and whatever the owner does. */
  lemma OwnerKeepsRequest(v: View, c: Choice)
    requires v.exec.requested && !Blocked(v) && !v.pc.Unregister?
    ensures var e := Move(v, c).exec; e.requested && e.status == v.exec.status && e.reason == v.exec.reason && e.job == v.exec.job
  {
    hide Move;
    if Spawning(v.pc) || Launched(v.pc) { EarlyMoveKeepsRequest(v, c); } else { LateMoveKeepsRequest(v, c); }
  }

  // ---------------------------------------------------------------- progress

  /** How many steps an execution is from leaving the list: every move of its owner, its process or a killer lowers it. */
  function PcRank(pc: Pc): nat {
    match pc
    case Registered => 20 case Checked => 19 case Marked => 18 case Persisted => 17
    case LStart => 16 case Launching => 15 case Forked => 14 case MustKill => 13 case Published => 12
    case AbortWait(_) => 11 case AbortClear => 10
    case Watching => 11 case WReaped(_) => 9 case WCleared(_) => 8 case Decide(_, _, _, _) => 7
    case FSnapshot(_, _) => 6 case FStatus(_, _) => 5 case Release => 4 case Unregister => 3
  }

  function ProcRank(p: Proc): nat {
    match p
    case NotStarted => 0 case Alive => 3 case Killed => 2 case Exited => 1 case Reaped => 0
  }

  function Rank(v: View): nat { 4 * PcRank(v.pc) + ProcRank(v.proc) }

  lemma MoveLowersRank(v: View, c: Choice)
    requires !Blocked(v) && !v.pc.Unregister?
    ensures Rank(Move(v, c)) < Rank(v)
  {
  }

  /** Once termination is requested an execution can always go on: its owner can move, or its killed process
      only has to disappear, or a killer is ready to kill it. */
  lemma RequestedNeverStuck(v: View)
    requires Sane(v) && v.exec.requested
    ensures !Blocked(v) || v.proc == Killed || (v.proc == Alive && v.pending)
  {
  }

  /** When the owner is about to unregister, the row of a job whose record still exists is terminal,
      except exactly when termination was requested between the two writes that start a job. */
  lemma EndStatus(v: View)
    requires Sane(v) && v.pc.Unregister? && v.row.Some?
    ensures Terminal(v.row.value) <==> !v.exec.late
    ensures v.exec.late ==> v.row.value == Running
  {
  }

  /** ... its process reaped or never started, its id cleared and its allocation released. */
  lemma CleanEnd(v: View)
    requires Sane(v) && v.pc.Unregister?
    ensures (v.proc == NotStarted || v.proc == Reaped) && !v.exec.pid && !v.holds
  {
    hide StatusFits;
  }

  /** That exception happens: a job cancelled between the two writes is recorded as running when it is left behind. */
  lemma LostCancellation(job: Id)
    ensures var yes := Choice(true, true);
      var start := View(Exec(job, false, Queued, "", false, Queued, false), NotStarted, Registered, true, Some(Queued), false);
      var marked := Move(Move(start, yes), yes);
      var started := Move(Requested(marked, Cancelled, "Cancelled"), yes);
      var end := Move(Move(Move(Move(Move(started, yes), yes), yes), yes), yes);
      end.pc.Unregister? && !end.holds && end.exec.jobStatus == Cancelled && end.row == Some(Running)
  {
    var yes := Choice(true, true);
    var v := View(Exec(job, false, Queued, "", false, Queued, false), NotStarted, Registered, true, Some(Queued), false);
    var marked := Move(Move(v, yes), yes);
    assert marked.pc == Marked && marked.row == Some(Running);
    var asked := Requested(marked, Cancelled, "Cancelled");
    assert asked.row == Some(Cancelled);
    var started := Move(asked, yes);
    assert started.pc == Persisted && started.row == Some(Running);
    var launched := Move(Move(started, yes), yes);
    assert launched.pc.FSnapshot?;
  }

  // ---------------------------------------------------------------- what is recorded

  /** The process has been reaped and nobody has asked the execution to end: its owner's next three moves, whatever their
      calls come to, record SUCCEEDED exactly when the process ended well, and FAILED otherwise. */
  lemma ExitIsRecorded(v: View, c1: Choice, c2: Choice, c3: Choice)
    requires Sane(v) && v.pc.WReaped? && !v.exec.requested && v.row.Some?
    ensures var cleared := Move(v, c1);
      && !Blocked(cleared) && !cleared.pc.Unregister?
      && var decided := Move(cleared, c2);
         && !Blocked(decided) && !decided.pc.Unregister?
         && var w := Move(decided, c3);
            && w.pc == Release
            && (w.row == Some(Succeeded) <==> v.pc.exitOk)
            && (w.row == Some(Failed) <==> !v.pc.exitOk)
            && w.exec.jobStatus == w.row.value
  {
    hide ProcFits, HoldsFits, Covered, PendingFits;
    var ok := v.pc.exitOk;
    var cleared := Move(v, c1);
    assert cleared == v.(pc := WCleared(ok), exec := v.exec.(pid := false));
    var decided := Move(cleared, c2);
    assert decided == cleared.(pc := Decide(false, Failed, "", ok));
  }

  /** The exit code is the one with which the blocking wait returned for a process that is gone, and the request the owner
      acts on is the one on record when it looks. */
  lemma ExitIsReaped(v: View, c: Choice)
    requires !Blocked(v) && !v.pc.Unregister?
    ensures var w := Move(v, c);
      && (w.pc.WReaped? ==> v.pc == Watching && v.proc == Exited && w.pc.exitOk == c.exitOk && w.proc == Reaped)
      && (w.pc.WCleared? ==> v.pc == WReaped(w.pc.exitOk))
      && (w.pc.Decide? ==> v.pc == WCleared(w.pc.exitOk) && w.pc.terminated == v.exec.requested)
      && (w.pc.Decide? && w.pc.terminated ==> w.pc.status == v.exec.status && w.pc.reason == v.exec.reason)
  {
    hide SetStatus, Kill, Terminal, TransitionAllowed;
  }

  /** A row becomes SUCCEEDED only where the owner of an execution nobody has asked to end records a good exit. */
  lemma OnlyGoodExitsSucceed(v: View, c: Choice)
    requires StatusFits(v) && !Blocked(v) && !v.pc.Unregister?
    requires Move(v, c).row == Some(Succeeded) && v.row != Some(Succeeded)
    ensures v.pc.Decide? && v.pc.exitOk && !v.pc.terminated && !v.exec.requested
  {
    hide Kill;
  }

  /** A start that is given up without a process: the reason's status is recorded unless somebody else's request was. */
  lemma GivenUp(v: View, c1: Choice, c2: Choice)
    requires Sane(v) && v.pc.FSnapshot? && !v.exec.requested && v.row.Some?
    ensures var chosen := Move(v, c1);
      && !Blocked(chosen) && !chosen.pc.Unregister?
      && var w := Move(chosen, c2); w.pc == Release && w.row == Some(v.pc.status)
  {
    hide ProcFits, HoldsFits, Covered, PendingFits;
    var chosen := Move(v, c1);
    assert chosen == v.(pc := FStatus(v.pc.status, v.pc.reason));
  }

  /** A call that fails on the way to a running process, when nobody has asked the execution to end, fails the job: at once,
      or after the launcher has reaped the process it had to kill. */
  lemma FailedCallFails(v: View, c: Choice)
    requires Sane(v) && !v.exec.requested && v.row.Some? && !Blocked(v) && !v.pc.Unregister? && !c.ok
    ensures var w := Move(v, c);
      && (v.pc.Checked? ==> w.pc == Release && w.row == Some(Failed))
      && (v.pc.Marked? || v.pc.Persisted? || v.pc.Launching? ==> w.pc.FSnapshot? && w.pc.status == Failed && w.row == v.row)
      && (v.pc.Forked? ==> w.pc == AbortWait(false) && w.proc == (if v.proc == Alive then Killed else v.proc) && w.row == v.row)
      && (v.pc.Published? ==> w.pc == AbortWait(true) && w.proc == (if v.proc == Alive then Killed else v.proc) && w.row == v.row)
  {
    hide HoldsFits, Covered, PendingFits;
  }

  /** So a start that cannot be recorded, launched or forked ends FAILED. */
  lemma FailedStartFails(v: View, c: Choice, c1: Choice, c2: Choice)
    requires Sane(v) && !v.exec.requested && v.row.Some? && !c.ok && (v.pc.Marked? || v.pc.Persisted? || v.pc.Launching?)
    ensures var given := Move(v, c);
      && !Blocked(given) && !given.pc.Unregister?
      && var chosen := Move(given, c1);
         && !Blocked(chosen) && !chosen.pc.Unregister?
         && var w := Move(chosen, c2); w.pc == Release && w.row == Some(Failed)
  {
    FailedCallFails(v, c);
    MoveKeepsSane(v, c);
    AskedByOthersOnly(v, c);
    hide Sane, Move;
    GivenUp(Move(v, c), c1, c2);
  }

  lemma AskedByOthersOnly(v: View, c: Choice)
    requires !Blocked(v) && !v.pc.Unregister?
    ensures Move(v, c).exec.requested == v.exec.requested
  {
    hide Move;
    if Spawning(v.pc) || Launched(v.pc) { EarlyMoveKeepsRequest(v, c); } else { LateMoveKeepsRequest(v, c); }
  }

  lemma AbortFails(v: View, c: Choice)
    requires !Blocked(v) && (v.pc.AbortWait? || v.pc.AbortClear?)
    ensures var w := Move(v, c);
      && w.row == v.row && w.proc == (if v.pc.AbortWait? then Reaped else v.proc) && (v.pc.AbortWait? ==> v.proc == Exited)
      && (v.pc == AbortWait(true) ==> w.pc == AbortClear)
      && (v.pc != AbortWait(true) ==> w.pc.FSnapshot? && w.pc.status == Failed)
      && w.exec == (if v.pc.AbortClear? then v.exec.(pid := false) else v.exec)
  {
    hide SetStatus;
  }

  /** The whole start, when nobody interferes and every call succeeds: a live process, its id published, RUNNING in memory and
      in the row. A row that no longer says QUEUED ends the start before anything has happened. */
  lemma StartRuns(v: View)
    requires Sane(v) && v.pc.Registered? && !v.exec.requested
    ensures v.row != Some(Queued) ==> Move(v, Choice(true, true)) == v.(pc := Release)
    ensures v.row == Some(Queued) ==>
              var yes := Choice(true, true);
              var persisted := Move(Move(Move(v, yes), yes), yes);
              && persisted.pc == Persisted && persisted.row == Some(Running) && persisted.exec.jobStatus == Running
              && persisted.proc == NotStarted
              && var forked := Move(Move(Move(persisted, yes), yes), yes);
                 && forked.pc == Forked && forked.proc == Alive
                 && Move(Move(forked, yes), yes) ==
                      persisted.(pc := Watching, proc := Alive, exec := persisted.exec.(pid := true))
  {
    hide Covered, PendingFits, HoldsFits, Kill;
    var yes := Choice(true, true);
    if v.row == Some(Queued) {
      var checked := Move(v, yes);
      assert checked == v.(pc := Checked);
      var marked := Move(checked, yes);
      assert marked.pc == Marked && marked.exec == v.exec.(jobStatus := Running) && marked.proc == v.proc;
      var persisted := Move(marked, yes);
      var launching := Move(Move(persisted, yes), yes);
      assert launching == persisted.(pc := Launching);
      var forked := Move(launching, yes);
      assert forked == launching.(pc := Forked, proc := Alive);
    }
  }

  /** An execution that has been asked to end before its launcher looks gets no process, and keeps the row it has. */
  lemma AskedIsNotLaunched(v: View, c1: Choice, c2: Choice, c3: Choice)
    requires Sane(v) && v.pc.LStart? && v.exec.requested
    ensures var given := Move(v, c1);
      && given.pc.FSnapshot?
      && var chosen := Move(given, c2);
         chosen.pc == FStatus(v.exec.status, v.exec.reason) && Move(chosen, c3) == v.(pc := Release)
  {
    hide Covered, PendingFits, HoldsFits, Kill, SetStatus;
  }

  /** What the first request makes of an execution that is still under way: its own status and reason, in memory and in the
      row. */
  lemma RequestIsRecorded(v: View, status: Status, reason: string)
    requires status in {Cancelled, Failed} && !v.exec.requested && v.exec.jobStatus in {Queued, Running}
    ensures var w := Requested(v, status, reason);
      && w.exec.requested && w.exec.status == status && w.exec.reason == reason && w.exec.jobStatus == status
      && w.row == (if v.row.Some? then Some(status) else None)
      && (v.exec.pid ==> w.pending) && w.proc == v.proc && w.pc == v.pc
    ensures var w := ShutDown(v);
      && w.exec.requested && w.exec.status == Cancelled && w.exec.jobStatus == Cancelled
      && (v.row.Some? ==> w.row == Some(Cancelled))
  {
    hide Kill;
  }

  // ---------------------------------------------------------------- a cancellation that only writes the row

  /** scheduler_cancel_job when it finds neither a queued nor an active job, but a row that still says QUEUED: by now
      the execution may be registered. */
  function RowCancelled(v: View): View { v.(row := Some(Cancelled)) }

  function MaybeAsked(v: View, asked: bool): View { if asked then Requested(v, Cancelled, "Cancelled") else v }

  /** What the owner makes of such a row: it stands if and only if the owner has yet to look at the row, or somebody
      asks the execution itself to end before the owner marks the job. */
  lemma CancelledRowStands(v: View, asked: bool, c: Choice)
    requires Sane(v) && v.row == Some(Queued)
    ensures v.pc.Registered? || v.pc.Checked?
    ensures var w := Move(MaybeAsked(RowCancelled(v), asked), c);
      && (w.row == Some(Cancelled) <==> v.pc.Registered? || asked)
      && (w.row == Some(Cancelled) ==> w.pc.Release?)
      && (w.row != Some(Cancelled) ==> w.row == Some(if c.ok then Running else Failed) && !w.exec.requested)
  {
    hide ProcFits, HoldsFits, Covered, PendingFits;
  }

  /** Once it stands at the end, it stands. */
  lemma CancelledRowStays(v: View, c: Choice, reason: string)
    requires v.row == Some(Cancelled) && (v.pc.Release? || v.pc.Unregister?)
    ensures v.pc.Release? ==> Move(v, c).row == Some(Cancelled) && Move(v, c).pc.Unregister?
    ensures Requested(v, Cancelled, reason).row == ShutDown(v).row == Some(Cancelled)
  {
  }

  /** The owner's next move writes a status. */
  predicate WritesStatus(v: View, c: Choice) {
    || (v.pc.Marked? && c.ok)
    || (!v.exec.requested && (v.pc.Checked? || v.pc.Decide? || (v.pc.FStatus? && v.pc.status != Cancelled)))
  }

  /** Between reading the row and writing it the handler may be overtaken: wherever the owner has come to by then, its next
      move leaves the cancelled row as it is if and only if it writes no status. */
  lemma LateCancelStands(v: View, c: Choice)
    requires Sane(v) && v.row.Some? && !v.pc.Registered? && !v.pc.Unregister? && !Blocked(v)
    ensures Move(RowCancelled(v), c).row == Some(Cancelled) <==> !WritesStatus(v, c)
  {
    hide ProcFits, HoldsFits, Covered, PendingFits, Kill;
  }

  /** An execution asked to end writes no status any more, once its start is on record. */
  lemma AskedWritesNothing(v: View, c: Choice)
    requires Sane(v) && v.exec.requested && !v.pc.Marked?
    ensures !WritesStatus(v, c)
    ensures !Blocked(v) && !v.pc.Unregister? ==> !Move(v, c).pc.Marked?
  {
    hide ProcFits, HoldsFits, Covered, PendingFits, Kill, SetStatus;
  }
}
