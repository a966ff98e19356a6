// ExecutorRuns: what holds of the executor in every interleaving, and how its shutdown ends.

module ExecutorRuns {
  import opened Wrappers
  import opened Jobs
  import opened Execution
  import opened Executor

  // ---------------------------------------------------------------- every interleaving

  lemma SchedStepKeepsCore(s: State, a: Action)
    requires Core(s) && (a.Pick? || a.Dispatch? || a.Register? || a.Refuse? || a.LetGo? || a.StopScheduler?)
    ensures Core(SchedStep(s, a))
  {
    hide Core, RegisterStep;
    match a
    case Pick(j) => if s.sched.Idle? && RowOf(s, j) == Some(Queued) && j !in s.held { PickKeepsCore(s, j); }
    case Dispatch => if s.sched.Reserved? { DispatchKeepsCore(s, SchedStep(s, a)); }
    case Register =>
      if s.sched.Admitted? { RegisterKeepsCore(s); } else { assert RegisterStep(s) == s by { RegisterNeedsAdmission(s); } }
    case Refuse => if s.sched.Refused? { RefuseKeepsCore(s); }
    case LetGo => if s.sched.Releasing? { LetGoKeepsCore(s); }
    case StopScheduler => if s.sched.Idle? { StopKeepsCore(s); }
  }

  lemma RegisterNeedsAdmission(s: State)
    requires !s.sched.Admitted?
    ensures RegisterStep(s) == s
  {
  }

  lemma RequestStepKeepsCore(s: State, j: Id, status: Status, reason: string)
    requires Core(s) && status in {Cancelled, Failed}
    ensures Core(RequestStep(s, j, status, reason))
  {
    var r := FirstWith(s, s.active, j);
    hide Core, Mark;
    if r.Some? { MarkKeepsCore(s, r.value, status, reason); }
  }

  lemma ExitKeepsCore(s: State, e: ExecId)
    requires Core(s) && e in s.procs && (s.procs[e] == Alive || s.procs[e] == Killed)
    ensures Core(s.(procs := s.procs[e := Exited]))
  {
    assert e in s.execs;
    hide Core;
    ProcessKeepsCore(s, e);
  }

  lemma ShutdownKeepsCore(s: State)
    requires Core(s)
    ensures Core(Sweep(s, s.active).(shutting := true)) && Swept(s, Sweep(s, s.active))
    ensures forall e :: e in s.execs ==> Sweep(s, s.active).execs[e].requested
  {
    assert forall e :: e in s.active <==> e in s.execs;
    hide Core;
    SweepKeepsCore(s, s.active);
    hide Sweep, Swept;
    FlagKeepsCore(Sweep(s, s.active));
  }

  lemma FlagKeepsSane(s: State)
    requires AllSane(s)
    ensures AllSane(s.(shutting := true))
  {
    hide Sane, ViewOf;
    forall w | w in s.owners ensures SaneAt(s.(shutting := true), s.owners[w]) {
      assert SaneAt(s, s.owners[w]);
      SaneFrame(s, s.(shutting := true), s.owners[w]);
    }
  }

  lemma FlagKeepsHolding(s: State)
    requires Holding(s) && Owned(s)
    ensures Holding(s.(shutting := true)) && Owned(s.(shutting := true))
  {
    var t := s.(shutting := true);
    assert Owned(t) by { hide Holding; OwnedFrame(s, t); }
    hide Owned;
    HoldingFrame(s, t);
  }

  lemma FlagKeepsCore(s: State)
    requires Core(s)
    ensures Core(s.(shutting := true))
  {
    hide AllSane, Owned, Holding, Gone;
    FlagKeepsSane(s);
    FlagKeepsHolding(s);
  }

  lemma StepKeepsCore(s: State, a: Action)
    requires Core(s)
    ensures Core(Step(s, a))
  {
    hide Core, RowStep, RequestStep, OwnStep, Sweep, RegisterStep;
    match a
    case Row(j, op) => RowStepKeepsCore(s, j, op);
    case Own(who, c, tid) => OwnKeepsCore(s, who, c, tid);
    case Cancel(j, reason) => RequestStepKeepsCore(s, j, Cancelled, reason);
    case Timeout(j, reason) => RequestStepKeepsCore(s, j, Failed, reason);
    case KillStep(e) => if e in s.killers && e in s.procs { KillKeepsCore(s, e); }
    case ProcExit(e) => if e in s.procs && (s.procs[e] == Alive || s.procs[e] == Killed) { ExitKeepsCore(s, e); }
    case Shutdown => ShutdownKeepsCore(s);
    case _ => SchedStepKeepsCore(s, a);
  }

  // ---- what one step does to one execution

  lemma ProcStepsKeepExecs(s: State, e: ExecId)
    ensures KillerStep(s, e).execs == s.execs && ExitStep(s, e).execs == s.execs
  {
  }

  lemma OwnAddsNone(s: State, who: Who, c: Choice, tid: nat)
    requires Owned(s)
    ensures OwnStep(s, who, c, tid).execs.Keys <= s.execs.Keys
  {
    hide Move, Blocked, HandsOver;
  }

  lemma RequestAddsNone(s: State, j: Id, status: Status, reason: string)
    ensures RequestStep(s, j, status, reason).execs.Keys == s.execs.Keys
  {
    hide Requested;
  }

  /** Numbers are never reused, and after shutdown has begun none is given out. */
  lemma StepRegisters(s: State, a: Action, e: ExecId)
    requires Core(s) && e in Step(s, a).execs && e !in s.execs
    ensures a.Register? && !s.shutting && e == s.next
  {
    hide AllSane, Listed, Distinct, IdsSeen, NoneLeft, Holding, RowStep, OwnStep, Sweep, RequestStep, KillerStep, ExitStep;
    match a
    case Row(j, op) => RowStepIsWrite(s, j, op);
    case Own(who, c, tid) => OwnAddsNone(s, who, c, tid);
    case Shutdown => ShutdownKeepsCore(s);
    case Cancel(j, reason) => RequestAddsNone(s, j, Cancelled, reason);
    case Timeout(j, reason) => RequestAddsNone(s, j, Failed, reason);
    case KillStep(x) => ProcStepsKeepExecs(s, x);
    case ProcExit(x) => ProcStepsKeepExecs(s, x);
    case _ =>
  }

  /** Everything `t` may have made of the executions of `s`: requests stand as first made, jobs never change. */
  ghost predicate Stands(s: State, t: State) {
    forall e :: e in s.execs && e in t.execs ==>
      && t.execs[e].job == s.execs[e].job
      && (s.execs[e].requested ==>
            t.execs[e].requested && t.execs[e].status == s.execs[e].status && t.execs[e].reason == s.execs[e].reason)
  }

  lemma OwnStands(s: State, who: Who, c: Choice, tid: nat)
    ensures Stands(s, OwnStep(s, who, c, tid))
  {
    hide Move;
    if who in s.owners && s.owners[who].e in s.execs && s.owners[who].e in s.procs {
      var v := ViewOf(s, s.owners[who]);
      if !v.pc.Unregister? && !Blocked(v) {
        MoveKeepsJob(v, c);
        if v.exec.requested { OwnerKeepsRequest(v, c); }
      }
    }
  }

  lemma {:induction false} SweepStands(s: State, ids: seq<ExecId>)
    ensures Stands(s, Sweep(s, ids)) && Sweep(s, ids).execs.Keys == s.execs.Keys
    decreases |ids|
  {
    hide Ends, Kill;
    if |ids| > 0 { SweepStands(SweepOne(s, ids[0]), ids[1..]); }
  }

  lemma RequestStands(s: State, j: Id, status: Status, reason: string)
    ensures Stands(s, RequestStep(s, j, status, reason))
  {
    hide Ends;
  }

  lemma SchedStands(s: State, a: Action)
    requires s.next !in s.execs
    ensures Stands(s, SchedStep(s, a))
  {
    hide RowOf;
  }

  lemma SameExecsStand(s: State, t: State)
    requires t.execs == s.execs
    ensures Stands(s, t)
  {
  }

  lemma ShutdownStands(s: State)
    ensures Stands(s, Sweep(s, s.active).(shutting := true))
  {
    SweepStands(s, s.active);
    hide Sweep;
  }

  lemma QuietStepStands(s: State, a: Action)
    requires Core(s) && (a.Row? || a.KillStep? || a.ProcExit?)
    ensures Stands(s, Step(s, a))
  {
    if a.Row? { RowStepIsWrite(s, a.job, a.op); }
    hide Core, RowStep, KillerStep, ExitStep, Stands;
    if !a.Row? { ProcStepsKeepExecs(s, a.e); }
    SameExecsStand(s, Step(s, a));
  }

  lemma LoudStepStands(s: State, a: Action)
    requires a.Own? || a.Shutdown? || a.Cancel? || a.Timeout?
    ensures Stands(s, Step(s, a))
  {
    hide OwnStep, Sweep, RequestStep, Stands;
    match a
    case Own(who, c, tid) => OwnStands(s, who, c, tid);
    case Shutdown => ShutdownStands(s);
    case Cancel(j, reason) => RequestStands(s, j, Cancelled, reason);
    case Timeout(j, reason) => RequestStands(s, j, Failed, reason);
  }

  lemma StepStands(s: State, a: Action)
    requires Core(s)
    ensures Stands(s, Step(s, a))
  {
    if a.Row? || a.KillStep? || a.ProcExit? {
      QuietStepStands(s, a);
    } else if a.Own? || a.Shutdown? || a.Cancel? || a.Timeout? {
      LoudStepStands(s, a);
    } else {
      NextIsNew(s);
      hide Core, Stands, SchedStep;
      SchedStands(s, a);
    }
  }

  lemma NextIsNew(s: State)
    requires Core(s)
    ensures s.next !in s.execs && s.next !in s.procs
  {
  }

  lemma StepKeepsShutFits(s: State, a: Action)
    requires Inv(s) && !a.Shutdown?
    ensures ShutFits(Step(s, a))
  {
    StepStands(s, a);
    hide Core, Step;
    forall e | s.shutting && e in Step(s, a).execs ensures Step(s, a).execs[e].requested {
      if e !in s.execs { StepRegisters(s, a, e); }
    }
    OnlyShutdownFlags(s, a);
  }

  lemma ShutdownKeepsShutFits(s: State)
    requires Core(s)
    ensures ShutFits(Step(s, Shutdown))
  {
    hide Core, Sweep;
    ShutdownKeepsCore(s);
  }

  lemma StepKeepsInv(s: State, a: Action)
    requires Inv(s)
    ensures Inv(Step(s, a))
  {
    hide Core, ShutFits, Step;
    StepKeepsCore(s, a);
    if a.Shutdown? { ShutdownKeepsShutFits(s); } else { StepKeepsShutFits(s, a); }
  }

  lemma OnlyShutdownFlags(s: State, a: Action)
    requires Core(s) && !a.Shutdown?
    ensures Step(s, a).shutting == s.shutting
  {
    hide Core, Move;
    if a.Row? { RowStepIsWrite(s, a.job, a.op); }
  }

  lemma FreshInv(s: State)
    requires Fresh(s)
    ensures Inv(s)
  {
    hide Sane, Gone;
    assert Listed(s);
    assert Owned(s) && AllSane(s) && Distinct(s) && Holding(s) && NoneLeft(s) && IdsSeen(s);
  }

  /** In every interleaving of submissions, launches, cancellations, timeouts, process exits and shutdown the
      invariant holds. */
  lemma {:induction false} AlwaysInv(s: State, acts: seq<Action>)
    requires Fresh(s)
    ensures Inv(Run(s, acts))
  {
    if |acts| == 0 {
      FreshInv(s);
    } else {
      AlwaysInv(s, acts[..|acts| - 1]);
      hide Inv, Step;
      StepKeepsInv(Run(s, acts[..|acts| - 1]), acts[|acts| - 1]);
    }
  }

  /** Once termination is requested of an execution, its process was never started, has been reaped, is dead or
      dying, or some thread is about to kill it: a requester holding its id, or the launcher, which has not
      published the id yet or has just found the request. When the execution is freed its process is gone. */
  lemma KillCoverage(s: State, acts: seq<Action>, e: ExecId)
    requires Fresh(s)
    ensures var t := Run(s, acts);
      && (e in t.procs && e !in t.execs ==> Gone(t.procs[e]))
      && (e in t.execs && t.execs[e].requested ==>
            e in t.procs && (t.procs[e] != Alive || e in t.killers
            || exists w :: Owns(t, w, e) && (t.owners[w].pc == Forked || t.owners[w].pc == MustKill)))
  {
    var t := Run(s, acts);
    AlwaysInv(s, acts);
    hide Run;
    if e in t.execs && t.execs[e].requested {
      var w :| Owns(t, w, e);
      assert SaneAt(t, t.owners[w]);
      hide StatusFits, ProcFits;
    }
  }

  /** Each live execution is worked on by exactly one thread, no thread works on anything else, and while it
      may still do so its allocation record is active. */
  lemma ExactlyOneOwner(s: State, acts: seq<Action>, e: ExecId)
    requires Fresh(s)
    ensures var t := Run(s, acts);
      && (e in t.execs <==> exists w :: Owns(t, w, e))
      && (forall w, w2 :: Owns(t, w, e) && Owns(t, w2, e) ==> w == w2)
      && (forall w :: Owns(t, w, e) ==> (t.execs[e].job in t.held <==> t.owners[w].pc != Unregister))
  {
    var t := Run(s, acts);
    AlwaysInv(s, acts);
    hide Run;
    forall w | Owns(t, w, e) ensures t.execs[e].job in t.held <==> t.owners[w].pc != Unregister {
      assert SaneAt(t, t.owners[w]);
      hide StatusFits, ProcFits, Covered;
    }
  }

  /** An execution leaves only by its owner's last step, with its process gone, its id cleared and its
      allocation released; and it never comes back. */
  lemma CleanedUpOnce(s: State, a: Action, e: ExecId)
    requires Inv(s)
    ensures e in s.execs && e !in Step(s, a).execs ==>
              a.Own? && Owns(s, a.who, e) && s.owners[a.who].pc == Unregister
              && Gone(s.procs[e]) && !s.execs[e].pid && s.execs[e].job !in s.held
    ensures e < s.next && e !in s.execs ==> e !in Step(s, a).execs
    ensures s.next <= Step(s, a).next
  {
    hide Core, Move, RowStep, Sweep;
    if a.Row? { RowStepIsWrite(s, a.job, a.op); }
    if a.Shutdown? { ShutdownKeepsCore(s); }
    if e !in s.execs && e in Step(s, a).execs { StepRegisters(s, a, e); }
    if e in s.execs && e !in Step(s, a).execs { CleanExit(s, a.who); }
  }

  lemma {:induction false} RunKeepsInv(s: State, acts: seq<Action>)
    requires Inv(s)
    ensures Inv(Run(s, acts)) && s.next <= Run(s, acts).next
  {
    if |acts| > 0 {
      RunKeepsInv(s, acts[..|acts| - 1]);
      hide Inv, Step;
      StepKeepsInv(Run(s, acts[..|acts| - 1]), acts[|acts| - 1]);
      CleanedUpOnce(Run(s, acts[..|acts| - 1]), acts[|acts| - 1], 0);
    }
  }

  /** Whatever happens after the first request, as long as the execution lives it shows that request's status
      and reason; once it has left the list it never returns. */
  lemma {:induction false} FirstRequestWins(s: State, acts: seq<Action>, e: ExecId)
    requires Inv(s) && e < s.next && (e in s.execs ==> s.execs[e].requested)
    ensures var t := Run(s, acts); e in t.execs ==>
              e in s.execs && t.execs[e].requested && t.execs[e].status == s.execs[e].status
              && t.execs[e].reason == s.execs[e].reason && t.execs[e].job == s.execs[e].job
  {
    if |acts| > 0 {
      var before := acts[..|acts| - 1];
      FirstRequestWins(s, before, e);
      RunKeepsInv(s, before);
      StepStands(Run(s, before), acts[|acts| - 1]);
      CleanedUpOnce(Run(s, before), acts[|acts| - 1], e);
      hide Inv, Step;
    }
  }

  // ---------------------------------------------------------------- shutdown

  /** scheduler_stop has joined the scheduler and executor_shutdown has returned. */
  ghost predicate ShutDownDone(s: State) { s.shutting && s.sched.Stopped? && s.active == [] }

  lemma NothingIsLeft(s: State)
    requires Inv(s) && ShutDownDone(s)
    ensures s.execs == map[] && s.owners == map[] && s.held == {} && forall e :: e in s.procs ==> Gone(s.procs[e])
  {
    hide AllSane, Distinct, IdsSeen, Gone;
    assert forall e :: e !in s.execs;
    assert forall j :: j in s.held ==> !Held(s, j);
  }

  lemma StaysShutDown(s: State, a: Action)
    requires Inv(s) && ShutDownDone(s)
    ensures ShutDownDone(Step(s, a))
  {
    NothingIsLeft(s);
    StepKeepsInv(s, a);
    hide RowStep, Sweep, Move;
    if a.Row? { RowStepIsWrite(s, a.job, a.op); }
    if a.Shutdown? { ShutdownKeepsCore(s); }
    hide Core;
    if !a.Shutdown? { OnlyShutdownFlags(s, a); }
  }

  /** When executor_shutdown returns inside scheduler_stop no execution is active, no thread is at work, no
      allocation record is active and every process is gone; and no later step can change that. */
  lemma {:induction false} ShutdownIsFinal(s: State, acts: seq<Action>)
    requires Inv(s) && ShutDownDone(s)
    ensures var t := Run(s, acts);
      t.active == [] && t.execs == map[] && t.owners == map[] && t.held == {} && forall e :: e in t.procs ==> Gone(t.procs[e])
    ensures Inv(Run(s, acts)) && ShutDownDone(Run(s, acts))
  {
    if |acts| > 0 {
      var u := Run(s, acts[..|acts| - 1]);
      ShutdownIsFinal(s, acts[..|acts| - 1]);
      StepKeepsInv(u, acts[|acts| - 1]);
      StaysShutDown(u, acts[|acts| - 1]);
      hide Inv, Step, ShutDownDone;
    }
    NothingIsLeft(Run(s, acts));
  }

  // ---- and it does return

  /** How far the thread `w` still has to go with its execution. */
  function Place(s: State, w: Who): nat {
    if w in s.owners && s.owners[w].e in s.procs
    then 4 * PcRank(s.owners[w].pc) + ProcRank(s.procs[s.owners[w].e]) else 0
  }

  /** How far an execution is from being freed; 0 once it is. */
  ghost function Distance(s: State, e: ExecId): nat {
    if exists w :: Owns(s, w, e) then var w :| Owns(s, w, e); Place(s, w) else 0
  }

  lemma DistanceIs(s: State, w: Who)
    requires Inv(s) && w in s.owners
    ensures Distance(s, s.owners[w].e) == Place(s, w) > 0
  {
    hide AllSane, Distinct, IdsSeen, NoneLeft, Holding;
    assert Owns(s, w, s.owners[w].e);
  }

  lemma FreedIsNowhere(s: State, e: ExecId)
    requires Inv(s) && e !in s.execs
    ensures Distance(s, e) == 0
  {
    hide AllSane, Distinct, IdsSeen, NoneLeft, Holding, Place;
  }

  ghost function Total(s: State, ids: seq<ExecId>): nat {
    if |ids| == 0 then 0 else Distance(s, ids[0]) + Total(s, ids[1..])
  }

  lemma {:induction false} TotalOrdered(s: State, t: State, ids: seq<ExecId>)
    requires forall e :: e in ids ==> Distance(t, e) <= Distance(s, e)
    ensures Total(t, ids) <= Total(s, ids)
    ensures (exists e :: e in ids && Distance(t, e) < Distance(s, e)) ==> Total(t, ids) < Total(s, ids)
  {
    hide Distance;
    if |ids| > 0 {
      TotalOrdered(s, t, ids[1..]);
      if exists e :: e in ids && Distance(t, e) < Distance(s, e) {
        var e :| e in ids && Distance(t, e) < Distance(s, e);
        assert e == ids[0] || e in ids[1..];
      }
    }
  }

  lemma {:induction false} TotalWithout(s: State, ids: seq<ExecId>, e: ExecId)
    ensures Total(s, Without(ids, e)) == Total(s, ids) - if e in ids then Distance(s, e) else 0
  {
    hide Distance;
    if |ids| > 0 {
      if ids[0] != e {
        TotalWithout(s, ids[1..], e);
        assert ([ids[0]] + Without(ids[1..], e))[1..] == Without(ids[1..], e);
        assert e in ids <==> e in ids[1..];
      }
    }
  }

  predicate NoWorse(p: Proc, q: Proc) { q == p || ProcRank(q) <= ProcRank(p) }

  /** Thread `w` stays where it is, and the process it works with has at most come closer to its end. */
  ghost predicate Undisturbed(s: State, t: State, w: Who)
    requires w in s.owners
  {
    var e := s.owners[w].e;
    w in t.owners && t.owners[w] == s.owners[w] && (e in s.procs ==> e in t.procs && NoWorse(s.procs[e], t.procs[e]))
  }

  lemma {:induction false} SweepUndisturbed(s: State, ids: seq<ExecId>, w: Who)
    requires w in s.owners
    ensures Undisturbed(s, Sweep(s, ids), w)
    decreases |ids|
  {
    hide Ends;
    if |ids| > 0 { SweepUndisturbed(SweepOne(s, ids[0]), ids[1..], w); }
  }

  lemma RequestUndisturbed(s: State, j: Id, status: Status, reason: string, w: Who)
    requires w in s.owners
    ensures Undisturbed(s, RequestStep(s, j, status, reason), w)
  {
    hide Ends;
  }

  lemma OwnUndisturbed(s: State, who: Who, c: Choice, tid: nat, w: Who)
    requires w in s.owners && w != who && (who in s.owners ==> s.owners[who].e != s.owners[w].e)
    ensures Undisturbed(s, OwnStep(s, who, c, tid), w)
  {
    hide Move, Blocked, HandsOver, ProcRank;
  }

  lemma SchedUndisturbed(s: State, a: Action, w: Who)
    requires w in s.owners && s.next !in s.procs && (s.sched.Admitted? ==> w != Scheduler)
    ensures Undisturbed(s, SchedStep(s, a), w)
  {
    hide ProcRank, RowOf;
  }

  lemma ProcUndisturbed(s: State, e: ExecId, w: Who)
    requires w in s.owners
    ensures Undisturbed(s, KillerStep(s, e), w) && Undisturbed(s, ExitStep(s, e), w)
  {
  }

  /** Nothing action `a` could confuse with thread `w`. */
  predicate Apart(s: State, a: Action, w: Who) {
    && w in s.owners && s.next !in s.procs && (s.sched.Admitted? ==> w != Scheduler)
    && (a.Own? ==> a.who != w && (a.who in s.owners ==> s.owners[a.who].e != s.owners[w].e))
  }

  lemma OthersApart(s: State, a: Action, w: Who)
    requires Core(s) && w in s.owners && !(a.Own? && a.who == w)
    ensures Apart(s, a, w)
  {
    NextIsNew(s);
    hide AllSane, Listed, Distinct, IdsSeen, NoneLeft, Holding;
  }

  /** Only its owner moves a thread or starts a process. */
  lemma StepUndisturbed(s: State, a: Action, w: Who)
    requires Apart(s, a, w)
    ensures Undisturbed(s, Step(s, a), w)
  {
    hide RowStep, OwnStep, Sweep, RequestStep, SchedStep, KillerStep, ExitStep, Undisturbed;
    match a
    case Row(j, op) => RowUndisturbed(s, j, op, w);
    case Own(who, c, tid) => OwnUndisturbed(s, who, c, tid, w);
    case Shutdown => { SweepUndisturbed(s, s.active, w); FlagUndisturbed(s, Sweep(s, s.active), w); }
    case Cancel(j, reason) => RequestUndisturbed(s, j, Cancelled, reason, w);
    case Timeout(j, reason) => RequestUndisturbed(s, j, Failed, reason, w);
    case KillStep(e) => ProcUndisturbed(s, e, w);
    case ProcExit(e) => ProcUndisturbed(s, e, w);
    case _ => SchedUndisturbed(s, a, w);
  }

  lemma FlagUndisturbed(s: State, t: State, w: Who)
    requires w in s.owners && Undisturbed(s, t, w)
    ensures Undisturbed(s, t.(shutting := true), w)
  {
    hide NoWorse;
  }

  lemma RowUndisturbed(s: State, j: Id, op: RowOp, w: Who)
    requires w in s.owners
    ensures Undisturbed(s, RowStep(s, j, op), w)
  {
  }

  lemma UndisturbedIsNoFurther(s: State, t: State, w: Who)
    requires Inv(s) && Inv(t) && w in s.owners && s.owners[w].e in s.procs && Undisturbed(s, t, w)
    ensures Distance(t, s.owners[w].e) <= Distance(s, s.owners[w].e)
  {
    hide Core, PcRank, ProcRank, Distance;
    DistanceIs(s, w);
    DistanceIs(t, w);
  }

  lemma OthersComeNoFurther(s: State, a: Action, e: ExecId)
    requires Inv(s) && e in s.execs && !(a.Own? && Owns(s, a.who, e))
    ensures Distance(Step(s, a), e) <= Distance(s, e)
  {
    assert exists w :: Owns(s, w, e);
    var w :| Owns(s, w, e);
    assert e in s.procs;
    hide Core, Step, Distance, Undisturbed, Apart;
    OthersApart(s, a, w);
    StepUndisturbed(s, a, w);
    StepKeepsInv(s, a);
    UndisturbedIsNoFurther(s, Step(s, a), w);
  }

  /** A thread can go on unless it waits for its process, or must hand over under an id that is taken. */
  predicate CanMove(s: State, who: Who, c: Choice, tid: nat) {
    && who in s.owners && s.owners[who].e in s.execs && s.owners[who].e in s.procs
    && !Blocked(ViewOf(s, s.owners[who]))
    && (HandsOver(ViewOf(s, s.owners[who]), c) ==> Thread(tid) !in s.owners)
  }

  lemma CannotMove(s: State, who: Who, c: Choice, tid: nat)
    requires !CanMove(s, who, c, tid)
    ensures OwnStep(s, who, c, tid) == s || (who in s.owners && s.owners[who].pc.Unregister?)
  {
    hide Move, Blocked;
  }

  lemma OwnLowersRank(s: State, who: Who, c: Choice, tid: nat) returns (w: Who)
    requires CanMove(s, who, c, tid) && !s.owners[who].pc.Unregister?
    ensures var e := s.owners[who].e; var t := OwnStep(s, who, c, tid);
      w in t.owners && t.owners[w].e == e && e in t.procs && Place(t, w) < Place(s, who)
  {
    hide Move, PcRank, ProcRank, Blocked;
    var o := s.owners[who];
    RankDrops(ViewOf(s, o), c);
    w := if HandsOver(ViewOf(s, o), c) then Thread(tid) else who;
  }

  lemma RankDrops(v: View, c: Choice)
    requires !Blocked(v) && !v.pc.Unregister?
    ensures 4 * PcRank(Move(v, c).pc) + ProcRank(Move(v, c).proc) < 4 * PcRank(v.pc) + ProcRank(v.proc)
  {
    MoveLowersRank(v, c);
    hide Move, PcRank, ProcRank;
  }

  lemma UnregisterFrees(s: State, who: Who, c: Choice, tid: nat)
    requires who in s.owners && s.owners[who].pc.Unregister? && s.owners[who].e in s.execs && s.owners[who].e in s.procs
    ensures s.owners[who].e !in OwnStep(s, who, c, tid).execs
  {
  }

  /** Every move brings the mover's execution closer to being freed. */
  lemma OwnerComesCloser(s: State, who: Who, c: Choice, tid: nat)
    requires Inv(s) && CanMove(s, who, c, tid)
    ensures Distance(OwnStep(s, who, c, tid), s.owners[who].e) < Distance(s, s.owners[who].e)
  {
    var e := s.owners[who].e;
    var t := OwnStep(s, who, c, tid);
    hide Core, Place, Distance, CanMove;
    OwnKeepsInv(s, who, c, tid);
    DistanceIs(s, who);
    if s.owners[who].pc.Unregister? {
      UnregisterFrees(s, who, c, tid);
      FreedIsNowhere(t, e);
    } else {
      var w := OwnLowersRank(s, who, c, tid);
      hide OwnStep;
      DistanceIs(t, w);
    }
  }

  lemma OwnKeepsInv(s: State, who: Who, c: Choice, tid: nat)
    requires Inv(s)
    ensures Inv(OwnStep(s, who, c, tid))
  {
    StepKeepsInv(s, Own(who, c, tid));
    hide Inv, OwnStep;
  }

  /** While shutting down nothing moves away from the end: no step raises the total distance. */
  lemma NeverFurther(s: State, a: Action)
    requires Inv(s) && s.shutting
    ensures Total(Step(s, a), Step(s, a).active) <= Total(s, s.active)
  {
    var t := Step(s, a);
    forall e | e in s.active ensures Distance(t, e) <= Distance(s, e) { NoneFurther(s, a, e); }
    TotalOrdered(s, t, s.active);
    ActiveShrinks(s, a);
    if t.active != s.active { TotalWithout(t, s.active, s.owners[a.who].e); }
  }

  lemma MoveOrStay(s: State, who: Who, c: Choice, tid: nat)
    requires Inv(s) && who in s.owners
    ensures CanMove(s, who, c, tid) || OwnStep(s, who, c, tid) == s
  {
    hide AllSane, Distinct, IdsSeen, NoneLeft, Holding, Move, OwnStep;
    if !CanMove(s, who, c, tid) { CannotMove(s, who, c, tid); }
  }

  lemma NoneFurther(s: State, a: Action, e: ExecId)
    requires Inv(s) && e in s.execs
    ensures Distance(Step(s, a), e) <= Distance(s, e)
  {
    hide Core, OwnStep, Distance, CanMove;
    if a.Own? && Owns(s, a.who, e) {
      if CanMove(s, a.who, a.c, a.tid) { OwnerComesCloser(s, a.who, a.c, a.tid); }
      else { MoveOrStay(s, a.who, a.c, a.tid); }
    } else {
      hide Step;
      OthersComeNoFurther(s, a, e);
    }
  }

  /** While shutting down the list only loses executions, one at a time. */
  lemma ActiveShrinks(s: State, a: Action)
    requires Inv(s) && s.shutting
    ensures Step(s, a).active == s.active
         || (a.Own? && a.who in s.owners && Step(s, a).active == Without(s.active, s.owners[a.who].e))
  {
    hide Core, Move, RowStep, Sweep, Requested;
    if a.Row? { RowStepIsWrite(s, a.job, a.op); }
    else if a.Shutdown? { ShutdownKeepsCore(s); }
    else { hide Inv, RowOf, Blocked, HandsOver; }
  }

  /** Some thread id is unused. */
  lemma FreshThread(ws: set<Who>) returns (tid: nat)
    ensures forall t: nat :: Thread(t) in ws ==> t < tid
    decreases |ws|
  {
    if ws == {} {
      tid := 0;
    } else {
      var w :| w in ws;
      tid := FreshThread(ws - {w});
      if w.Thread? && w.t >= tid { tid := w.t + 1; }
    }
  }

  /** This step brings the shutdown closer to its end. */
  ghost predicate Advances(s: State, a: Action) { Total(Step(s, a), Step(s, a).active) < Total(s, s.active) }

  lemma StrictAdvances(s: State, a: Action, e: ExecId)
    requires Inv(s) && s.shutting && e in s.active && Distance(Step(s, a), e) < Distance(s, e)
    ensures Advances(s, a)
  {
    var t := Step(s, a);
    forall x | x in s.active ensures Distance(t, x) <= Distance(s, x) { NoneFurther(s, a, x); }
    TotalOrdered(s, t, s.active);
    ActiveShrinks(s, a);
    if t.active != s.active { TotalWithout(t, s.active, s.owners[a.who].e); }
  }

  /** executor_shutdown cannot wait for ever: as long as an execution is left, its owner can go on, whatever the
      outcome `c` of the call it makes, or its dying process only has to exit, or a requester is about to kill it;
      and that step brings the end closer. */
  lemma ShutdownAdvances(s: State, e: ExecId, c: Choice) returns (a: Action)
    requires Inv(s) && s.shutting && e in s.active
    ensures Advances(s, a)
    ensures (a.Own? && Owns(s, a.who, e) && a.c == c) || a == ProcExit(e) || (a == KillStep(e) && e in s.killers)
  {
    var w :| Owns(s, w, e);
    assert SaneAt(s, s.owners[w]);
    var v := ViewOf(s, s.owners[w]);
    assert v.exec.requested;
    hide Core, Sane, Advances;
    RequestedNeverStuck(v);
    if !Blocked(v) {
      var tid := FreshThread(s.owners.Keys);
      assert CanMove(s, w, c, tid);
      OwnerCanMove(s, w, c, tid);
      a := Own(w, c, tid);
    } else {
      DyingAdvances(s, w);
      KillAdvances(s, w);
      a := if s.procs[e] == Killed then ProcExit(e) else KillStep(e);
    }
  }

  lemma OwnerCanMove(s: State, w: Who, c: Choice, tid: nat)
    requires Inv(s) && s.shutting && CanMove(s, w, c, tid) && s.owners[w].e in s.active
    ensures Advances(s, Own(w, c, tid))
  {
    hide Core, OwnStep, Distance;
    OwnerComesCloser(s, w, c, tid);
    hide CanMove;
    StrictAdvances(s, Own(w, c, tid), s.owners[w].e);
  }

  lemma ProcessStepsLower(s: State, e: ExecId)
    requires e in s.procs
    ensures s.procs[e] == Killed ==>
              var t := ExitStep(s, e); t.owners == s.owners && e in t.procs && ProcRank(t.procs[e]) < ProcRank(s.procs[e])
    ensures s.procs[e] == Alive && e in s.killers ==>
              var t := KillerStep(s, e); t.owners == s.owners && e in t.procs && ProcRank(t.procs[e]) < ProcRank(s.procs[e])
  {
  }

  lemma CloserAdvances(s: State, a: Action, w: Who)
    requires Inv(s) && s.shutting && w in s.owners && s.owners[w].e in s.active
    requires var e := s.owners[w].e; var t := Step(s, a);
      t.owners == s.owners && e in s.procs && e in t.procs && ProcRank(t.procs[e]) < ProcRank(s.procs[e])
    ensures Advances(s, a)
  {
    hide Core, Distance, PcRank, ProcRank, Step;
    DistanceIs(s, w);
    StepKeepsInv(s, a);
    DistanceIs(Step(s, a), w);
    StrictAdvances(s, a, s.owners[w].e);
  }

  lemma DyingAdvances(s: State, w: Who)
    requires Inv(s) && s.shutting && w in s.owners && s.owners[w].e in s.active && s.owners[w].e in s.procs
    ensures s.procs[s.owners[w].e] == Killed ==> Advances(s, ProcExit(s.owners[w].e))
  {
    hide Inv, PcRank, ProcRank, ExitStep, Advances;
    if s.procs[s.owners[w].e] == Killed {
      ProcessStepsLower(s, s.owners[w].e);
      CloserAdvances(s, ProcExit(s.owners[w].e), w);
    }
  }

  lemma KillAdvances(s: State, w: Who)
    requires Inv(s) && s.shutting && w in s.owners && s.owners[w].e in s.active && s.owners[w].e in s.procs
    ensures s.procs[s.owners[w].e] == Alive && s.owners[w].e in s.killers ==> Advances(s, KillStep(s.owners[w].e))
  {
    hide Inv, PcRank, ProcRank, KillerStep, Advances;
    if s.procs[s.owners[w].e] == Alive && s.owners[w].e in s.killers {
      ProcessStepsLower(s, s.owners[w].e);
      CloserAdvances(s, KillStep(s.owners[w].e), w);
    }
  }
}
