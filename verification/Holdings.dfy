// Holdings: the allocation records that the executor's protocol counts on are those of the allocator.

module Holdings {
  import opened Wrappers
  import opened Resources
  import opened Jobs
  import opened Ledger
  import opened Records
  import R = Registry
  import A = Allocator
  import opened Execution
  import opened Executor
  import opened ExecutorRuns

  /** The jobs with an active record. */
  ghost function Holders(table: seq<AllocRecord>): set<Id> {
    set i | 0 <= i < |table| && table[i].active :: table[i].job
  }

  /** A record always has slots, so a job holds something exactly while it has a record. */
  lemma HoldersAre(table: seq<AllocRecord>, j: Id)
    requires Filed(table)
    ensures j in Holders(table) <==> HasRecord(table, j)
    ensures HasRecord(table, j) <==> SlotsOf(table, j) != []
  {
    var i := RecordOf(table, j);
    if i < |table| { assert table[i].active && table[i].job == j; }
  }

  /** Where the slots of only one job have changed, so have the holders. */
  lemma HoldersFollow(was: seq<AllocRecord>, now: seq<AllocRecord>, job: Id)
    requires Filed(was) && Filed(now) && forall j :: j != job ==> SlotsOf(now, j) == SlotsOf(was, j)
    ensures SlotsOf(now, job) != [] ==> Holders(now) == Holders(was) + {job}
    ensures SlotsOf(now, job) == [] ==> Holders(now) == Holders(was) - {job}
  {
    hide Holders, Filed, SlotsOf, HasRecord;
    forall j ensures j in Holders(now) <==> SlotsOf(now, j) != [] { HoldersAre(now, j); }
    forall j ensures j in Holders(was) <==> SlotsOf(was, j) != [] { HoldersAre(was, j); }
  }

  // ---------------------------------------------------------------- what the protocol does to them

  function Taken(s: State, a: Action): set<Id> {
    if a.Pick? && s.sched.Idle? && RowOf(s, a.job) == Some(Queued) then {a.job} else {}
  }

  predicate AtRelease(s: State, who: Who) {
    who in s.owners && s.owners[who].e in s.execs && s.owners[who].e in s.procs && s.owners[who].pc.Release?
  }

  function Given(s: State, a: Action): set<Id> {
    if a.LetGo? && s.sched.Releasing? then {s.sched.job}
    else if a.Own? && AtRelease(s, a.who) then {s.execs[s.owners[a.who].e].job}
    else if a.Row? && a.op.FailStale? && s.sched.Idle? && RowOf(s, a.job) == Some(Running) && !Active(s, a.job) then {a.job}
    else {}
  }

  lemma MoveHolds(v: View, c: Choice)
    requires !Blocked(v) && !v.pc.Unregister?
    ensures Move(v, c).holds == (v.holds && !v.pc.Release?) && Move(v, c).exec.job == v.exec.job
  {
    MoveKeepsJob(v, c);
    hide TransitionAllowed, Terminal, Kill;
  }

  /** Bringing an execution to `v` gives its job's record back, or leaves it alone. */
  lemma WriteHolds(s: State, e: ExecId, v: View)
    ensures Write(s, e, v).held == if v.holds then s.held else s.held - {v.exec.job}
  {
  }

  lemma OwnHolds(s: State, who: Who, c: Choice, tid: nat)
    ensures OwnStep(s, who, c, tid).held == s.held - Given(s, Own(who, c, tid))
  {
    hide Move, Write;
    if who in s.owners && s.owners[who].e in s.execs && s.owners[who].e in s.procs {
      OwnerHolds(s, who, c, tid);
    }
  }

  lemma OwnerHolds(s: State, who: Who, c: Choice, tid: nat)
    requires who in s.owners && s.owners[who].e in s.execs && s.owners[who].e in s.procs
    ensures var job := s.execs[s.owners[who].e].job;
      OwnStep(s, who, c, tid).held == if s.owners[who].pc.Release? then s.held - {job} else s.held
  {
    hide Move, Write, Blocked, RowOf;
    var o := s.owners[who];
    var v := ViewOf(s, o);
    if v.pc.Release? { ReleaseGoesOn(v, c); }
    if !v.pc.Unregister? && !Blocked(v) {
      MoveHolds(v, c);
      WriteHolds(s, o.e, Move(v, c));
      WriteHolds(Leave(s, who), o.e, Move(v, c));
    }
    hide HandsOver;
  }

  lemma ReleaseGoesOn(v: View, c: Choice)
    requires v.pc.Release?
    ensures !Blocked(v) && !HandsOver(v, c)
  {
  }

  lemma RequestHolds(s: State, j: Id, status: Status, reason: string)
    ensures RequestStep(s, j, status, reason).held == s.held
  {
    hide FirstWith, RowOf;
    var r := FirstWith(s, s.active, j);
    if r.Some? && r.value in s.execs && r.value in s.procs {
      WriteHolds(s, r.value, Requested(ViewOf(s, Owner(r.value, Registered)), status, reason));
    }
    hide Write;
  }

  lemma {:induction false} SweepHolds(s: State, ids: seq<ExecId>)
    ensures Sweep(s, ids).held == s.held
    decreases |ids|
  {
    if |ids| > 0 {
      SweepOneHolds(s, ids[0]);
      hide SweepOne;
      SweepHolds(SweepOne(s, ids[0]), ids[1..]);
    }
  }

  lemma SweepOneHolds(s: State, e: ExecId)
    ensures SweepOne(s, e).held == s.held
  {
    hide RowOf;
    if e in s.execs && e in s.procs { WriteHolds(s, e, ShutDown(ViewOf(s, Owner(e, Registered)))); }
    hide Write;
  }

  lemma OtherHolds(s: State, a: Action)
    requires !a.Own? && !a.Cancel? && !a.Timeout? && !a.Shutdown?
    ensures Step(s, a).held == s.held + Taken(s, a) - Given(s, a)
  {
    hide Active;
  }

  /** A step of the protocol takes and gives back exactly these records. */
  lemma StepHolds(s: State, a: Action)
    ensures Step(s, a).held == s.held + Taken(s, a) - Given(s, a)
    ensures Taken(s, a) == {} || Given(s, a) == {}
  {
    match a
    case Own(who, c, tid) => OwnHolds(s, who, c, tid); hide OwnStep;
    case Cancel(j, reason) => RequestHolds(s, j, Cancelled, reason); hide RequestStep;
    case Timeout(j, reason) => RequestHolds(s, j, Failed, reason); hide RequestStep;
    case Shutdown => SweepHolds(s, s.active); hide Sweep;
    case _ => OtherHolds(s, a); hide Step;
  }

  // ---------------------------------------------------------------- the allocator does it

  /** The protocol's records are the allocator's. */
  ghost predicate Joined(s: State, table: seq<AllocRecord>) { s.held == Holders(table) }

  lemma FiledOf(a: A.Allocator)
    requires a.Inv()
    ensures Filed(a.table)
  {
  }

  /** The scan reserves for the queued job it has popped: if the reservation succeeds, that is the protocol's Pick. */
  method Reserve(a: A.Allocator, job: Id, need: Res, commits: bool, meddle: nat -> seq<R.RegOp>, ghost s: State)
    returns (r: Option<string>, ghost t: State)
    requires a.Inv() && R.AllBlank(meddle) && a.closing[job] == 0
    requires Joined(s, a.table) && s.sched.Idle? && RowOf(s, job) == Some(Queued)
    modifies a, a.registry, a.registry.data
    ensures a.Inv() && Joined(t, a.table) && t == if r.Some? then Step(s, Pick(job)) else s
    ensures r.Some? ==> t.held == s.held + {job} && job !in s.held
  {
    hide a.Inv, Holders, SlotsOf, HasRecord, Filed;
    ghost var was := a.table;
    FiledOf(a);
    r := a.AllocReserve(job, need, commits, meddle);
    FiledOf(a);
    t := PickJoins(s, was, a.table, job, r.Some?);
  }

  /** The same for the machine another job has run on. */
  method ReserveOn(a: A.Allocator, job: Id, target: string, need: Res, commits: bool, meddle: nat -> seq<R.RegOp>,
                   ghost s: State) returns (ok: bool, ghost t: State)
    requires a.Inv() && R.AllBlank(meddle) && a.closing[job] == 0
    requires Joined(s, a.table) && s.sched.Idle? && RowOf(s, job) == Some(Queued)
    modifies a, a.registry, a.registry.data
    ensures a.Inv() && Joined(t, a.table) && t == if ok then Step(s, Pick(job)) else s
    ensures ok ==> t.held == s.held + {job} && job !in s.held
  {
    hide a.Inv, Holders, SlotsOf, HasRecord, Filed;
    ghost var was := a.table;
    FiledOf(a);
    ok := a.AllocReserveOn(job, target, need, commits, meddle);
    FiledOf(a);
    t := PickJoins(s, was, a.table, job, ok);
  }

  lemma PickJoins(s: State, was: seq<AllocRecord>, now: seq<AllocRecord>, job: Id, ok: bool) returns (t: State)
    requires Filed(was) && Filed(now) && Joined(s, was) && s.sched.Idle? && RowOf(s, job) == Some(Queued)
    requires forall j :: !ok || j != job ==> SlotsOf(now, j) == SlotsOf(was, j)
    requires ok ==> !HasRecord(was, job) && SlotsOf(now, job) != []
    ensures t == (if ok then Step(s, Pick(job)) else s) && Joined(t, now)
    ensures ok ==> t.held == s.held + {job} && job !in s.held
  {
    hide Holders, SlotsOf, HasRecord, Filed;
    HoldersAre(was, job);
    HoldersFollow(was, now, job);
    StepHolds(s, Pick(job));
    hide Step;
    t := if ok then Step(s, Pick(job)) else s;
  }

  /** alloc_release for the job whose record a step gives back: the owner's, the scheduler's when it lets a job go, or that
      of a row without execution. */
  method Release(a: A.Allocator, job: Id, meddle: nat -> seq<R.RegOp>, ghost s: State, ghost act: Action)
    returns (ghost t: State)
    requires a.Inv() && R.AllBlank(meddle) && Joined(s, a.table) && Given(s, act) == {job}
    modifies a, a.registry, a.registry.data
    ensures a.Inv() && Joined(t, a.table) && t == Step(s, act) && t.held == s.held - {job}
  {
    hide a.Inv, Holders, SlotsOf, HasRecord, Filed, Step, Given, Taken;
    ghost var was := a.table;
    FiledOf(a);
    var released := a.AllocRelease(job, meddle);
    FiledOf(a);
    HoldersFollow(was, a.table, job);
    StepHolds(s, act);
    t := Step(s, act);
  }

  /** Any other step leaves the records alone. */
  lemma OtherStepsJoin(s: State, act: Action, table: seq<AllocRecord>)
    requires Joined(s, table) && Taken(s, act) == {} && Given(s, act) == {}
    ensures Joined(Step(s, act), table)
  {
    StepHolds(s, act);
    hide Step;
  }

  /** Every active record is that of the job being dispatched or of a live execution. */
  lemma RecordsAreOwned(s: State, table: seq<AllocRecord>, i: nat)
    requires Inv(s) && Joined(s, table) && i < |table| && table[i].active
    ensures (Reserving(s) && s.sched.job == table[i].job) || Held(s, table[i].job)
  {
    hide Listed, Owned, AllSane, Distinct, NoneLeft, IdsSeen, ShutFits;
    assert table[i].job in s.held;
  }

  /** Until it has released it, the owner of an execution has booked slots for its job. */
  lemma OwnersHaveSlots(s: State, table: seq<AllocRecord>, w: Who)
    requires Inv(s) && Joined(s, table) && Filed(table) && w in s.owners && !s.owners[w].pc.Unregister?
    ensures s.owners[w].e in s.execs && SlotsOf(table, s.execs[s.owners[w].e].job) != []
  {
    var o := s.owners[w];
    assert SaneAt(s, o);
    HoldersAre(table, s.execs[o.e].job);
    hide Holders, SlotsOf, HasRecord, Filed, ProcFits, StatusFits, Covered, PendingFits;
  }

  /** Once the executor has shut down, the allocator may drop its table: nothing is reserved on any machine. */
  method ShutDownAfter(a: A.Allocator, ghost s: State)
    requires a.Inv() && Joined(s, a.table) && Inv(s) && ShutDownDone(s)
    modifies a
    ensures a.Inv() && a.table == []
    ensures forall i :: 0 <= i < |a.registry.Machines()| ==> a.registry.Machines()[i].reserved == ZERO
  {
    NothingIsLeft(s);
    FiledOf(a);
    hide Inv, Filed, Holders, HasRecord;
    forall j ensures !HasRecord(a.table, j) { HoldersAre(a.table, j); }
    a.Shutdown();
  }
}
